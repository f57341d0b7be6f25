/** The 4-byte big-endian length framing of `TcpConnection`, as functions on byte sequences. */
module Frames {
  import opened Bytes

  const HEADER_SIZE := 4
  const MAX_UINT32 := 4294967295

  function Header(n: nat): (h: seq<Byte>)
    requires n <= MAX_UINT32
    ensures |h| == HEADER_SIZE
  {
    [n / 16777216, n / 65536 % 256, n / 256 % 256, n % 256]
  }

  function Size(h: seq<Byte>): (n: nat)
    requires |h| == HEADER_SIZE
    ensures n <= MAX_UINT32
  {
    (h[0] as int) * 16777216 + (h[1] as int) * 65536 + (h[2] as int) * 256 + h[3]
  }

  lemma SizeOfHeader(n: nat)
    requires n <= MAX_UINT32
    ensures Size(Header(n)) == n
  {
    var a, b, c := n / 256, n / 65536, n / 16777216;
    assert n == 256 * a + n % 256;
    assert b == a / 256 && a == 256 * b + a % 256;
    assert c == b / 256 && b == 256 * c + b % 256;
  }

  /** What `send_frame` writes for one payload. */
  function Frame(payload: seq<Byte>): seq<Byte>
    requires |payload| <= MAX_UINT32
  {
    Header(|payload|) + payload
  }

  ghost predicate Legal(payloads: seq<seq<Byte>>, max: nat) {
    forall i | 0 <= i < |payloads| :: |payloads[i]| <= max
  }

  function Stream(payloads: seq<seq<Byte>>, max: nat): seq<Byte>
    requires max <= MAX_UINT32 && Legal(payloads, max)
  {
    if payloads == [] then [] else Frame(payloads[0]) + Stream(payloads[1..], max)
  }

  datatype Received = Payload(bytes: seq<Byte>) | Closed | Oversize | TimedOut

  /** One `receive_frame` on everything the stream will still deliver before it ends. */
  function Receive(stream: seq<Byte>, max: nat): (r: (Received, seq<Byte>))
    ensures r.0.Payload? ==> |r.1| < |stream|
  {
    if |stream| < HEADER_SIZE then (Closed, [])
    else
      var n := Size(stream[..HEADER_SIZE]);
      var rest := stream[HEADER_SIZE..];
      if n > max then (Oversize, rest)
      else if |rest| < n then (Closed, [])
      else (Payload(rest[..n]), rest[n..])
  }

  /** The outcome of one receive, stated by the header that was sent: an announced size over the
      limit is refused before any payload is read, a missing rest is a closed connection, and
      otherwise exactly that many bytes are taken. */
  lemma ReceiveIsExact(n: nat, rest: seq<Byte>, max: nat)
    requires n <= MAX_UINT32
    ensures Receive(Header(n) + rest, max) ==
            if max < n then (Oversize, rest)
            else if |rest| < n then (Closed, [])
            else (Payload(rest[..n]), rest[n..])
    ensures forall k | 0 <= k < 4 :: Receive((Header(n) + rest)[..k], max) == (Closed, [])
  {
    SizeOfHeader(n);
    assert (Header(n) + rest)[..HEADER_SIZE] == Header(n) && (Header(n) + rest)[HEADER_SIZE..] == rest;
  }

  /** The header is the size in base 256, most significant digit first. */
  lemma HeaderIsBigEndian(n: nat)
    requires n <= MAX_UINT32
    ensures var h := Header(n); h[0] as int * 0x100_0000 + h[1] as int * 0x1_0000 + h[2] as int * 0x100 + h[3] as int == n
  {
    SizeOfHeader(n);
  }

  /** Receiving until the first call that yields no payload. */
  function ReceiveAll(stream: seq<Byte>, max: nat): (seq<seq<Byte>>, Received)
    decreases |stream|
  {
    var (r, rest) := Receive(stream, max);
    if r.Payload? then
      var (more, last) := ReceiveAll(rest, max);
      ([r.bytes] + more, last)
    else ([], r)
  }

  lemma ReceiveFirst(payload: seq<Byte>, rest: seq<Byte>, max: nat)
    requires |payload| <= max <= MAX_UINT32
    ensures Receive(Frame(payload) + rest, max) == (Payload(payload), rest)
  {
    SizeOfHeader(|payload|);
    var stream := Frame(payload) + rest;
    assert stream[..HEADER_SIZE] == Header(|payload|);
    assert stream[HEADER_SIZE..] == payload + rest;
  }

  lemma ReceivePartial(payload: seq<Byte>, k: nat, max: nat)
    requires |payload| <= max <= MAX_UINT32 && k < |Frame(payload)|
    ensures Receive(Frame(payload)[..k], max) == (Closed, [])
  {
    if k >= HEADER_SIZE {
      SizeOfHeader(|payload|);
      assert Frame(payload)[..k][..HEADER_SIZE] == Header(|payload|);
    }
  }

  /** `j` payloads are complete within the first `k` bytes, and no more. */
  ghost predicate Complete(payloads: seq<seq<Byte>>, max: nat, k: nat, j: nat)
    requires max <= MAX_UINT32 && Legal(payloads, max)
  {
    && j <= |payloads| && |Stream(payloads[..j], max)| <= k
    && (j < |payloads| ==> k < |Stream(payloads[..j + 1], max)|)
  }

  lemma PrefixCons(payloads: seq<seq<Byte>>, max: nat, j: nat)
    requires max <= MAX_UINT32 && Legal(payloads, max) && 0 < j <= |payloads|
    ensures payloads[..j] == [payloads[0]] + payloads[1..][..j - 1]
    ensures Stream(payloads[..j], max) == Frame(payloads[0]) + Stream(payloads[1..][..j - 1], max)
  {
    assert payloads[..j][1..] == payloads[1..][..j - 1];
  }

  lemma CompleteCons(payloads: seq<seq<Byte>>, max: nat, k: nat, i: nat)
    requires max <= MAX_UINT32 && Legal(payloads, max) && payloads != []
    requires k >= |Frame(payloads[0])| && Complete(payloads[1..], max, k - |Frame(payloads[0])|, i)
    ensures Complete(payloads, max, k, i + 1)
  {
    PrefixCons(payloads, max, i + 1);
    if i + 1 < |payloads| { PrefixCons(payloads, max, i + 2); }
  }

  lemma CutCons(payloads: seq<seq<Byte>>, max: nat, k: nat)
    requires max <= MAX_UINT32 && Legal(payloads, max) && payloads != []
    requires |Frame(payloads[0])| <= k <= |Stream(payloads, max)|
    ensures var (more, last) := ReceiveAll(Stream(payloads[1..], max)[..k - |Frame(payloads[0])|], max);
            ReceiveAll(Stream(payloads, max)[..k], max) == ([payloads[0]] + more, last)
  {
    var cut := Stream(payloads[1..], max)[..k - |Frame(payloads[0])|];
    assert Stream(payloads, max)[..k] == Frame(payloads[0]) + cut;
    ReceiveFirst(payloads[0], cut, max);
  }

  lemma StreamCons(payloads: seq<seq<Byte>>, max: nat)
    requires max <= MAX_UINT32 && Legal(payloads, max) && payloads != []
    ensures Legal(payloads[1..], max)
    ensures |Stream(payloads, max)| == |Frame(payloads[0])| + |Stream(payloads[1..], max)|
  {
  }

  lemma CutInFirst(payloads: seq<seq<Byte>>, max: nat, k: nat)
    requires max <= MAX_UINT32 && Legal(payloads, max) && payloads != []
    requires k < |Frame(payloads[0])| && k <= |Stream(payloads, max)|
    ensures Complete(payloads, max, k, 0)
    ensures ReceiveAll(Stream(payloads, max)[..k], max) == ([], Closed)
  {
    ReceivePartial(payloads[0], k, max);
    assert Stream(payloads, max)[..k] == Frame(payloads[0])[..k];
    PrefixCons(payloads, max, 1);
  }

  lemma CutLater(payloads: seq<seq<Byte>>, max: nat, k: nat, i: nat)
    requires max <= MAX_UINT32 && Legal(payloads, max) && payloads != []
    requires |Frame(payloads[0])| <= k <= |Stream(payloads, max)|
    requires Complete(payloads[1..], max, k - |Frame(payloads[0])|, i)
    requires ReceiveAll(Stream(payloads[1..], max)[..k - |Frame(payloads[0])|], max) == (payloads[1..][..i], Closed)
    ensures Complete(payloads, max, k, i + 1)
    ensures ReceiveAll(Stream(payloads, max)[..k], max) == (payloads[..i + 1], Closed)
  {
    CompleteCons(payloads, max, k, i);
    CutCons(payloads, max, k);
    assert payloads[..i + 1] == [payloads[0]] + payloads[1..][..i];
  }

  /** A stream cut at any byte yields exactly the payloads that are complete before the cut,
      and then a closed connection. */
  lemma {:induction false} TruncatedStream(payloads: seq<seq<Byte>>, max: nat, k: nat) returns (j: nat)
    requires max <= MAX_UINT32 && Legal(payloads, max) && k <= |Stream(payloads, max)|
    ensures Complete(payloads, max, k, j)
    ensures ReceiveAll(Stream(payloads, max)[..k], max) == (payloads[..j], Closed)
    decreases |payloads|
  {
    if payloads == [] {
      j := 0;
    } else if k < |Frame(payloads[0])| {
      j := 0;
      CutInFirst(payloads, max, k);
    } else {
      StreamCons(payloads, max);
      var i := TruncatedStream(payloads[1..], max, k - |Frame(payloads[0])|);
      j := i + 1;
      CutLater(payloads, max, k, i);
    }
  }

  /** An uncut stream yields exactly the payloads that were sent. */
  lemma WholeStream(payloads: seq<seq<Byte>>, max: nat)
    requires max <= MAX_UINT32 && Legal(payloads, max)
    ensures ReceiveAll(Stream(payloads, max), max) == (payloads, Closed)
  {
    var stream := Stream(payloads, max);
    var j := TruncatedStream(payloads, max, |stream|);
    assert stream[..|stream|] == stream;
    if j < |payloads| {
      PrefixIsShorter(payloads, max, j + 1);
    }
    assert payloads[..|payloads|] == payloads;
  }

  lemma {:induction false} PrefixIsShorter(payloads: seq<seq<Byte>>, max: nat, j: nat)
    requires max <= MAX_UINT32 && Legal(payloads, max) && j <= |payloads|
    ensures Legal(payloads[..j], max) && |Stream(payloads[..j], max)| <= |Stream(payloads, max)|
  {
    if j > 0 {
      PrefixIsShorter(payloads[1..], max, j - 1);
      assert payloads[..j][1..] == payloads[1..][..j - 1];
    }
  }

  /** Framing is unambiguous. */
  lemma StreamIsInjective(a: seq<seq<Byte>>, b: seq<seq<Byte>>, max: nat)
    requires max <= MAX_UINT32 && Legal(a, max) && Legal(b, max) && Stream(a, max) == Stream(b, max)
    ensures a == b
  {
    WholeStream(a, max);
    WholeStream(b, max);
  }

  lemma {:induction false} StreamAppend(payloads: seq<seq<Byte>>, payload: seq<Byte>, max: nat)
    requires max <= MAX_UINT32 && Legal(payloads, max) && |payload| <= max
    ensures Legal(payloads + [payload], max)
    ensures Stream(payloads + [payload], max) == Stream(payloads, max) + Frame(payload)
  {
    if payloads == [] {
      assert payloads + [payload] == [payload] && [payload][1..] == [];
    } else {
      StreamAppend(payloads[1..], payload, max);
      assert (payloads + [payload])[1..] == payloads[1..] + [payload];
    }
  }
}

/** `TcpConnection` over a stream reader that is fed chunk by chunk. */
module Framing {
  import opened Bytes
  import opened Wrappers
  import F = Frames

  function Joined(chunks: seq<seq<Byte>>): seq<Byte> {
    if chunks == [] then [] else chunks[0] + Joined(chunks[1..])
  }

  class TcpConnection {
    const maxFrameSize: nat
    var buffer: seq<Byte>
    var chunks: seq<seq<Byte>>
    var endSeen: bool
    var closed: bool
    var writerClosing: bool
    var written: seq<Byte>

    ghost predicate Valid()
      reads this
    {
      0 < maxFrameSize <= F.MAX_UINT32 && (endSeen ==> chunks == [])
    }

    /** Every byte the peer's stream still holds for this end: buffered, or yet to arrive. */
    ghost function Remaining(): seq<Byte>
      reads this
    {
      buffer + Joined(chunks)
    }

    predicate IsClosed()
      reads this
    {
      closed || writerClosing || (endSeen && buffer == [])
    }

    constructor (maxFrameSize: nat, chunks: seq<seq<Byte>>)
      requires 0 < maxFrameSize <= F.MAX_UINT32
      ensures Valid() && !IsClosed() && Remaining() == Joined(chunks) && written == []
      ensures this.maxFrameSize == maxFrameSize
    {
      this.maxFrameSize := maxFrameSize;
      buffer, this.chunks, endSeen, closed, writerClosing, written := [], chunks, false, false, false, [];
    }

    /** The network delivers the next chunk, or the end of the stream. */
    method Arrive()
      requires Valid()
      modifies this`buffer, this`chunks, this`endSeen
      ensures Valid() && Remaining() == old(Remaining())
      ensures old(buffer) <= buffer && |chunks| <= old(|chunks|) && (!endSeen ==> |chunks| + 1 == old(|chunks|))
      ensures |chunks| + (if endSeen then 0 else 1) < old(|chunks| + (if endSeen then 0 else 1)) || old(endSeen)
    {
      if chunks == [] {
        endSeen := true;
      } else {
        buffer := buffer + chunks[0];
        chunks := chunks[1..];
      }
    }

    /** `_read_exactly` with at most `patience` waits for data; None means the wait is unbounded. */
    method ReadExactly(size: nat, patience: Option<nat>) returns (r: F.Received)
      requires Valid()
      modifies this`buffer, this`chunks, this`endSeen, this`closed
      ensures Valid() && !r.Oversize?
      ensures r.Payload? ==> |old(Remaining())| >= size && r.bytes == old(Remaining())[..size]
                             && Remaining() == old(Remaining())[size..] && closed == old(closed)
      ensures r.Closed? ==> |old(Remaining())| < size && Remaining() == [] && closed
      ensures r.TimedOut? ==> Remaining() == old(Remaining()) && closed == old(closed)
      ensures r.TimedOut? ==> patience.Some? && patience.value <= old(|chunks|) && |old(buffer)| < size
      ensures |chunks| <= old(|chunks|)
    {
      var waited := 0;
      while |buffer| < size
        invariant Valid() && Remaining() == old(Remaining()) && closed == old(closed)
        invariant |old(buffer)| <= |buffer| && (!endSeen ==> waited + |chunks| == old(|chunks|)) && |chunks| <= old(|chunks|)
        decreases |chunks| + (if endSeen then 0 else 1)
      {
        if endSeen {
          buffer := [];
          closed := true;
          return F.Closed;
        }
        if patience.Some? && waited >= patience.value { return F.TimedOut; }
        waited := waited + 1;
        Arrive();
      }
      ghost var all := Remaining();
      r := F.Payload(buffer[..size]);
      buffer := buffer[size..];
      assert all[..size] == r.bytes && all[size..] == Remaining();
    }

    method Close()
      modifies this`closed, this`writerClosing
      ensures closed && writerClosing && IsClosed()
    {
      closed := true;
      writerClosing := true;
    }

    /** `receive_frame`: whatever the chunking, the outcome is that of `Receive` on the remaining
        bytes; only a payload deadline can interfere, and it closes the connection. */
    method ReceiveFrame(patience: Option<nat>) returns (r: F.Received)
      requires Valid()
      modifies this`buffer, this`chunks, this`endSeen, this`closed, this`writerClosing
      ensures Valid()
      ensures old(closed || writerClosing) ==> r == F.Closed && Remaining() == old(Remaining())
      ensures !old(closed || writerClosing) && !r.TimedOut? ==>
                (r, Remaining()) == F.Receive(old(Remaining()), maxFrameSize)
      ensures r.TimedOut? ==> patience.Some? && patience.value <= old(|chunks|) && !old(IsClosed())
      ensures !r.Payload? ==> IsClosed() && (!old(IsClosed()) ==> closed)
      ensures r.Payload? ==> closed == old(closed) && writerClosing == old(writerClosing) && !old(IsClosed())
    {
      if IsClosed() { return F.Closed; }
      ghost var all := Remaining();
      var header := ReadExactly(F.HEADER_SIZE, None);
      if !header.Payload? { return header; }
      var size := F.Size(header.bytes);
      if size > maxFrameSize {
        Close();
        return F.Oversize;
      }
      assert all[F.HEADER_SIZE..] == Remaining();
      r := ReadExactly(size, patience);
      if r.TimedOut? { Close(); }
    }

    /** `send_frame`; `fails` is an error of the underlying writer, which may then lose any tail of
        what was written. */
    method SendFrame(data: seq<Byte>, fails: bool) returns (sent: bool)
      requires Valid()
      modifies this`closed, this`written
      ensures Valid()
      ensures sent <==> !old(IsClosed()) && |data| <= maxFrameSize && !fails
      ensures sent ==> written == old(written) + F.Frame(data) && closed == old(closed)
      ensures !sent && (old(IsClosed()) || |data| > maxFrameSize) ==> written == old(written) && closed == old(closed)
      ensures fails && !old(IsClosed()) && |data| <= maxFrameSize ==> closed && written == old(written) + F.Frame(data)
    {
      if IsClosed() || |data| > maxFrameSize { return false; }
      written := written + F.Header(|data|) + data;
      assert written == old(written) + F.Frame(data);
      if fails {
        closed := true;
        return false;
      }
      sent := true;
    }
  }

  /** The node's reader loop on a healthy connection: all frames until the first refusal. */
  method ReceiveUntilClosed(c: TcpConnection) returns (frames: seq<seq<Byte>>, last: F.Received)
    requires c.Valid() && !c.closed && !c.writerClosing
    modifies c
    ensures (frames, last) == old(F.ReceiveAll(c.Remaining(), c.maxFrameSize))
    ensures c.IsClosed()
  {
    frames := [];
    last := F.Closed;
    ghost var all := F.ReceiveAll(c.Remaining(), c.maxFrameSize);
    assert [] + all.0 == all.0;
    while !c.IsClosed()
      invariant c.Valid()
      invariant !c.closed && !c.writerClosing ==> last == F.Closed
      invariant !c.closed && !c.writerClosing ==>
                  all == (frames + F.ReceiveAll(c.Remaining(), c.maxFrameSize).0,
                          F.ReceiveAll(c.Remaining(), c.maxFrameSize).1)
      invariant c.closed || c.writerClosing ==> (frames, last) == all
      decreases |c.Remaining()|, !c.IsClosed()
    {
      ghost var tail := F.ReceiveAll(c.Remaining(), c.maxFrameSize);
      ghost var sofar := frames;
      var r := c.ReceiveFrame(None);
      if r.Payload? {
        ghost var more := F.ReceiveAll(c.Remaining(), c.maxFrameSize).0;
        assert tail.0 == [r.bytes] + more;
        frames := frames + [r.bytes];
        assert sofar + ([r.bytes] + more) == frames + more;
      } else {
        last := r;
        assert frames + [] == frames;
      }
    }
    assert frames + [] == frames;
  }

  /** Two ends: whatever was sent and however the bytes were chunked, exactly those payloads
      arrive, in order, and then the connection reads as closed. */
  method SendAndReceive(payloads: seq<seq<Byte>>, max: nat, chunks: seq<seq<Byte>>)
    returns (frames: seq<seq<Byte>>, last: F.Received)
    requires 0 < max <= F.MAX_UINT32 && F.Legal(payloads, max)
    requires Joined(chunks) == F.Stream(payloads, max)
    ensures frames == payloads && last == F.Closed
  {
    var c := new TcpConnection(max, chunks);
    F.WholeStream(payloads, max);
    frames, last := ReceiveUntilClosed(c);
  }
}
