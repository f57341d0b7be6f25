/** Canonical Base64 as the bytes serializer accepts it: RFC 4648 section 4, with the padding
    and pad-bit rules of section 3.5. */
module Base64 {
  import opened Wrappers
  import opened Bytes

  type Sextet = x: int | 0 <= x < 64

  /** A character as the codec sees it. */
  datatype Token = Sym(v: Sextet) | Pad | Bad

  function Symbol(v: Sextet): char {
    if v < 26 then 'A' + v as char
    else if v < 52 then 'a' + (v - 26) as char
    else if v < 62 then '0' + (v - 52) as char
    else if v == 62 then '+' else '/'
  }

  function TokenOf(c: char): Token {
    if 'A' <= c <= 'Z' then Sym((c - 'A') as int)
    else if 'a' <= c <= 'z' then Sym(26 + (c - 'a') as int)
    else if '0' <= c <= '9' then Sym(52 + (c - '0') as int)
    else if c == '+' then Sym(62)
    else if c == '/' then Sym(63)
    else if c == '=' then Pad
    else Bad
  }

  function CharOf(t: Token): char
    requires !t.Bad?
  {
    if t.Pad? then '=' else Symbol(t.v)
  }

  lemma AlphabetRoundTrip(c: char, t: Token)
    ensures !t.Bad? ==> TokenOf(CharOf(t)) == t
    ensures !TokenOf(c).Bad? ==> CharOf(TokenOf(c)) == c
  {
  }

  function Tokens(s: string): (ts: seq<Token>)
    ensures |ts| == |s|
    ensures forall i | 0 <= i < |s| :: ts[i] == TokenOf(s[i])
  {
    seq(|s|, i requires 0 <= i < |s| => TokenOf(s[i]))
  }

  function Chars(ts: seq<Token>): (s: string)
    requires forall i | 0 <= i < |ts| :: !ts[i].Bad?
    ensures |s| == |ts|
    ensures forall i | 0 <= i < |ts| :: s[i] == CharOf(ts[i])
  {
    seq(|ts|, i requires 0 <= i < |ts| => CharOf(ts[i]))
  }

  lemma TextRoundTrip(ts: seq<Token>, s: string)
    ensures (forall i | 0 <= i < |ts| :: !ts[i].Bad?) ==> Tokens(Chars(ts)) == ts
    ensures (forall i | 0 <= i < |s| :: !Tokens(s)[i].Bad?) ==> Chars(Tokens(s)) == s
  {
    forall i | 0 <= i < |ts| && !ts[i].Bad? ensures TokenOf(CharOf(ts[i])) == ts[i] { AlphabetRoundTrip('=', ts[i]); }
    forall i | 0 <= i < |s| && !Tokens(s)[i].Bad? ensures CharOf(TokenOf(s[i])) == s[i] { AlphabetRoundTrip(s[i], Pad); }
  }

  // ----- on tokens -----------------------------------------------------------------------

  /** Three bytes as four sextets, and four sextets as three bytes. */
  function Split(x: Byte, y: Byte, z: Byte): seq<Token> {
    [Sym(x / 4), Sym(x % 4 * 16 + y / 16), Sym(y % 16 * 4 + z / 64), Sym(z % 64)]
  }

  function Join(v0: Sextet, v1: Sextet, v2: Sextet, v3: Sextet): (b: seq<Byte>)
    ensures |b| == 3
  {
    [v0 * 4 + v1 / 16, v1 % 16 * 16 + v2 / 4, v2 % 4 * 64 + v3]
  }

  function EncodeTokens(b: seq<Byte>): (ts: seq<Token>)
    ensures forall i | 0 <= i < |ts| :: !ts[i].Bad?
  {
    if b == [] then []
    else if |b| == 1 then Split(b[0], 0, 0)[..2] + [Pad, Pad]
    else if |b| == 2 then Split(b[0], b[1], 0)[..3] + [Pad]
    else Split(b[0], b[1], b[2]) + EncodeTokens(b[3..])
  }

  /** The canonical token strings, read off the standard: whole quads of the alphabet, then
      possibly one padded quad whose unused bits are zero. */
  predicate CanonicalTokens(ts: seq<Token>) {
    ts == [] ||
    (|ts| >= 4 && ts[0].Sym? && ts[1].Sym? &&
     if ts[2].Sym? && ts[3].Sym? then CanonicalTokens(ts[4..])
     else |ts| == 4 && ts[3].Pad? && ((ts[2].Pad? && ts[1].v % 16 == 0) || (ts[2].Sym? && ts[2].v % 4 == 0)))
  }

  /** A decoder that looks at symbols and padding only, and drops the unused bits. */
  function DecodeTokens(ts: seq<Token>): Option<seq<Byte>> {
    if ts == [] then Some([])
    else if |ts| < 4 || !ts[0].Sym? || !ts[1].Sym? then None
    else if ts[2].Sym? && ts[3].Sym? then
      match DecodeTokens(ts[4..])
      case None => None
      case Some(rest) => Some(Join(ts[0].v, ts[1].v, ts[2].v, ts[3].v) + rest)
    else if |ts| != 4 || !ts[3].Pad? then None
    else if ts[2].Sym? then Some(Join(ts[0].v, ts[1].v, ts[2].v, 0)[..2])
    else if ts[2].Pad? then Some(Join(ts[0].v, ts[1].v, 0, 0)[..1])
    else None
  }

  lemma Divide(x: Byte, d: int)
    requires 0 < d
    ensures x == x / d * d + x % d
  {
  }

  lemma JoinSplit(x: Byte, y: Byte, z: Byte)
    ensures var q := Split(x, y, z); Join(q[0].v, q[1].v, q[2].v, q[3].v) == [x, y, z]
  {
    var q := Split(x, y, z);
    Divide(x, 4);
    Divide(y, 16);
    Divide(z, 64);
    assert q[1].v / 16 == x % 4 && q[1].v % 16 == y / 16;
    assert q[2].v / 4 == y % 16 && q[2].v % 4 == z / 64;
  }

  lemma SplitPadBits(x: Byte, y: Byte)
    ensures Split(x, 0, 0)[1].v % 16 == 0 && Split(x, y, 0)[2].v % 4 == 0
    ensures Split(x, 0, 0)[2].v == 0 && Split(x, y, 0)[3].v == 0
  {
  }

  lemma SplitJoin(v0: Sextet, v1: Sextet, v2: Sextet, v3: Sextet)
    ensures var b := Join(v0, v1, v2, v3); Split(b[0], b[1], b[2]) == [Sym(v0), Sym(v1), Sym(v2), Sym(v3)]
    ensures v2 % 4 == 0 ==> Join(v0, v1, v2, 0)[2] == 0
    ensures v1 % 16 == 0 ==> Join(v0, v1, 0, 0)[1] == 0 && Join(v0, v1, 0, 0)[2] == 0
  {
  }

  lemma {:induction false} EncodeIsCanonical(b: seq<Byte>)
    ensures CanonicalTokens(EncodeTokens(b)) && DecodeTokens(EncodeTokens(b)) == Some(b)
    decreases |b|
  {
    if |b| >= 3 {
      EncodeIsCanonical(b[3..]);
      JoinSplit(b[0], b[1], b[2]);
      assert EncodeTokens(b)[4..] == EncodeTokens(b[3..]);
      assert b == [b[0], b[1], b[2]] + b[3..];
    } else if |b| == 2 {
      JoinSplit(b[0], b[1], 0);
      SplitPadBits(b[0], b[1]);
      assert b == [b[0], b[1], 0][..2];
    } else if |b| == 1 {
      JoinSplit(b[0], 0, 0);
      SplitPadBits(b[0], 0);
      assert b == [b[0], 0, 0][..1];
    }
  }

  /** Every canonical token string is the encoding of what it decodes to. */
  lemma {:induction false} CanonicalIsEncoded(ts: seq<Token>)
    requires CanonicalTokens(ts)
    ensures DecodeTokens(ts).Some? && EncodeTokens(DecodeTokens(ts).value) == ts
    decreases |ts|
  {
    if ts != [] {
      if ts[2].Sym? && ts[3].Sym? {
        CanonicalIsEncoded(ts[4..]);
        SplitJoin(ts[0].v, ts[1].v, ts[2].v, ts[3].v);
        assert DecodeTokens(ts).value[3..] == DecodeTokens(ts[4..]).value;
      } else if ts[2].Sym? {
        SplitJoin(ts[0].v, ts[1].v, ts[2].v, 0);
        assert ts == [ts[0], ts[1], ts[2]] + [Pad];
      } else {
        SplitJoin(ts[0].v, ts[1].v, 0, 0);
        assert ts == [ts[0], ts[1]] + [Pad, Pad];
      }
    }
  }

  // ----- against the standard ------------------------------------------------------------

  /** Table 1 of RFC 4648: the four stretches of the alphabet, by their ends and their order. */
  lemma AlphabetIsStandard(v: Sextet)
    ensures Symbol(0) == 'A' && Symbol(25) == 'Z' && Symbol(26) == 'a' && Symbol(51) == 'z'
    ensures Symbol(52) == '0' && Symbol(61) == '9' && Symbol(62) == '+' && Symbol(63) == '/'
    ensures v !in {25, 51, 61, 62, 63} ==> Symbol(v + 1) as int == Symbol(v) as int + 1
  {
  }

  /** A group of three bytes and its four sextets are the same 24-bit number, as section 4 of the
      standard has it; a padded group is filled up with zero bits. */
  lemma GroupsKeepTheirValue(x: Byte, y: Byte, z: Byte)
    ensures var q := Split(x, y, z);
            ((q[0].v * 64 + q[1].v) * 64 + q[2].v) * 64 + q[3].v == (x * 256 + y) * 256 + z
    ensures EncodeTokens([x]) == Split(x, 0, 0)[..2] + [Pad, Pad]
    ensures EncodeTokens([x, y]) == Split(x, y, 0)[..3] + [Pad]
    ensures EncodeTokens([x, y, z]) == Split(x, y, z)
  {
    Divide(x, 4);
    Divide(y, 16);
    Divide(z, 64);
    assert EncodeTokens([x, y, z]) == Split(x, y, z) + EncodeTokens([x, y, z][3..]);
  }

  // ----- on text -------------------------------------------------------------------------

  /** `base64.b64encode`. */
  function Encode(b: seq<Byte>): string {
    Chars(EncodeTokens(b))
  }

  predicate Canonical(s: string) {
    CanonicalTokens(Tokens(s))
  }

  function Decode(s: string): Option<seq<Byte>> {
    DecodeTokens(Tokens(s))
  }

  lemma DecodeEncode(b: seq<Byte>)
    ensures Canonical(Encode(b)) && Decode(Encode(b)) == Some(b)
  {
    TextRoundTrip(EncodeTokens(b), "");
    EncodeIsCanonical(b);
  }

  lemma EncodeDecode(s: string)
    requires Canonical(s)
    ensures Decode(s).Some? && Encode(Decode(s).value) == s
  {
    CanonicalIsEncoded(Tokens(s));
    TextRoundTrip([], s);
  }

  /** Test vectors of section 10 of RFC 4648. */
  lemma StandardVectors()
    ensures Encode([]) == "" && Encode([0x66]) == "Zg==" && Encode([0x66, 0x6f]) == "Zm8="
    ensures Encode([0x66, 0x6f, 0x6f]) == "Zm9v"
  {
    GroupsKeepTheirValue(0x66, 0x6f, 0x6f);
    assert EncodeTokens([0x66]) == [Sym(25), Sym(32), Pad, Pad];
    assert EncodeTokens([0x66, 0x6f]) == [Sym(25), Sym(38), Sym(60), Pad];
    assert EncodeTokens([0x66, 0x6f, 0x6f]) == [Sym(25), Sym(38), Sym(61), Sym(47)];
  }

  // ----- the serializer's check ----------------------------------------------------------

  type Decoder = string -> Option<seq<Byte>>

  /** All the model needs of `b64decode`: it undoes `b64encode`.  What it makes of any other
      string, and whether it raises, is left open. */
  ghost predicate UndoesEncode(decode: Decoder) {
    forall b: seq<Byte> :: decode(Encode(b)) == Some(b)
  }

  datatype DecodeError = InvalidBase64 | NotCanonical

  /** `_decode_payload` on a string. */
  function DecodePayload(decode: Decoder, s: string): Result<seq<Byte>, DecodeError> {
    match decode(s)
    case None => Err(InvalidBase64)
    case Some(b) => if Encode(b) == s then Ok(b) else Err(NotCanonical)
  }

  /** Whatever lenient decoder is underneath, the serializer accepts exactly the canonical
      strings, and returns exactly the bytes the standard says they encode. */
  lemma AcceptsExactlyCanonical(decode: Decoder, s: string)
    requires UndoesEncode(decode)
    ensures DecodePayload(decode, s).Ok? <==> Canonical(s)
    ensures DecodePayload(decode, s).Ok? ==> Decode(s) == Some(DecodePayload(decode, s).value)
  {
    if Canonical(s) {
      EncodeDecode(s);
      assert decode(Encode(Decode(s).value)) == Some(Decode(s).value);
    }
    if DecodePayload(decode, s).Ok? { DecodeEncode(DecodePayload(decode, s).value); }
  }

  /** Encoding and accepting are inverse to each other: a bijection between byte strings and
      accepted texts. */
  lemma PayloadRoundTrip(decode: Decoder, b: seq<Byte>, s: string)
    requires UndoesEncode(decode)
    ensures DecodePayload(decode, Encode(b)) == Ok(b)
    ensures DecodePayload(decode, s) == Ok(b) <==> s == Encode(b)
  {
    assert decode(Encode(b)) == Some(b);
  }

  /** The assumption on the decoder is met by the one above. */
  lemma ReferenceDecoderQualifies()
    ensures UndoesEncode(Decode)
  {
    forall b: seq<Byte> ensures Decode(Encode(b)) == Some(b) { DecodeEncode(b); }
  }
}
