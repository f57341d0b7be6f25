/** The writer channel of one READY connection: a bounded FIFO queue, its sole worker task, and
    one completion future per frame.  An event is the code between two suspensions. */
module WriterChannel {
  import opened Wrappers
  import opened Bytes

  type FutureId = nat
  type Frame = seq<Byte>

  datatype FutureState = Pending | Written | Failed | Cancelled

  datatype Item = Item(frame: Frame, future: FutureId)

  datatype Worker = NotStarted | AtGet | Sending | ClosingAfterError | Stopped

  /** `admitted`, `sent` and `drained` record the items that entered the queue, were passed to
      `send_frame`, and were taken out unsent; `written` the futures whose write returned. */
  datatype Channel = Channel(
    queue: seq<Item>, current: Option<Item>, futures: map<FutureId, FutureState>, unfinished: int,
    worker: Worker, running: bool, closed: bool, cancelRequested: bool,
    admitted: seq<Item>, sent: seq<Item>, drained: seq<Item>, written: set<FutureId>,
    gets: nat, dones: nat, admittedAtStop: nat)

  function Complete(futures: map<FutureId, FutureState>, f: FutureId, v: FutureState): map<FutureId, FutureState> {
    if f in futures && futures[f].Pending? then futures[f := v] else futures
  }

  function FailItems(futures: map<FutureId, FutureState>, items: seq<Item>): map<FutureId, FutureState> {
    if items == [] then futures else FailItems(Complete(futures, items[0].future, Failed), items[1..])
  }

  /** `_fail_outbound_queue`. */
  function Drain(ch: Channel): Channel {
    ch.(queue := [], futures := FailItems(ch.futures, ch.queue), unfinished := ch.unfinished - |ch.queue|,
        drained := ch.drained + ch.queue, gets := ch.gets + |ch.queue|, dones := ch.dones + |ch.queue|)
  }

  /** The worker's outer `finally`. */
  function Stop(ch: Channel): Channel {
    var cleared := if ch.current.Some?
                   then ch.(futures := Complete(ch.futures, ch.current.value.future, Failed), current := None)
                   else ch;
    Drain(cleared).(worker := Stopped, admittedAtStop := |ch.admitted|)
  }

  /** The loop condition. */
  function Loop(ch: Channel): Channel {
    if ch.running && !ch.closed then ch.(worker := AtGet) else Stop(ch)
  }

  /** The worker's inner `finally`. */
  function TaskDone(ch: Channel): Channel {
    ch.(current := None, unfinished := ch.unfinished - 1, dones := ch.dones + 1)
  }

  function FailCurrent(ch: Channel): Channel {
    if ch.current.None? then ch
    else ch.(futures := Complete(ch.futures, ch.current.value.future, Failed))
  }

  datatype Event =
    | Puts(item: Item)
    | WorkerStarts
    | Gets
    | SendReturns
    | SendRaises
    | ErrorCloseEnds
    | WorkerCancelled
    | CancelIsRequested
    | NodeStops
    | CloserDrains
    | WaiterGivesUp(f: FutureId)
    | ConnectionCloses

  function Open(): Channel {
    Channel([], None, map[], 0, NotStarted, true, false, false, [], [], [], {}, 0, 0, 0)
  }

  /** A worker cancelled before it first ran never reaches its `finally` clause.
      `CloserDrains` is `_close_outbound_channel` after it has awaited the worker. */
  predicate Enabled(ch: Channel, capacity: nat, e: Event) {
    match e
    case Puts(item) => |ch.queue| < capacity && item.future !in ch.futures
    case WorkerStarts => ch.worker.NotStarted? && !ch.cancelRequested
    case Gets => ch.worker.AtGet? && ch.queue != [] && !ch.cancelRequested
    case SendReturns => ch.worker.Sending?
    case SendRaises => ch.worker.Sending?
    case ErrorCloseEnds => ch.worker.ClosingAfterError?
    case WorkerCancelled => ch.cancelRequested && !ch.worker.Stopped?
    case CloserDrains => ch.worker.Stopped?
    case NodeStops => ch.running
    case _ => true
  }

  function Next(ch: Channel, capacity: nat, e: Event): Channel
    requires Enabled(ch, capacity, e)
  {
    match e
    case Puts(item) =>
      ch.(queue := ch.queue + [item], admitted := ch.admitted + [item],
          futures := ch.futures[item.future := Pending], unfinished := ch.unfinished + 1)
    case WorkerStarts => Loop(ch)
    case Gets =>
      ch.(queue := ch.queue[1..], current := Some(ch.queue[0]), sent := ch.sent + [ch.queue[0]],
          gets := ch.gets + 1, worker := Sending)
    case SendReturns =>
      if ch.current.None? then ch
      else
        var f := ch.current.value.future;
        Loop(TaskDone(ch.(futures := Complete(ch.futures, f, Written), written := ch.written + {f},
                          cancelRequested := false)))
    case SendRaises => FailCurrent(ch).(closed := true, worker := ClosingAfterError)
    case ErrorCloseEnds => Stop(TaskDone(ch))
    case WorkerCancelled =>
      (match ch.worker
       case NotStarted => ch.(worker := Stopped, admittedAtStop := 0)
       case AtGet => Stop(ch)
       case _ => Stop(TaskDone(FailCurrent(ch))))
    case CancelIsRequested => ch.(cancelRequested := true)
    case NodeStops => Drain(FailCurrent(ch)).(running := false, cancelRequested := true)
    case CloserDrains => Drain(ch)
    case WaiterGivesUp(f) => ch.(futures := Complete(ch.futures, f, Cancelled))
    case ConnectionCloses => ch.(closed := true)
  }

  ghost predicate IsRun(ch: Channel, capacity: nat, es: seq<Event>)
    decreases |es|
  {
    es == [] || (Enabled(ch, capacity, es[0]) && IsRun(Next(ch, capacity, es[0]), capacity, es[1..]))
  }

  ghost function After(ch: Channel, capacity: nat, es: seq<Event>): Channel
    requires IsRun(ch, capacity, es)
    decreases |es|
  {
    if es == [] then ch else After(Next(ch, capacity, es[0]), capacity, es[1..])
  }

  // ----- invariant -----------------------------------------------------------------------

  predicate IsDone(ch: Channel, item: Item) {
    item.future in ch.futures && !ch.futures[item.future].Pending?
  }

  ghost predicate CountsMatch(ch: Channel) {
    var holding := if ch.current.Some? then 1 else 0;
    && ch.unfinished == |ch.queue| + holding
    && ch.gets == ch.dones + holding
    && (ch.current.Some? <==> ch.worker.Sending? || ch.worker.ClosingAfterError?)
    && (ch.current.Some? ==> ch.sent != [] && ch.current.value == ch.sent[|ch.sent| - 1])
  }

  /** Nothing is sent after something was drained. */
  ghost predicate OrderKept(ch: Channel) {
    && ch.admitted == ch.sent + ch.drained + ch.queue
    && (ch.drained != [] && !ch.worker.Stopped? ==>
          !ch.running && (ch.cancelRequested || ch.worker.Sending? || ch.worker.ClosingAfterError?))
  }

  /** How many of the sent items are finished with: all but the one being written. */
  function Settled(ch: Channel): int {
    |ch.sent| - if ch.current.Some? then 1 else 0
  }

  ghost predicate FuturesSound(ch: Channel) {
    && (forall i | 0 <= i < |ch.admitted| :: ch.admitted[i].future in ch.futures)
    && (forall i | 0 <= i < Settled(ch) && i < |ch.sent| :: IsDone(ch, ch.sent[i]))
    && (forall i | 0 <= i < |ch.drained| :: IsDone(ch, ch.drained[i]))
    && (forall f | f in ch.futures && ch.futures[f].Written? :: f in ch.written)
    && (forall f | f in ch.written :: exists i :: 0 <= i < Settled(ch) && i < |ch.sent| && ch.sent[i].future == f)
  }

  ghost predicate Inv(ch: Channel, capacity: nat) {
    && CountsMatch(ch) && OrderKept(ch) && FuturesSound(ch) && |ch.queue| <= capacity
    && (ch.worker.Stopped? ==> ch.admittedAtStop <= |ch.sent| + |ch.drained|)
    && (ch.worker.ClosingAfterError? && ch.current.Some? ==> IsDone(ch, ch.current.value))
  }

  lemma {:induction false} FailItemsCompletes(futures: map<FutureId, FutureState>, items: seq<Item>)
    ensures FailItems(futures, items).Keys == futures.Keys
    ensures forall f | f in futures ::
              (FailItems(futures, items)[f] == futures[f]
               || (futures[f].Pending? && FailItems(futures, items)[f].Failed?))
    ensures forall i | 0 <= i < |items| && items[i].future in futures ::
              !FailItems(futures, items)[items[i].future].Pending?
  {
    if items != [] {
      var next := Complete(futures, items[0].future, Failed);
      FailItemsCompletes(next, items[1..]);
      forall i | 0 <= i < |items| && items[i].future in futures
        ensures !FailItems(futures, items)[items[i].future].Pending?
      {
        if i > 0 { assert items[i] == items[1..][i - 1]; }
      }
    }
  }

  lemma DrainKeepsInv(ch: Channel, capacity: nat)
    requires Inv(ch, capacity)
    requires ch.worker.Stopped? || (!ch.running && (ch.cancelRequested || ch.worker.Sending? || ch.worker.ClosingAfterError?))
    ensures Inv(Drain(ch), capacity)
  {
    FailItemsCompletes(ch.futures, ch.queue);
    var ch' := Drain(ch);
    assert ch'.admitted == ch'.sent + ch'.drained + ch'.queue;
    forall i | 0 <= i < |ch'.drained| ensures IsDone(ch', ch'.drained[i]) {
      if i >= |ch.drained| {
        assert ch'.drained[i] == ch.queue[i - |ch.drained|] == ch.admitted[|ch.sent| + i];
      }
    }
  }

  /** The invariant of a channel whose worker holds nothing, before it is told where to go. */
  ghost predicate Idle(ch: Channel, capacity: nat) {
    && ch.current.None? && ch.unfinished == |ch.queue| && ch.gets == ch.dones
    && ch.admitted == ch.sent + ch.drained + ch.queue && (ch.drained != [] ==> !ch.running)
    && FuturesSound(ch) && |ch.queue| <= capacity
  }

  lemma StopKeepsInv(ch: Channel, capacity: nat)
    requires ch.current.None? && ch.unfinished == |ch.queue| && ch.gets == ch.dones
    requires ch.admitted == ch.sent + ch.drained + ch.queue && FuturesSound(ch)
    ensures Inv(Stop(ch), capacity)
  {
    FailItemsCompletes(ch.futures, ch.queue);
    var ch' := Stop(ch);
    assert ch'.admitted == ch'.sent + ch'.drained + ch'.queue;
    forall i | 0 <= i < |ch'.drained| ensures IsDone(ch', ch'.drained[i]) {
      if i >= |ch.drained| {
        assert ch'.drained[i] == ch.queue[i - |ch.drained|] == ch.admitted[|ch.sent| + i];
      }
    }
  }

  lemma LoopKeepsInv(ch: Channel, capacity: nat)
    requires Idle(ch, capacity)
    ensures Inv(Loop(ch), capacity)
  {
    if !(ch.running && !ch.closed) { StopKeepsInv(ch, capacity); }
  }

  /** The worker is done with its current item once its future has been completed somehow. */
  lemma SettleCurrent(ch: Channel, capacity: nat, v: FutureState, written: set<FutureId>)
    requires Inv(ch, capacity) && ch.current.Some? && !v.Pending?
    requires written == ch.written || written == ch.written + {ch.current.value.future}
    requires v.Written? ==> ch.current.value.future in written
    ensures var ch' := TaskDone(ch.(futures := Complete(ch.futures, ch.current.value.future, v), written := written));
            && ch'.current.None? && ch'.unfinished == |ch'.queue| && ch'.gets == ch'.dones
            && ch'.admitted == ch'.sent + ch'.drained + ch'.queue && FuturesSound(ch')
            && |ch'.queue| <= capacity && (ch'.drained != [] ==> !ch'.running)
  {
    var last := |ch.sent| - 1;
    var f := ch.current.value.future;
    assert ch.admitted[last] == ch.sent[last];
    var ch' := TaskDone(ch.(futures := Complete(ch.futures, f, v), written := written));
    forall i | 0 <= i < |ch'.sent| ensures IsDone(ch', ch'.sent[i]) {
      assert ch.admitted[i] == ch.sent[i];
    }
    forall g | g in written ensures exists i :: 0 <= i < Settled(ch') && i < |ch'.sent| && ch'.sent[i].future == g {
      if g in ch.written {
        var i :| 0 <= i < Settled(ch) && i < |ch.sent| && ch.sent[i].future == g;
        assert ch'.sent[i].future == g;
      } else {
        assert ch'.sent[last].future == g;
      }
    }
  }

  lemma CompleteKeepsInv(ch: Channel, capacity: nat, f: FutureId, v: FutureState)
    requires Inv(ch, capacity) && (v.Failed? || v.Cancelled?)
    ensures Inv(ch.(futures := Complete(ch.futures, f, v)), capacity)
  {
  }

  lemma GetKeepsInv(ch: Channel, capacity: nat)
    requires Inv(ch, capacity) && Enabled(ch, capacity, Gets)
    ensures Inv(Next(ch, capacity, Gets), capacity)
  {
    var ch' := Next(ch, capacity, Gets);
    assert ch'.admitted == ch'.sent + ch'.drained + ch'.queue;
    forall f | f in ch'.written ensures exists i :: 0 <= i < Settled(ch') && i < |ch'.sent| && ch'.sent[i].future == f {
      var i :| 0 <= i < Settled(ch) && i < |ch.sent| && ch.sent[i].future == f;
      assert ch'.sent[i] == ch.sent[i];
    }
  }

  lemma PutKeepsInv(ch: Channel, capacity: nat, item: Item)
    requires Inv(ch, capacity) && Enabled(ch, capacity, Puts(item))
    ensures Inv(Next(ch, capacity, Puts(item)), capacity)
  {
    var ch' := Next(ch, capacity, Puts(item));
    assert ch'.admitted == ch'.sent + ch'.drained + ch'.queue;
    forall i | 0 <= i < |ch.sent| ensures ch.sent[i].future != item.future { assert ch.admitted[i] == ch.sent[i]; }
  }

  lemma SendReturnKeepsInv(ch: Channel, capacity: nat)
    requires Inv(ch, capacity) && Enabled(ch, capacity, SendReturns)
    ensures Inv(Next(ch, capacity, SendReturns), capacity)
  {
    var f := ch.current.value.future;
    SettleCurrent(ch, capacity, Written, ch.written + {f});
    LoopKeepsInv(TaskDone(ch.(futures := Complete(ch.futures, f, Written), written := ch.written + {f},
                              cancelRequested := false)), capacity);
  }

  lemma SendRaiseKeepsInv(ch: Channel, capacity: nat)
    requires Inv(ch, capacity) && Enabled(ch, capacity, SendRaises)
    ensures Inv(Next(ch, capacity, SendRaises), capacity)
  {
    CompleteKeepsInv(ch, capacity, ch.current.value.future, Failed);
    assert ch.admitted[|ch.sent| - 1] == ch.current.value;
  }

  lemma WorkerEndKeepsInv(ch: Channel, capacity: nat, e: Event)
    requires Inv(ch, capacity) && Enabled(ch, capacity, e) && (e.ErrorCloseEnds? || e.WorkerCancelled?)
    ensures Inv(Next(ch, capacity, e), capacity)
  {
    if ch.current.Some? {
      SettleCurrent(ch, capacity, Failed, ch.written);
      if e.ErrorCloseEnds? {
        assert Complete(ch.futures, ch.current.value.future, Failed) == ch.futures;
        StopKeepsInv(TaskDone(ch), capacity);
      } else {
        StopKeepsInv(TaskDone(FailCurrent(ch)), capacity);
      }
    } else if ch.worker.AtGet? {
      StopKeepsInv(ch, capacity);
    }
  }

  lemma NodeStopKeepsInv(ch: Channel, capacity: nat)
    requires Inv(ch, capacity) && Enabled(ch, capacity, NodeStops)
    ensures Inv(Next(ch, capacity, NodeStops), capacity)
  {
    if ch.current.Some? { CompleteKeepsInv(ch, capacity, ch.current.value.future, Failed); }
    GivenFlagsKeepInv(FailCurrent(ch), capacity, ch.closed, true, false);
    DrainKeepsInv(FailCurrent(ch).(running := false, cancelRequested := true), capacity);
    assert Next(ch, capacity, NodeStops) == Drain(FailCurrent(ch).(running := false, cancelRequested := true));
  }

  lemma StepKeepsInv(ch: Channel, capacity: nat, e: Event)
    requires Inv(ch, capacity) && Enabled(ch, capacity, e)
    ensures Inv(Next(ch, capacity, e), capacity)
  {
    match e
    case Puts(item) => PutKeepsInv(ch, capacity, item);
    case WorkerStarts => LoopKeepsInv(ch, capacity);
    case Gets => GetKeepsInv(ch, capacity);
    case SendReturns => SendReturnKeepsInv(ch, capacity);
    case SendRaises => SendRaiseKeepsInv(ch, capacity);
    case ErrorCloseEnds => WorkerEndKeepsInv(ch, capacity, e);
    case WorkerCancelled => WorkerEndKeepsInv(ch, capacity, e);
    case NodeStops => NodeStopKeepsInv(ch, capacity);
    case CloserDrains => DrainKeepsInv(ch, capacity);
    case WaiterGivesUp(f) => CompleteKeepsInv(ch, capacity, f, Cancelled);
    case CancelIsRequested => GivenFlagsKeepInv(ch, capacity, ch.closed, true, ch.running);
    case ConnectionCloses => GivenFlagsKeepInv(ch, capacity, true, ch.cancelRequested, ch.running);
  }

  /** Raising the closed or cancel flag, or lowering the running flag, breaks nothing. */
  lemma GivenFlagsKeepInv(ch: Channel, capacity: nat, closed: bool, cancel: bool, running: bool)
    requires Inv(ch, capacity) && (ch.cancelRequested ==> cancel) && (running ==> ch.running)
    ensures Inv(ch.(closed := closed, cancelRequested := cancel, running := running), capacity)
  {
    var ch' := ch.(closed := closed, cancelRequested := cancel, running := running);
    assert Settled(ch') == Settled(ch);
    assert FuturesSound(ch');
  }

  lemma {:induction false} RunsKeepInv(ch: Channel, capacity: nat, es: seq<Event>)
    requires Inv(ch, capacity) && IsRun(ch, capacity, es)
    ensures Inv(After(ch, capacity, es), capacity)
    decreases |es|
  {
    if es != [] {
      StepKeepsInv(ch, capacity, es[0]);
      RunsKeepInv(Next(ch, capacity, es[0]), capacity, es[1..]);
    }
  }

  // ----- what each step is for -----------------------------------------------------------

  /** What a drain does to one future: a queued waiter that is still pending fails, and nothing
      else changes. */
  lemma DrainIsExact(ch: Channel, f: FutureId)
    requires f in ch.futures
    ensures Drain(ch).queue == [] && f in Drain(ch).futures
    ensures Drain(ch).futures[f] == if ch.futures[f].Pending? && (exists i :: 0 <= i < |ch.queue| && ch.queue[i].future == f)
                                    then Failed else ch.futures[f]
  {
    FailItemsIsExact(ch.futures, ch.queue, f);
  }

  lemma {:induction false} FailItemsIsExact(futures: map<FutureId, FutureState>, items: seq<Item>, f: FutureId)
    requires f in futures
    ensures f in FailItems(futures, items)
    ensures FailItems(futures, items)[f] == if futures[f].Pending? && (exists i :: 0 <= i < |items| && items[i].future == f)
                                            then Failed else futures[f]
    decreases |items|
  {
    if items != [] {
      FailItemsIsExact(Complete(futures, items[0].future, Failed), items[1..], f);
      if i :| 0 <= i < |items| && items[i].future == f {
        assert i > 0 ==> items[1..][i - 1].future == f;
      }
    }
  }

  /** The stop of the node, and the end of the worker, fail the frame under way and every queued
      one, and nobody else. */
  lemma StopIsExact(ch: Channel, f: FutureId)
    requires f in ch.futures
    ensures var awaited := (ch.current.Some? && ch.current.value.future == f)
                           || exists i :: 0 <= i < |ch.queue| && ch.queue[i].future == f;
            && f in Stop(ch).futures && f in Drain(FailCurrent(ch)).futures
            && Stop(ch).futures[f] == (if ch.futures[f].Pending? && awaited then Failed else ch.futures[f])
            && Drain(FailCurrent(ch)).futures[f] == Stop(ch).futures[f]
    ensures Stop(ch).queue == [] && Stop(ch).current.None? && Stop(ch).worker.Stopped?
  {
    FailItemsIsExact(ch.futures, ch.queue, f);
    if ch.current.Some? { FailItemsIsExact(Complete(ch.futures, ch.current.value.future, Failed), ch.queue, f); }
  }

  /** Between two frames the worker goes on exactly while the node runs and the connection is open;
      then a waiting frame can be taken, and it is the oldest. */
  lemma WorkerGoesOnIff(ch: Channel, capacity: nat)
    requires ch.worker.NotStarted? && !ch.cancelRequested
    ensures Next(ch, capacity, WorkerStarts).worker.AtGet? <==> ch.running && !ch.closed
    ensures Next(ch, capacity, WorkerStarts).worker.Stopped? <==> !ch.running || ch.closed
    ensures ch.running && !ch.closed ==> Next(ch, capacity, WorkerStarts) == ch.(worker := AtGet)
  {
  }

  lemma WriteGoesOnIff(ch: Channel, capacity: nat)
    requires ch.worker.Sending? && ch.current.Some?
    ensures var ch' := Next(ch, capacity, SendReturns);
            && (ch'.worker.AtGet? <==> ch.running && !ch.closed) && (ch'.worker.Stopped? <==> !ch.running || ch.closed)
            && (ch'.worker.AtGet? ==> ch'.queue == ch.queue && ch'.current.None?)
  {
  }

  /** Taking a frame: the oldest queued one becomes current and is sent. */
  lemma GetTakesOldest(ch: Channel, capacity: nat)
    requires Enabled(ch, capacity, Gets)
    ensures var ch' := Next(ch, capacity, Gets);
            && ch'.current == Some(ch.queue[0]) && ch.queue == [ch.queue[0]] + ch'.queue
            && ch'.worker.Sending? && ch'.sent == ch.sent + [ch.queue[0]] && ch'.futures == ch.futures
  {
  }

  /** Admission, giving up, and a cancelled worker. */
  lemma WaiterSteps(ch: Channel, capacity: nat, item: Item, f: FutureId)
    requires Enabled(ch, capacity, Puts(item)) && f in ch.futures
    ensures var ch' := Next(ch, capacity, Puts(item));
            && ch'.queue == ch.queue + [item] && item.future in ch'.futures && ch'.futures[item.future].Pending?
            && ch'.futures[f] == ch.futures[f] && ch'.worker == ch.worker
    ensures var ch' := Next(ch, capacity, WaiterGivesUp(f));
            ch'.futures[f] == (if ch.futures[f].Pending? then Cancelled else ch.futures[f]) && ch'.queue == ch.queue
  {
  }

  lemma CancelledWorkerFailsEverybody(ch: Channel, capacity: nat, f: FutureId)
    requires Enabled(ch, capacity, WorkerCancelled) && !ch.worker.NotStarted? && f in ch.futures
    ensures var ch' := Next(ch, capacity, WorkerCancelled);
            && ch'.worker.Stopped? && ch'.queue == [] && ch'.current.None? && f in ch'.futures
            && (ch.worker.Sending? || ch.worker.ClosingAfterError? || ch.current.None? ==>
                  (ch'.futures[f] == if ch.futures[f].Pending?
                                        && ((ch.current.Some? && ch.current.value.future == f)
                                            || exists i :: 0 <= i < |ch.queue| && ch.queue[i].future == f)
                                     then Failed else ch.futures[f]))
  {
    StopIsExact(ch, f);
    if !ch.worker.AtGet? { StopIsExact(TaskDone(FailCurrent(ch)), f); }
  }

  /** A new channel is empty and open, and its worker may start waiting for frames. */
  lemma NewChannelIsIdle(capacity: nat)
    ensures Inv(Open(), capacity) && Open().running && !Open().closed && Open().queue == [] && Open().futures == map[]
    ensures Enabled(Open(), capacity, WorkerStarts) && Next(Open(), capacity, WorkerStarts).worker.AtGet?
  {
  }

  /** What ends a worker: a failed write closes the connection and then ends it, a requested
      cancellation may end it at any await, and one that never ran ends without looking at the queue. */
  lemma WorkerEnds(ch: Channel, capacity: nat, e: Event)
    requires Enabled(ch, capacity, e)
    ensures var ch' := Next(ch, capacity, e);
            && (e.SendRaises? ==>
                  ch'.closed && ch'.worker.ClosingAfterError? && ch'.queue == ch.queue && ch'.current == ch.current)
            && (e.ErrorCloseEnds? ==> ch'.worker.Stopped? && ch'.queue == [] && ch'.current.None?)
            && (e.CancelIsRequested? ==> ch' == ch.(cancelRequested := ch'.cancelRequested)
                                         && (ch.worker.Stopped? || Enabled(ch', capacity, WorkerCancelled)))
            && (e.WorkerCancelled? && ch.worker.NotStarted? ==>
                  ch'.worker.Stopped? && ch'.queue == ch.queue && ch'.futures == ch.futures)
            && (e.CloserDrains? ==> ch'.queue == [] && ch'.worker.Stopped?)
            && (e.ConnectionCloses? ==>
                  ch'.closed && ch'.worker == ch.worker && ch'.queue == ch.queue && ch'.futures == ch.futures)
  {
  }

  /** The stop of the node fails everybody, forbids further frames and asks the worker to end. */
  lemma NodeStopFailsEverybody(ch: Channel, capacity: nat, f: FutureId)
    requires Enabled(ch, capacity, NodeStops) && f in ch.futures
    ensures var ch' := Next(ch, capacity, NodeStops);
            && ch'.queue == [] && !ch'.running && ch'.cancelRequested && f in ch'.futures
            && ch'.futures[f] == if ch.futures[f].Pending?
                                    && ((ch.current.Some? && ch.current.value.future == f)
                                        || exists i :: 0 <= i < |ch.queue| && ch.queue[i].future == f)
                                 then Failed else ch.futures[f]
  {
    StopIsExact(ch, f);
    assert Next(ch, capacity, NodeStops).futures == Drain(FailCurrent(ch)).futures;
  }

  // ----- what the invariant means --------------------------------------------------------

  /** FIFO: what was passed to `send_frame` is a prefix of what was admitted, in order; the queue
      stays within its bound; each `get` is matched by one `task_done`, the one outstanding being
      the item under way. */
  lemma WriterIsFifo(capacity: nat, es: seq<Event>)
    requires IsRun(Open(), capacity, es)
    ensures var ch := After(Open(), capacity, es);
            && ch.sent <= ch.admitted && |ch.queue| <= capacity
            && ch.gets - ch.dones == (if ch.current.Some? then 1 else 0)
            && ch.unfinished == |ch.queue| + (if ch.current.Some? then 1 else 0)
            && (ch.worker.AtGet? || ch.worker.Stopped? ==> ch.current.None?)
  {
    RunsKeepInv(Open(), capacity, es);
    var ch := After(Open(), capacity, es);
    assert ch.admitted == ch.sent + (ch.drained + ch.queue);
  }

  /** A waiter is told its frame was written only after the write of that frame returned. */
  lemma SuccessMeansWritten(capacity: nat, es: seq<Event>, f: FutureId)
    requires IsRun(Open(), capacity, es)
    ensures var ch := After(Open(), capacity, es);
            f in ch.futures && ch.futures[f].Written? ==>
              f in ch.written && exists i :: 0 <= i < |ch.sent| && ch.sent[i].future == f
  {
    RunsKeepInv(Open(), capacity, es);
  }

  /** An item that has left the queue and is not under way has its future done. */
  lemma LeftMeansDone(ch: Channel, capacity: nat, i: nat)
    requires Inv(ch, capacity) && ch.current.None? && i < |ch.sent| + |ch.drained|
    ensures i < |ch.admitted| && IsDone(ch, ch.admitted[i])
  {
    if i < |ch.sent| { assert ch.admitted[i] == ch.sent[i]; }
    else { assert ch.admitted[i] == ch.drained[i - |ch.sent|]; }
  }

  /** Nobody is left waiting: every item admitted before the worker stopped has its future done. */
  lemma StoppedWriterLeavesNoWaiter(capacity: nat, es: seq<Event>, i: nat)
    requires IsRun(Open(), capacity, es)
    ensures var ch := After(Open(), capacity, es);
            ch.worker.Stopped? && i < ch.admittedAtStop ==> i < |ch.admitted| && IsDone(ch, ch.admitted[i])
  {
    RunsKeepInv(Open(), capacity, es);
    var ch := After(Open(), capacity, es);
    if ch.worker.Stopped? && i < ch.admittedAtStop { LeftMeansDone(ch, capacity, i); }
  }

  /** Exactly when the end of the worker finishes every admitted frame: always, but for a worker
      cancelled before it first ran while somebody still waits in the queue. */
  lemma StoppingFinishesEveryFrameIff(capacity: nat, es: seq<Event>, e: Event)
    requires IsRun(Open(), capacity, es) && !After(Open(), capacity, es).worker.Stopped?
    requires Enabled(After(Open(), capacity, es), capacity, e)
    requires Next(After(Open(), capacity, es), capacity, e).worker.Stopped?
    ensures var before := After(Open(), capacity, es); var ch := Next(before, capacity, e);
            (forall i | 0 <= i < |ch.admitted| :: IsDone(ch, ch.admitted[i])) <==>
            !(before.worker.NotStarted? && e.WorkerCancelled?
              && exists i :: 0 <= i < |before.queue| && !IsDone(before, before.queue[i]))
  {
    RunsKeepInv(Open(), capacity, es);
    var before := After(Open(), capacity, es);
    StepKeepsInv(before, capacity, e);
    var ch := Next(before, capacity, e);
    if before.worker.NotStarted? && e.WorkerCancelled? {
      QueueIsTail(before, capacity);
      forall i | 0 <= i < |ch.admitted| && i < |ch.sent| + |ch.drained| ensures IsDone(ch, ch.admitted[i]) {
        LeftMeansDone(ch, capacity, i);
      }
    } else {
      assert ch.queue == [] && |ch.admitted| == |ch.sent| + |ch.drained|;
      forall i | 0 <= i < |ch.admitted| ensures IsDone(ch, ch.admitted[i]) { LeftMeansDone(ch, capacity, i); }
    }
  }

  lemma QueueIsTail(ch: Channel, capacity: nat)
    requires Inv(ch, capacity)
    ensures |ch.admitted| == |ch.sent| + |ch.drained| + |ch.queue|
    ensures forall i | 0 <= i < |ch.queue| :: ch.admitted[|ch.sent| + |ch.drained| + i] == ch.queue[i]
    ensures forall i | |ch.sent| + |ch.drained| <= i < |ch.admitted| :: ch.admitted[i] == ch.queue[i - |ch.sent| - |ch.drained|]
  {
  }

  /** The same for everything admitted up to the drain of `_close_outbound_channel`. */
  lemma ClosedChannelLeavesNoWaiter(capacity: nat, es: seq<Event>, i: nat)
    requires IsRun(Open(), capacity, es) && Enabled(After(Open(), capacity, es), capacity, CloserDrains)
    ensures var ch := Next(After(Open(), capacity, es), capacity, CloserDrains);
            i < |ch.admitted| ==> IsDone(ch, ch.admitted[i])
  {
    RunsKeepInv(Open(), capacity, es);
    var before := After(Open(), capacity, es);
    StepKeepsInv(before, capacity, CloserDrains);
    var ch := Next(before, capacity, CloserDrains);
    assert ch.queue == [] && |ch.admitted| == |ch.sent| + |ch.drained|;
    if i < |ch.admitted| { LeftMeansDone(ch, capacity, i); }
  }

  /** `to` agrees with `from` on every future that is done in `from`. */
  ghost predicate KeepsDone(from: map<FutureId, FutureState>, to: map<FutureId, FutureState>) {
    forall f | f in from && !from[f].Pending? :: f in to && to[f] == from[f]
  }

  lemma StopKeepsDone(ch: Channel)
    ensures KeepsDone(ch.futures, Stop(ch).futures) && KeepsDone(ch.futures, Drain(ch).futures)
  {
    FailItemsCompletes(ch.futures, ch.queue);
    if ch.current.Some? {
      FailItemsCompletes(Complete(ch.futures, ch.current.value.future, Failed), ch.queue);
    }
  }

  lemma SendReturnKeepsDone(ch: Channel, capacity: nat)
    requires Enabled(ch, capacity, SendReturns)
    ensures KeepsDone(ch.futures, Next(ch, capacity, SendReturns).futures)
  {
    if ch.current.Some? {
      var f := ch.current.value.future;
      StopKeepsDone(TaskDone(ch.(futures := Complete(ch.futures, f, Written), written := ch.written + {f},
                                 cancelRequested := false)));
    }
  }

  lemma StepKeepsDone(ch: Channel, capacity: nat, e: Event)
    requires Enabled(ch, capacity, e)
    ensures KeepsDone(ch.futures, Next(ch, capacity, e).futures)
  {
    match e
    case SendReturns => SendReturnKeepsDone(ch, capacity);
    case WorkerStarts => StopKeepsDone(ch);
    case ErrorCloseEnds => StopKeepsDone(TaskDone(ch));
    case WorkerCancelled =>
      StopKeepsDone(ch);
      StopKeepsDone(TaskDone(FailCurrent(ch)));
    case NodeStops => StopKeepsDone(FailCurrent(ch));
    case CloserDrains => StopKeepsDone(ch);
    case _ =>
  }

  /** Each frame's future is completed at most once. */
  lemma {:induction false} CompletionsAreFinal(ch: Channel, capacity: nat, es: seq<Event>, f: FutureId)
    requires IsRun(ch, capacity, es) && f in ch.futures && !ch.futures[f].Pending?
    ensures f in After(ch, capacity, es).futures && After(ch, capacity, es).futures[f] == ch.futures[f]
    decreases |es|
  {
    if es != [] {
      StepKeepsDone(ch, capacity, es[0]);
      CompletionsAreFinal(Next(ch, capacity, es[0]), capacity, es[1..], f);
    }
  }

  function StateOf(ch: Channel, f: FutureId): Option<FutureState> {
    if f in ch.futures then Some(ch.futures[f]) else None
  }

  /** The waiter of the frame under way learns exactly how its write ended, unless it gave up. */
  lemma WriteOutcomeReachesWaiter(capacity: nat, es: seq<Event>)
    requires IsRun(Open(), capacity, es) && After(Open(), capacity, es).worker.Sending?
    ensures var ch := After(Open(), capacity, es);
            ch.current.Some? && ch.current.value.future in ch.futures &&
            var f := ch.current.value.future;
            (ch.futures[f].Pending? ==> StateOf(Next(ch, capacity, SendReturns), f) == Some(Written)
                                        && StateOf(Next(ch, capacity, SendRaises), f) == Some(Failed))
            && Next(ch, capacity, SendRaises).closed
  {
    RunsKeepInv(Open(), capacity, es);
    var ch := After(Open(), capacity, es);
    assert ch.admitted[|ch.sent| - 1] == ch.current.value;
    FailItemsCompletes(Complete(ch.futures, ch.current.value.future, Written), ch.queue);
  }
}

/** The queue, current frame and futures of `_OutboundChannel`, updated in place. */
module Writer {
  import opened Wrappers
  import W = WriterChannel

  class OutboundChannel {
    const capacity: nat
    var queue: seq<W.Item>
    var current: Option<W.Item>
    var futures: map<W.FutureId, W.FutureState>
    var unfinished: int

    constructor (capacity: nat)
      ensures this.capacity == capacity && queue == [] && current.None? && futures == map[] && unfinished == 0
    {
      this.capacity := capacity;
      queue, current, futures, unfinished := [], None, map[], 0;
    }

    /** `_queue_frame` with the REJECT policy. */
    method PutNoWait(item: W.Item) returns (accepted: bool)
      requires item.future !in futures
      modifies this
      ensures accepted <==> old(|queue|) < capacity
      ensures accepted ==> queue == old(queue) + [item] && unfinished == old(unfinished) + 1
                           && futures == old(futures)[item.future := W.Pending]
      ensures !accepted ==> queue == old(queue) && unfinished == old(unfinished) && futures == old(futures)
      ensures current == old(current)
    {
      accepted := |queue| < capacity;
      if accepted {
        queue := queue + [item];
        unfinished := unfinished + 1;
        futures := futures[item.future := W.Pending];
      }
    }

    method SetFutureError(f: W.FutureId)
      modifies this`futures
      ensures futures == W.Complete(old(futures), f, W.Failed)
    {
      if f in futures && futures[f].Pending? { futures := futures[f := W.Failed]; }
    }

    /** The loop that empties the queue with `get_nowait`. */
    method FailOutboundQueue()
      modifies this`queue, this`futures, this`unfinished
      ensures queue == [] && unfinished == old(unfinished) - |old(queue)|
      ensures futures == W.FailItems(old(futures), old(queue))
    {
      while queue != []
        invariant W.FailItems(futures, queue) == W.FailItems(old(futures), old(queue))
        invariant unfinished - |queue| == old(unfinished) - |old(queue)|
        decreases |queue|
      {
        var item := queue[0];
        queue := queue[1..];
        SetFutureError(item.future);
        unfinished := unfinished - 1;
      }
    }

    /** The worker's outer `finally`. */
    method StopWorker()
      modifies this
      ensures queue == [] && current.None? && unfinished == old(unfinished) - |old(queue)|
      ensures futures == W.FailItems(if old(current).Some?
                                     then W.Complete(old(futures), old(current).value.future, W.Failed)
                                     else old(futures), old(queue))
    {
      if current.Some? {
        SetFutureError(current.value.future);
        current := None;
      }
      FailOutboundQueue();
    }
  }
}
