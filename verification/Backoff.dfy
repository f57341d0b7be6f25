/** Reconnect backoff over the reals, and the loop that spends it. */
module Backoff {
  import opened Wrappers

  datatype Policy = Policy(
    initialDelay: real, multiplier: real, maximumDelay: real, jitter: real, maxAttempts: Option<int>)
  {
    /** What `__post_init__` demands. */
    predicate Valid() {
      && 0.0 < initialDelay <= maximumDelay
      && 1.0 <= multiplier
      && 0.0 <= jitter <= 1.0
      && (maxAttempts.Some? ==> 0 < maxAttempts.value)
    }
  }

  datatype Error = NegativeAttempt | SampleOutOfRange

  /** A product under a name of its own, so that proofs compare products as terms. */
  function Times(a: real, b: real): real {
    a * b
  }

  function Power(base: real, n: nat): real {
    if n == 0 then 1.0 else Times(base, Power(base, n - 1))
  }

  function Delay(p: Policy, attempt: nat): real {
    var unbounded := Times(Power(p.multiplier, attempt), p.initialDelay);
    if p.maximumDelay <= unbounded then p.maximumDelay else unbounded
  }

  /** The factor that a sample makes of the jitter fraction. */
  function Factor(jitter: real, sample: real): real {
    1.0 + Times(2.0 * sample - 1.0, jitter)
  }

  function Jittered(delay: real, jitter: real, sample: real): real {
    Times(Factor(jitter, sample), delay)
  }

  /** `delay_for_attempt`; the sample is not looked at without jitter. */
  function DelayForAttempt(p: Policy, attempt: int, sample: real): Result<real, Error> {
    if attempt < 0 then Err(NegativeAttempt)
    else if p.jitter == 0.0 then Ok(Delay(p, attempt))
    else if !(0.0 <= sample <= 1.0) then Err(SampleOutOfRange)
    else Ok(Jittered(Delay(p, attempt), p.jitter, sample))
  }

  /** Exactly which policies are refused, check by check. */
  lemma PolicyIsRefusedIff(p: Policy)
    ensures !p.Valid() <==>
            || p.initialDelay <= 0.0 || p.multiplier <= 0.0 || p.maximumDelay <= 0.0
            || p.multiplier < 1.0 || p.maximumDelay < p.initialDelay
            || p.jitter < 0.0 || 1.0 < p.jitter
            || (p.maxAttempts.Some? && p.maxAttempts.value <= 0)
  {
  }

  lemma Scale(a: real, b: real, c: real)
    requires a <= b && 0.0 <= c
    ensures Times(a, c) <= Times(b, c)
  {
    assert 0.0 <= (b - a) * c;
  }

  lemma ScaleStrictly(a: real, b: real, c: real)
    requires a < b && 0.0 < c
    ensures Times(a, c) < Times(b, c)
  {
    assert 0.0 < (b - a) * c;
  }

  lemma Grow(a: real, b: real, c: real)
    requires a <= b && 0.0 <= c
    ensures Times(c, a) <= Times(c, b)
  {
    assert 0.0 <= (b - a) * c;
  }

  lemma Units(a: real)
    ensures Times(1.0, a) == a && Times(0.0, a) == 0.0 && Times(-1.0, a) == -a
  {
  }

  lemma BernoulliStep(base: real, k: real, power: real)
    requires 1.0 <= base && 0.0 <= k && 1.0 + Times(k, base - 1.0) <= power
    ensures 1.0 + Times(k + 1.0, base - 1.0) <= Times(base, power)
  {
    var x, y := base - 1.0, Times(k, base - 1.0);
    Scale(0.0, k, x);
    Grow(1.0 + y, power, base);
    assert base * (1.0 + y) == 1.0 + x + y + x * y;
    assert 0.0 <= x * y;
    assert (k + 1.0) * x == k * x + x;
  }

  /** Bernoulli's inequality. */
  lemma {:induction false} Bernoulli(base: real, n: nat)
    requires 1.0 <= base
    ensures 1.0 + Times(n as real, base - 1.0) <= Power(base, n)
  {
    if n == 0 {
      Units(base - 1.0);
    } else {
      Bernoulli(base, n - 1);
      BernoulliStep(base, (n - 1) as real, Power(base, n - 1));
      assert n as real == (n - 1) as real + 1.0;
    }
  }

  lemma PowerGrows(base: real, n: nat)
    requires 1.0 <= base
    ensures 1.0 <= Power(base, n) <= Power(base, n + 1)
  {
    Bernoulli(base, n);
    Scale(0.0, n as real, base - 1.0);
    Units(base - 1.0);
    Scale(1.0, base, Power(base, n));
    Units(Power(base, n));
  }

  lemma DelayBounds(p: Policy, n: nat)
    requires p.Valid()
    ensures p.initialDelay <= Delay(p, n) <= p.maximumDelay
    ensures Delay(p, 0) == p.initialDelay
  {
    PowerGrows(p.multiplier, n);
    Scale(1.0, Power(p.multiplier, n), p.initialDelay);
    Units(p.initialDelay);
  }

  lemma DelayGrows(p: Policy, n: nat)
    requires p.Valid()
    ensures Delay(p, n) <= Delay(p, n + 1)
  {
    PowerGrows(p.multiplier, n);
    Scale(Power(p.multiplier, n), Power(p.multiplier, n + 1), p.initialDelay);
  }

  /** Later attempts never wait less, and a capped delay stays capped. */
  lemma {:induction false} DelayIsMonotone(p: Policy, i: nat, j: nat)
    requires p.Valid() && i <= j
    ensures Delay(p, i) <= Delay(p, j)
    ensures Delay(p, i) == p.maximumDelay ==> Delay(p, j) == p.maximumDelay
    decreases j - i
  {
    DelayBounds(p, j);
    if i < j {
      DelayIsMonotone(p, i, j - 1);
      DelayGrows(p, j - 1);
    }
  }

  /** The delay starts at the initial one, and each failed attempt multiplies it, up to the maximum. */
  lemma DelayGrowsByMultiplier(p: Policy, n: nat)
    requires p.Valid()
    ensures Delay(p, 0) == p.initialDelay
    ensures Delay(p, n + 1) == if p.maximumDelay <= Times(p.multiplier, Delay(p, n)) then p.maximumDelay
                               else Times(p.multiplier, Delay(p, n))
  {
    DelayBounds(p, n);
    Regroup(p.multiplier, Power(p.multiplier, n), p.initialDelay);
    var unbounded := Times(Power(p.multiplier, n), p.initialDelay);
    if p.maximumDelay <= unbounded {
      Scale(1.0, p.multiplier, unbounded);
      Scale(1.0, p.multiplier, p.maximumDelay);
      Units(unbounded);
      Units(p.maximumDelay);
    }
  }

  lemma Regroup(a: real, b: real, c: real)
    ensures Times(Times(a, b), c) == Times(a, Times(b, c))
  {
  }

  lemma Quotient(a: real, b: real)
    requires b != 0.0
    ensures Times(a / b, b) == a
  {
  }

  /** From this attempt on the delay is the maximum: an explicit bound, not just eventually. */
  lemma DelayIsEventuallyMaximal(p: Policy, n: nat)
    requires p.Valid() && 1.0 < p.multiplier
    requires (p.maximumDelay / p.initialDelay - 1.0) / (p.multiplier - 1.0) <= n as real
    ensures Delay(p, n) == p.maximumDelay
  {
    var x, q := p.multiplier - 1.0, p.maximumDelay / p.initialDelay;
    Scale((q - 1.0) / x, n as real, x);
    Quotient(q - 1.0, x);
    Bernoulli(p.multiplier, n);
    Scale(q, Power(p.multiplier, n), p.initialDelay);
    Quotient(p.maximumDelay, p.initialDelay);
  }

  lemma FactorBounds(jitter: real, sample: real)
    requires 0.0 <= jitter <= 1.0 && 0.0 <= sample <= 1.0
    ensures 0.0 <= 1.0 - jitter <= Factor(jitter, sample) <= 1.0 + jitter
    ensures Factor(jitter, sample) > 1.0 <==> jitter > 0.0 && sample > 0.5
  {
    var swing := 2.0 * sample - 1.0;
    Units(jitter);
    Scale(-1.0, swing, jitter);
    Scale(swing, 1.0, jitter);
    if sample <= 0.5 {
      Scale(swing, 0.0, jitter);
    } else if jitter > 0.0 {
      ScaleStrictly(0.0, swing, jitter);
    }
  }

  lemma JitteredBounds(delay: real, jitter: real, sample: real)
    requires 0.0 <= jitter <= 1.0 && 0.0 <= sample <= 1.0 && 0.0 < delay
    ensures 0.0 <= Times(1.0 - jitter, delay) <= Jittered(delay, jitter, sample) <= Times(1.0 + jitter, delay)
    ensures Jittered(delay, jitter, sample) > delay <==> jitter > 0.0 && sample > 0.5
    ensures jitter == 0.0 ==> Times(1.0 - jitter, delay) == delay == Times(1.0 + jitter, delay)
  {
    FactorBounds(jitter, sample);
    Units(delay);
    Scale(0.0, 1.0 - jitter, delay);
    Scale(1.0 - jitter, Factor(jitter, sample), delay);
    Scale(Factor(jitter, sample), 1.0 + jitter, delay);
    if Factor(jitter, sample) > 1.0 {
      ScaleStrictly(1.0, Factor(jitter, sample), delay);
    } else {
      Scale(Factor(jitter, sample), 1.0, delay);
    }
  }

  /** A refused call is one for a negative attempt or a sample that jitter cannot use; any other
      moves the delay within the factors one minus and one plus the jitter. */
  lemma JitterStaysWithinItsFactor(p: Policy, attempt: int, sample: real)
    requires p.Valid()
    ensures DelayForAttempt(p, attempt, sample).Ok? <==>
            0 <= attempt && (0.0 <= sample <= 1.0 || p.jitter == 0.0)
    ensures DelayForAttempt(p, attempt, sample).Ok? ==>
              && 0.0 <= Times(1.0 - p.jitter, Delay(p, attempt)) <= DelayForAttempt(p, attempt, sample).value
              && DelayForAttempt(p, attempt, sample).value <= Times(1.0 + p.jitter, Delay(p, attempt))
              && Times(1.0 + p.jitter, Delay(p, attempt)) <= Times(1.0 + p.jitter, p.maximumDelay)
  {
    if DelayForAttempt(p, attempt, sample).Ok? {
      DelayBounds(p, attempt);
      Grow(Delay(p, attempt), p.maximumDelay, 1.0 + p.jitter);
      JitteredBounds(Delay(p, attempt), p.jitter, if p.jitter == 0.0 then 0.5 else sample);
    }
  }

  /** The sample that makes a given delay of the interval. */
  function SampleFor(jitter: real, delay: real, actual: real): real
    requires jitter != 0.0 && delay != 0.0
  {
    ((actual / delay - 1.0) / jitter + 1.0) / 2.0
  }

  lemma SampleHits(jitter: real, delay: real, actual: real)
    requires 0.0 < jitter <= 1.0 && 0.0 < delay
    requires Times(1.0 - jitter, delay) <= actual <= Times(1.0 + jitter, delay)
    ensures 0.0 <= SampleFor(jitter, delay, actual) <= 1.0
    ensures Jittered(delay, jitter, SampleFor(jitter, delay, actual)) == actual
  {
    var ratio := actual / delay;
    Quotient(actual, delay);
    if ratio < 1.0 - jitter { ScaleStrictly(ratio, 1.0 - jitter, delay); }
    if ratio > 1.0 + jitter { ScaleStrictly(1.0 + jitter, ratio, delay); }
    var swing := (ratio - 1.0) / jitter;
    Quotient(ratio - 1.0, jitter);
    Units(jitter);
    if swing < -1.0 { ScaleStrictly(swing, -1.0, jitter); }
    if swing > 1.0 { ScaleStrictly(1.0, swing, jitter); }
    assert 2.0 * SampleFor(jitter, delay, actual) - 1.0 == swing;
  }

  /** Exactly the delays that jitter can produce: the whole interval between the two factors. */
  lemma JitterSpansItsInterval(p: Policy, attempt: nat, actual: real)
    requires p.Valid()
    ensures (exists sample :: 0.0 <= sample <= 1.0 && DelayForAttempt(p, attempt, sample) == Ok(actual)) <==>
            Times(1.0 - p.jitter, Delay(p, attempt)) <= actual <= Times(1.0 + p.jitter, Delay(p, attempt))
  {
    var d := Delay(p, attempt);
    DelayBounds(p, attempt);
    forall sample | 0.0 <= sample <= 1.0 && DelayForAttempt(p, attempt, sample) == Ok(actual)
      ensures Times(1.0 - p.jitter, d) <= actual <= Times(1.0 + p.jitter, d)
    {
      JitterStaysWithinItsFactor(p, attempt, sample);
    }
    if Times(1.0 - p.jitter, d) <= actual <= Times(1.0 + p.jitter, d) {
      if p.jitter == 0.0 {
        Units(d);
        assert DelayForAttempt(p, attempt, 0.0) == Ok(actual);
      } else {
        SampleHits(p.jitter, d, actual);
        assert DelayForAttempt(p, attempt, SampleFor(p.jitter, d, actual)) == Ok(actual);
      }
    }
  }

  // ----- the documented maximum ----------------------------------------------------------

  /** `maximum_delay` is documented as the maximum delay between attempts. */
  ghost predicate HonoursMaximum(p: Policy)
    requires p.Valid()
  {
    forall attempt: nat, sample: real | 0.0 <= sample <= 1.0 :: Within(p, attempt, sample)
  }

  predicate Within(p: Policy, attempt: nat, sample: real)
    requires p.Valid() && 0.0 <= sample <= 1.0
  {
    DelayForAttempt(p, attempt, sample).value <= p.maximumDelay
  }

  lemma {:induction false} ConstantPower(n: nat)
    ensures Power(1.0, n) == 1.0
  {
    if n > 0 {
      ConstantPower(n - 1);
      Units(Power(1.0, n - 1));
    }
  }

  /** With the full sample, jitter stretches a delay by the whole fraction. */
  lemma FullSample(p: Policy, attempt: nat)
    requires p.Valid() && p.jitter > 0.0
    ensures DelayForAttempt(p, attempt, 1.0) == Ok(Times(1.0 + p.jitter, Delay(p, attempt)))
  {
    Units(p.jitter);
  }

  lemma ReachMaximum(p: Policy) returns (n: nat)
    requires p.Valid() && 1.0 < p.multiplier
    ensures Delay(p, n) == p.maximumDelay
  {
    var bound := (p.maximumDelay / p.initialDelay - 1.0) / (p.multiplier - 1.0);
    n := if bound <= 0.0 then 0 else bound.Floor + 1;
    DelayIsEventuallyMaximal(p, n);
  }

  /** Jitter is applied after the cap, so the promise holds exactly for policies without jitter,
      and for constant ones whose only delay leaves room for the whole jitter. */
  lemma MaximumIsHonouredIff(p: Policy)
    requires p.Valid()
    ensures HonoursMaximum(p) <==>
            p.jitter == 0.0 || (p.multiplier == 1.0 && Times(1.0 + p.jitter, p.initialDelay) <= p.maximumDelay)
  {
    if p.jitter > 0.0 {
      if p.multiplier > 1.0 {
        var n := ReachMaximum(p);
        FullSample(p, n);
        Units(p.maximumDelay);
        ScaleStrictly(1.0, 1.0 + p.jitter, p.maximumDelay);
        assert !Within(p, n, 1.0);
      } else {
        ConstantDelays(p);
      }
    } else {
      forall attempt: nat, sample: real | 0.0 <= sample <= 1.0 ensures Within(p, attempt, sample) {
        DelayBounds(p, attempt);
      }
    }
  }

  lemma ConstantDelays(p: Policy)
    requires p.Valid() && p.jitter > 0.0 && p.multiplier == 1.0
    ensures HonoursMaximum(p) <==> Times(1.0 + p.jitter, p.initialDelay) <= p.maximumDelay
  {
    Units(p.initialDelay);
    forall attempt: nat ensures Delay(p, attempt) == p.initialDelay { ConstantPower(attempt); }
    FullSample(p, 0);
    assert Within(p, 0, 1.0) <==> Times(1.0 + p.jitter, p.initialDelay) <= p.maximumDelay;
    forall attempt: nat, sample: real | 0.0 <= sample <= 1.0
      ensures DelayForAttempt(p, attempt, sample).value <= Times(1.0 + p.jitter, p.initialDelay)
    {
      JitterStaysWithinItsFactor(p, attempt, sample);
    }
  }

  /** A policy that breaks the promise although its delay is below the maximum. */
  lemma FortyExceedsThirty()
    ensures var p := Policy(20.0, 1.0, 30.0, 1.0, None);
            p.Valid() && Delay(p, 0) == 20.0 && DelayForAttempt(p, 0, 1.0) == Ok(40.0) && !HonoursMaximum(p)
  {
    var p := Policy(20.0, 1.0, 30.0, 1.0, None);
    Units(20.0);
    FullSample(p, 0);
    assert !Within(p, 0, 1.0);
  }

  /** Sample by sample at the cap: only the upper half of the samples exceeds it. */
  lemma JitterMayExceedTheMaximum(p: Policy, attempt: nat, sample: real)
    requires p.Valid() && 0.0 <= sample <= 1.0 && Delay(p, attempt) == p.maximumDelay
    ensures DelayForAttempt(p, attempt, sample).value > p.maximumDelay <==> p.jitter > 0.0 && sample > 0.5
  {
    JitteredBounds(p.maximumDelay, p.jitter, sample);
  }

  /* ---- `_reconnect_loop` ---- */

  type Sample = r: real | 0.0 <= r < 1.0

  datatype Wake = Ready | NoLongerWanted | SleepCancelled
  datatype Attempt = Reached | Refused | ConnectCancelled

  /** What one turn of the loop meets: is the node running and the peer not suppressed, is its
      discovery observation present and in its TTL, the random sample, what the sleep ends
      with, and how the connect ends. */
  datatype Turn = Turn(wanted: bool, known: bool, sample: Sample, wake: Wake, attempt: Attempt)

  datatype Action = MarkReconnecting | Sleep(delay: real) | Connect | MarkDisconnected

  /** How a loop ended; `Running` when the turns given so far did not end it. */
  datatype Exit = Exhausted | Unwanted | Stale | Interrupted | Aborted | Connected | Running

  predicate Spent(p: Policy, attempts: nat) {
    p.maxAttempts.Some? && p.maxAttempts.value <= attempts
  }

  /** The sleep of attempt `n`; samples drawn from `random()` are never refused. */
  function Nap(p: Policy, n: nat, sample: Sample): real
    requires p.Valid()
  {
    DelayForAttempt(p, n, sample).value
  }

  /** How the head of turn `t` ends the loop, if it does. */
  function Head(p: Policy, t: Turn, n: nat): Option<Exit> {
    if !t.wanted then Some(Unwanted)
    else if Spent(p, n) then Some(Exhausted)
    else if !t.known then Some(Stale)
    else None
  }

  function Tail(t: Turn): Option<Exit> {
    match t.wake
    case NoLongerWanted => Some(Interrupted)
    case SleepCancelled => Some(Aborted)
    case Ready =>
      match t.attempt
      case Reached => Some(Connected)
      case ConnectCancelled => Some(Aborted)
      case Refused => None
  }

  /** The first `n` turns reach turn `n`: each passes its head and only fails to connect. */
  predicate Reaches(p: Policy, turns: seq<Turn>, n: nat) {
    n <= |turns| && forall i | 0 <= i < n :: Head(p, turns[i], i).None? && Tail(turns[i]).None?
  }

  /** One failed attempt per turn: mark, sleep that attempt's delay, connect. */
  function Failures(p: Policy, turns: seq<Turn>, n: nat): seq<Action>
    requires p.Valid() && n <= |turns|
  {
    if n == 0 then []
    else Failures(p, turns, n - 1) + [MarkReconnecting, Sleep(Nap(p, n - 1, turns[n - 1].sample)), Connect]
  }

  /** What a loop that ends in turn `n` does in that turn. */
  function Ending(p: Policy, turns: seq<Turn>, n: nat, exit: Exit): seq<Action>
    requires p.Valid() && n <= |turns|
  {
    if exit.Running? then []
    else if exit.Exhausted? || exit.Unwanted? || exit.Stale? || n == |turns| then [MarkDisconnected]
    else
      [MarkReconnecting, Sleep(Nap(p, n, turns[n].sample))] + (if turns[n].wake.Ready? then [Connect] else [])
  }

  /** The exit that turn `n` forces, when the loop gets there. */
  function ExitAt(p: Policy, turns: seq<Turn>, n: nat): Exit {
    if n >= |turns| then Running
    else Head(p, turns[n], n).GetOr(Tail(turns[n]).GetOr(Running))
  }

  /** The loop gets to turn `n`, and turn `n` ends it unless the turns have run out. */
  predicate EndsAt(p: Policy, turns: seq<Turn>, n: nat) {
    Reaches(p, turns, n) && (ExitAt(p, turns, n).Running? <==> n == |turns|)
  }

  /** Everything a loop that ends in turn `n` does. */
  function Trace(p: Policy, turns: seq<Turn>, n: nat): seq<Action>
    requires p.Valid() && n <= |turns|
  {
    Failures(p, turns, n) + Ending(p, turns, n, ExitAt(p, turns, n))
  }

  /* ---- What a run of the loop amounts to ---- */

  function Connects(trace: seq<Action>): nat {
    if trace == [] then 0 else Connects(trace[..|trace| - 1]) + (if trace[|trace| - 1].Connect? then 1 else 0)
  }

  function Slept(trace: seq<Action>): real {
    if trace == [] then 0.0
    else Slept(trace[..|trace| - 1]) + (if trace[|trace| - 1].Sleep? then trace[|trace| - 1].delay else 0.0)
  }

  /** The state the loop itself last asked the manager for. */
  function LastMark(trace: seq<Action>): Option<Action> {
    if trace == [] then None
    else
      var last := trace[|trace| - 1];
      if last.MarkReconnecting? || last.MarkDisconnected? then Some(last) else LastMark(trace[..|trace| - 1])
  }

  lemma Snoc(trace: seq<Action>, a: Action)
    ensures Connects(trace + [a]) == Connects(trace) + (if a.Connect? then 1 else 0)
    ensures Slept(trace + [a]) == Slept(trace) + (if a.Sleep? then a.delay else 0.0)
    ensures LastMark(trace + [a]) == if a.MarkReconnecting? || a.MarkDisconnected? then Some(a) else LastMark(trace)
  {
    assert (trace + [a])[..|trace|] == trace;
  }

  /** One turn: a mark, a sleep, and perhaps a connect. */
  lemma SnocTurn(trace: seq<Action>, nap: real, connect: bool)
    ensures var more := trace + ([MarkReconnecting, Sleep(nap)] + if connect then [Connect] else []);
            && Connects(more) == Connects(trace) + (if connect then 1 else 0)
            && Slept(more) == Slept(trace) + nap
            && LastMark(more) == Some(MarkReconnecting)
  {
    var one := trace + [MarkReconnecting];
    var two := one + [Sleep(nap)];
    Snoc(trace, MarkReconnecting);
    Snoc(one, Sleep(nap));
    Snoc(two, Connect);
    assert two == trace + ([MarkReconnecting, Sleep(nap)] + []);
    assert two + [Connect] == trace + ([MarkReconnecting, Sleep(nap)] + [Connect]);
  }

  /** `most` is at least the maximum delay stretched by the whole jitter. */
  predicate CoversJitter(p: Policy, most: real) {
    Times(1.0 + p.jitter, p.maximumDelay) <= most
  }

  lemma NapBounds(p: Policy, n: nat, sample: Sample, most: real)
    requires p.Valid() && CoversJitter(p, most)
    ensures 0.0 <= Nap(p, n, sample) <= most
  {
    JitterStaysWithinItsFactor(p, n, sample);
  }

  lemma OneMore(a: real, b: real, most: real)
    requires 0.0 <= most && a + 1.0 <= b
    ensures Times(a, most) + most <= Times(b, most)
  {
    Scale(a + 1.0, b, most);
    assert (a + 1.0) * most == a * most + most;
  }

  lemma FailuresUnfold(p: Policy, turns: seq<Turn>, n: nat)
    requires p.Valid() && 0 < n <= |turns|
    ensures var before, nap := Failures(p, turns, n - 1), Nap(p, n - 1, turns[n - 1].sample);
            && Connects(Failures(p, turns, n)) == Connects(before) + 1
            && Slept(Failures(p, turns, n)) == Slept(before) + nap
  {
    var before, nap := Failures(p, turns, n - 1), Nap(p, n - 1, turns[n - 1].sample);
    SnocTurn(before, nap, true);
    assert [MarkReconnecting, Sleep(nap)] + [Connect] == [MarkReconnecting, Sleep(nap), Connect];
  }

  lemma {:induction false} FailuresConnect(p: Policy, turns: seq<Turn>, n: nat)
    requires p.Valid() && n <= |turns|
    ensures Connects(Failures(p, turns, n)) == n
  {
    if n > 0 {
      FailuresConnect(p, turns, n - 1);
      FailuresUnfold(p, turns, n);
    }
  }

  lemma {:induction false} FailuresSleep(p: Policy, turns: seq<Turn>, n: nat, most: real)
    requires p.Valid() && n <= |turns| && CoversJitter(p, most)
    ensures 0.0 <= Slept(Failures(p, turns, n)) <= Times(n as real, most)
  {
    Units(most);
    if n > 0 {
      FailuresSleep(p, turns, n - 1, most);
      FailuresUnfold(p, turns, n);
      NapBounds(p, n - 1, turns[n - 1].sample, most);
      OneMore((n - 1) as real, n as real, most);
    }
  }

  /** The turn that ends a loop is unique, so its result is a function of the policy and turns. */
  lemma LoopIsDetermined(p: Policy, turns: seq<Turn>, m: nat, n: nat)
    requires EndsAt(p, turns, m) && EndsAt(p, turns, n)
    ensures m == n
  {
  }

  /** Whether the turn that ends the loop still gets to call connect. */
  predicate ConnectsLast(turns: seq<Turn>, n: nat, exit: Exit)
    requires n <= |turns|
  {
    exit.Connected? || (exit.Aborted? && n < |turns| && turns[n].wake.Ready?)
  }

  lemma EndingCost(p: Policy, turns: seq<Turn>, n: nat, before: seq<Action>)
    requires p.Valid() && Reaches(p, turns, n)
    ensures var exit := ExitAt(p, turns, n);
            Connects(before + Ending(p, turns, n, exit))
            == Connects(before) + (if ConnectsLast(turns, n, exit) then 1 else 0)
    ensures var exit := ExitAt(p, turns, n);
            Slept(before + Ending(p, turns, n, exit)) == Slept(before) +
            (if n == |turns| || Head(p, turns[n], n).Some? || exit.Running? then 0.0 else Nap(p, n, turns[n].sample))
    ensures var exit := ExitAt(p, turns, n);
            (!exit.Running? ==>
               LastMark(before + Ending(p, turns, n, exit))
               == Some(if exit.Exhausted? || exit.Unwanted? || exit.Stale? then MarkDisconnected else MarkReconnecting))
  {
    var exit := ExitAt(p, turns, n);
    if exit.Running? {
      assert before + Ending(p, turns, n, exit) == before;
    } else if Head(p, turns[n], n).Some? {
      Snoc(before, MarkDisconnected);
    } else {
      SnocTurn(before, Nap(p, n, turns[n].sample), turns[n].wake.Ready?);
    }
  }

  lemma AttemptsStayWithinTheLimit(p: Policy, turns: seq<Turn>, n: nat)
    requires p.Valid() && p.maxAttempts.Some? && Reaches(p, turns, n)
    ensures n <= p.maxAttempts.value
    ensures n < |turns| && Head(p, turns[n], n).None? ==> n < p.maxAttempts.value
  {
    if n > 0 {
      assert Head(p, turns[n - 1], n - 1).None?;
    }
  }

  lemma Budget(n: nat, limit: nat, most: real, failed: real, total: real)
    requires 0.0 <= most && failed <= Times(n as real, most) && n <= limit
    requires total <= failed + (if n < limit then most else 0.0)
    ensures total <= Times(limit as real, most)
  {
    if n < limit {
      OneMore(n as real, limit as real, most);
    }
  }

  /** What the loop does for its `i`-th failed attempt: mark, sleep the delay the policy gives for
      that very attempt, connect. */
  lemma {:induction false} AttemptsFollowPolicy(p: Policy, turns: seq<Turn>, n: nat, i: nat)
    requires p.Valid() && i < n <= |turns|
    ensures |Failures(p, turns, n)| == 3 * n
    ensures Failures(p, turns, n)[3 * i] == MarkReconnecting && Failures(p, turns, n)[3 * i + 2] == Connect
    ensures Failures(p, turns, n)[3 * i + 1].Sleep?
            && DelayForAttempt(p, i, turns[i].sample) == Ok(Failures(p, turns, n)[3 * i + 1].delay)
    decreases n
  {
    FailuresLength(p, turns, n - 1);
    JitterStaysWithinItsFactor(p, i, turns[i].sample);
    if i < n - 1 { AttemptsFollowPolicy(p, turns, n - 1, i); }
  }

  lemma {:induction false} FailuresLength(p: Policy, turns: seq<Turn>, n: nat)
    requires p.Valid() && n <= |turns|
    ensures |Failures(p, turns, n)| == 3 * n
  {
    if n > 0 { FailuresLength(p, turns, n - 1); }
  }

  /** Exactly which turn ends the loop and why: the head asks whether the peer is still wanted, then
      for attempts left, then for a fresh observation; then sleep and connect decide. */
  lemma ExitsAreExact(p: Policy, turns: seq<Turn>, n: nat)
    requires n < |turns|
    ensures var t := turns[n]; var exit := ExitAt(p, turns, n);
            var spent := p.maxAttempts.Some? && p.maxAttempts.value <= n;
            && (exit.Unwanted? <==> !t.wanted)
            && (exit.Exhausted? <==> t.wanted && spent)
            && (exit.Stale? <==> t.wanted && !spent && !t.known)
            && (exit.Interrupted? <==> t.wanted && !spent && t.known && t.wake.NoLongerWanted?)
            && (exit.Aborted? <==> t.wanted && !spent && t.known
                                   && (t.wake.SleepCancelled? || (t.wake.Ready? && t.attempt.ConnectCancelled?)))
            && (exit.Connected? <==> t.wanted && !spent && t.known && t.wake.Ready? && t.attempt.Reached?)
            && (exit.Running? <==> t.wanted && !spent && t.known && t.wake.Ready? && t.attempt.Refused?)
  {
  }

  /** What the ending turn does: one mark when the head ends it, otherwise a mark, the policy's
      sleep for this attempt, and a connect exactly when the sleep was left undisturbed. */
  lemma EndingsAreExact(p: Policy, turns: seq<Turn>, n: nat)
    requires p.Valid() && n < |turns| && !ExitAt(p, turns, n).Running?
    ensures var exit := ExitAt(p, turns, n); var ending := Ending(p, turns, n, exit);
            if exit.Exhausted? || exit.Unwanted? || exit.Stale? then ending == [MarkDisconnected]
            else |ending| == (if turns[n].wake.Ready? then 3 else 2) && ending[0] == MarkReconnecting && ending[1].Sleep?
                 && DelayForAttempt(p, n, turns[n].sample) == Ok(ending[1].delay)
                 && (turns[n].wake.Ready? ==> ending[2] == Connect)
  {
    JitterStaysWithinItsFactor(p, n, turns[n].sample);
  }

  /** With a finite limit, no run connects more often than the limit or sleeps longer than the
      limit times the largest jittered delay. */
  lemma ReconnectIsBounded(p: Policy, turns: seq<Turn>, n: nat, most: real)
    requires p.Valid() && p.maxAttempts.Some? && Reaches(p, turns, n)
    requires most == Times(1.0 + p.jitter, p.maximumDelay)
    ensures Connects(Trace(p, turns, n)) <= p.maxAttempts.value
    ensures Slept(Trace(p, turns, n))
         <= Times(p.maxAttempts.value as real, most)
  {
    var failures := Failures(p, turns, n);
    NapBounds(p, n, if n < |turns| then turns[n].sample else 0.0, most);
    AttemptsStayWithinTheLimit(p, turns, n);
    FailuresConnect(p, turns, n);
    FailuresSleep(p, turns, n, most);
    EndingCost(p, turns, n, failures);
    Budget(n, p.maxAttempts.value, most, Slept(failures),
           Slept(failures + Ending(p, turns, n, ExitAt(p, turns, n))));
  }

  /** A loop whose every attempt is refused gives up after exactly `max_attempts` connects, and
      without a limit such a loop never ends by itself. */
  lemma RefusedLoopSpendsEveryAttempt(p: Policy, turns: seq<Turn>, n: nat)
    requires p.Valid() && EndsAt(p, turns, n)
    requires forall t | t in turns :: t.wanted && t.known && t.wake.Ready? && t.attempt.Refused?
    ensures var trace := Trace(p, turns, n);
            && Connects(trace) == (if p.maxAttempts.Some? && p.maxAttempts.value < |turns| then p.maxAttempts.value else |turns|)
            && (ExitAt(p, turns, n).Exhausted? <==> p.maxAttempts.Some? && p.maxAttempts.value < |turns|)
  {
    FailuresConnect(p, turns, n);
    EndingCost(p, turns, n, Failures(p, turns, n));
    if p.maxAttempts.Some? {
      AttemptsStayWithinTheLimit(p, turns, n);
    }
    if n < |turns| {
      assert turns[n] in turns;
    }
  }

  /** The mark a finished loop leaves behind: the exits after the sleep leave RECONNECTING to
      whoever stopped the node, suppressed the peer or cancelled the task. */
  lemma OnlyHeadExitsMarkDisconnected(p: Policy, turns: seq<Turn>, n: nat)
    requires p.Valid() && Reaches(p, turns, n) && n < |turns| && !ExitAt(p, turns, n).Running?
    ensures LastMark(Trace(p, turns, n)) == Some(MarkDisconnected)
            <==> !turns[n].wanted || !turns[n].known || Spent(p, n)
  {
    EndingCost(p, turns, n, Failures(p, turns, n));
  }

  // ----- the loop itself -----------------------------------------------------------------

  /** `_reconnect_loop` against scripted turns: the one turn that ends it, why, and all it did;
      under a limit it stays within that many connects and that many longest sleeps. */
  method ReconnectLoop(p: Policy, turns: seq<Turn>) returns (trace: seq<Action>, attempt: nat, exit: Exit)
    requires p.Valid()
    ensures EndsAt(p, turns, attempt) && forall n | EndsAt(p, turns, n) :: n == attempt
    ensures exit == ExitAt(p, turns, attempt) && trace == Trace(p, turns, attempt)
    ensures p.maxAttempts.Some? ==>
              && Connects(trace) <= p.maxAttempts.value
              && Slept(trace) <= Times(p.maxAttempts.value as real, Times(1.0 + p.jitter, p.maximumDelay))
    ensures !exit.Running? ==>
              (LastMark(trace) == Some(MarkDisconnected) <==> exit.Exhausted? || exit.Unwanted? || exit.Stale?)
  {
    trace, attempt, exit := RunLoop(p, turns);
    forall n | EndsAt(p, turns, n) ensures n == attempt { LoopIsDetermined(p, turns, n, attempt); }
    if p.maxAttempts.Some? {
      ReconnectIsBounded(p, turns, attempt, Times(1.0 + p.jitter, p.maximumDelay));
    }
    EndingCost(p, turns, attempt, Failures(p, turns, attempt));
  }

  method RunLoop(p: Policy, turns: seq<Turn>) returns (trace: seq<Action>, attempt: nat, exit: Exit)
    requires p.Valid()
    ensures EndsAt(p, turns, attempt) && exit == ExitAt(p, turns, attempt) && trace == Trace(p, turns, attempt)
  {
    trace, attempt := [], 0;
    while attempt < |turns| && turns[attempt].wanted
      invariant attempt <= |turns| && Reaches(p, turns, attempt)
      invariant trace == Failures(p, turns, attempt)
    {
      var turn := turns[attempt];
      if p.maxAttempts.Some? && attempt >= p.maxAttempts.value {
        return trace + [MarkDisconnected], attempt, Exhausted;
      }
      if !turn.known {
        return trace + [MarkDisconnected], attempt, Stale;
      }
      ghost var before := trace;
      trace := trace + [MarkReconnecting];
      trace := trace + [Sleep(Nap(p, attempt, turn.sample))];
      assert trace == before + [MarkReconnecting, Sleep(Nap(p, attempt, turn.sample))];
      if turn.wake != Ready {
        return trace, attempt, if turn.wake.NoLongerWanted? then Interrupted else Aborted;
      }
      trace := trace + [Connect];
      assert trace == before + [MarkReconnecting, Sleep(Nap(p, attempt, turn.sample)), Connect];
      if !turn.attempt.Refused? {
        return trace, attempt, if turn.attempt.Reached? then Connected else Aborted;
      }
      attempt := attempt + 1;
    }
    if attempt == |turns| {
      return trace, attempt, Running;
    }
    return trace + [MarkDisconnected], attempt, Unwanted;
  }
}
