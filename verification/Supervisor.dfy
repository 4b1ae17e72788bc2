/** Supervision (supervisor.go): the restart state machine, its budget, exponential backoff and the
    decaying failure score. Durations and instants are whole nanoseconds; float64 is idealised to
    real. */
module Supervisor {
  import opened Bytes
  import opened Outcomes

  // ---- Powers ----

  function Pow(f: real, n: nat): real { if n == 0 then 1.0 else f * Pow(f, n - 1) }

  datatype Float = Finite(x: real) | Infinite(negative: bool) | NotANumber

  /** What is used of x => 0.5^x, which overflows for very negative x. */
  ghost predicate Halving(half: real -> Float) {
    && half(0.0) == Finite(1.0) && half(1.0) == Finite(0.5)
    && (forall x :: 0.0 <= x ==> half(x).Finite? && half(x).x > 0.0)
    && (forall x, y :: 0.0 <= x <= y ==> half(x).Finite? && half(y).Finite? && half(y).x <= half(x).x)
  }

  function Hyperbola(x: real): Float { if x >= 0.0 then Finite(1.0 / (1.0 + x)) else Infinite(false) }

  /** The assumptions are consistent: 0.5^x is not the only function that meets them. */
  lemma HalvingIsConsistent()
    ensures Halving(Hyperbola)
  {
    forall x, y | 0.0 <= x <= y ensures Hyperbola(y).x <= Hyperbola(x).x {
      Inverses(1.0 + x, 1.0 + y);
    }
    forall x | 0.0 <= x ensures Hyperbola(x).x > 0.0 {
      Inverses(1.0 + x, 1.0 + x);
    }
  }

  lemma Inverses(a: real, b: real)
    requires 0.0 < a <= b
    ensures 0.0 < 1.0 / b <= 1.0 / a
  {
    var i, j := 1.0 / a, 1.0 / b;
    assert i * a == 1.0 && j * b == 1.0;
  }

  lemma Shrinks(score: real, k: real, most: real)
    requires 0.0 <= score && 0.0 <= k <= most
    ensures 0.0 <= score * k <= score * most
  {
  }

  lemma {:induction false} PowGrows(f: real, m: nat, n: nat)
    requires f >= 1.0 && m <= n
    ensures 1.0 <= Pow(f, m) <= Pow(f, n)
    decreases n
  {
    if n > 0 {
      PowGrows(f, if m < n then m else n - 1, n - 1);
      var p := Pow(f, n - 1);
      assert f * p >= 1.0 * p;
    }
  }

  // ---- Backoff ----

  /** backoffDelay */
  function BackoffDelay(n: nat, base: int, factor: Float, limit: int): int {
    if base <= 0 then 0
    else
      var cap := if limit <= 0 then base else limit;
      var scaled := Scaled(base, Multiplier(factor), n);
      if scaled >= cap as real then cap else scaled.Floor
  }

  function Scaled(base: int, f: real, n: nat): real { base as real * Pow(f, n) }

  /** Below 1, infinite or not a number: constant. */
  function Multiplier(factor: Float): (f: real)
    ensures f >= 1.0
  {
    if factor.Finite? && factor.x >= 1.0 then factor.x else 1.0
  }

  function Cap(base: int, limit: int): int { if base <= 0 then 0 else if limit <= 0 then base else limit }

  function Min(a: int, b: int): int { if a <= b then a else b }

  lemma ScaledGrows(base: int, f: real, m: nat, n: nat)
    requires base > 0 && f >= 1.0 && m <= n
    ensures base as real <= Scaled(base, f, m) <= Scaled(base, f, n)
  {
    PowGrows(f, m, n);
    Shrinks(base as real, 1.0, Pow(f, m));
    Shrinks(base as real, Pow(f, m), Pow(f, n));
  }

  /** The delays start at min(base, cap), never fall and never pass the cap; before the cap they are
      the exponential, cut to whole nanoseconds. */
  lemma BackoffLaws(m: nat, n: nat, base: int, factor: Float, limit: int)
    requires m <= n
    ensures var cap, d := if limit <= 0 then base else limit, BackoffDelay(n, base, factor, limit);
            && BackoffDelay(m, base, factor, limit) <= d
            && (base > 0 ==> Min(base, cap) <= d <= cap)
            && (base <= 0 ==> d == 0)
            && (base > 0 ==> d == Min(Scaled(base, Multiplier(factor), n).Floor, cap))
  {
    hide Scaled;
    if base > 0 { ScaledGrows(base, Multiplier(factor), m, n); }
  }

  /** The law of the delay: with x the exponential that starts at the base and is multiplied by the
      factor from one restart to the next, it is x(n) in whole nanoseconds, or the cap from there on. */
  lemma BackoffIsExponential(x: nat -> real, n: nat, base: int, factor: Float, limit: int)
    requires base > 0 && factor.Finite? && factor.x >= 1.0
    requires x(0) == base as real && forall k: nat :: x(k + 1) == factor.x * x(k)
    ensures var cap := if limit <= 0 then base else limit;
            BackoffDelay(n, base, factor, limit) == if x(n) >= cap as real then cap else x(n).Floor
  {
    hide Scaled;
    ExponentialIs(x, n, base, factor.x);
  }

  lemma {:induction false} ExponentialIs(x: nat -> real, n: nat, base: int, f: real)
    requires x(0) == base as real && forall k: nat :: x(k + 1) == f * x(k)
    ensures x(n) == Scaled(base, f, n)
  {
    if n == 0 {
      assert base as real * 1.0 == base as real;
    } else {
      ExponentialIs(x, n - 1, base, f);
      assert x(n - 1 + 1) == f * x(n - 1);
      ThreeFactors(f, base as real, Pow(f, n - 1));
    }
  }

  lemma ThreeFactors(a: real, b: real, c: real)
    ensures a * (b * c) == b * (a * c)
  {
  }

  /** There is such an x. */
  lemma ExponentialExists(base: int, f: real) returns (x: nat -> real)
    ensures x(0) == base as real && forall k: nat :: x(k + 1) == f * x(k)
  {
    x := (n: nat) => Scaled(base, f, n);
    assert base as real * 1.0 == base as real;
    forall k: nat ensures x(k + 1) == f * x(k) { ThreeFactors(base as real, f, Pow(f, k)); }
  }

  /** With any factor the first delay is min(base, cap); with one that is below 1, infinite or not a
      number, or 1 itself, every other is too. */
  lemma {:induction false} ConstantBackoff(n: nat, base: int, factor: Float, limit: int)
    requires n == 0 || !factor.Finite? || factor.x <= 1.0
    ensures BackoffDelay(n, base, factor, limit)
         == if base <= 0 then 0 else if limit <= 0 || base <= limit then base else limit
    ensures BackoffDelay(n, base, factor, limit) == BackoffDelay(0, base, factor, limit)
  {
    if n > 0 {
      ConstantBackoff(n - 1, base, factor, limit);
      assert Pow(1.0, n) == Pow(1.0, n - 1);
    } else {
      assert base as real * 1.0 == base as real;
    }
  }

  // ---- Jitter ----

  const MAX_INT64 := 0x7FFF_FFFF_FFFF_FFFF

  /** What the jitter source yields. */
  type Draw = r: real | 0.0 <= r < 1.0 witness 0.0

  /** applyJitter */
  function ApplyJitter(d: int, draw: Draw, enabled: bool): int {
    if !enabled || d <= 0 then d
    else
      var scaled := Spread(d, draw);
      if scaled >= MAX_INT64 as real then MAX_INT64 else scaled.Floor
  }

  function Spread(d: int, draw: Draw): real { d as real * (0.5 + draw) }

  /** Off, or nothing to spread: unchanged. On: between half and one and a half, never negative and
      never past the largest duration. */
  lemma JitterLaws(d: int, draw: Draw, enabled: bool)
    ensures var r := ApplyJitter(d, draw, enabled);
            && (!enabled || d <= 0 ==> r == d)
            && (enabled && d > 0 ==>
                 var scaled := d as real * (0.5 + draw); r == if scaled >= 0x7FFF_FFFF_FFFF_FFFF as real
                                                              then 0x7FFF_FFFF_FFFF_FFFF else scaled.Floor)
            && (enabled && d > 0 ==> 0 <= r && 2 * r <= 3 * d)
            && (enabled && 0 < d <= MAX_INT64 ==> d - 1 <= 2 * r && r <= MAX_INT64)
  {
    assert Spread(d, draw) == d as real * (0.5 + draw);
    hide Spread;
    if enabled && d > 0 { SpreadBetween(d, draw); }
  }

  lemma SpreadBetween(d: int, draw: Draw)
    requires d > 0
    ensures var k := Spread(d, draw).Floor; d - 1 <= 2 * k <= 3 * d && 0 <= k
  {
    hide Spread;
    HalfAndMore(d, draw);
    Halved(d, Spread(d, draw));
  }

  lemma HalfAndMore(d: int, draw: Draw)
    requires d > 0
    ensures d as real <= 2.0 * Spread(d, draw) <= 3.0 * d as real
  {
    var x := d as real;
    var y := x * draw;
    Shrinks(x, draw, 1.0);
    assert x * (0.5 + draw) == 0.5 * x + y;
  }

  lemma Halved(d: int, scaled: real)
    requires d > 0 && d as real <= 2.0 * scaled <= 3.0 * d as real
    ensures d - 1 <= 2 * scaled.Floor <= 3 * d && 0 <= scaled.Floor
  {
    var k := scaled.Floor;
    assert k as real <= scaled < k as real + 1.0;
    assert (2 * k) as real == 2.0 * k as real && (3 * d) as real == 3.0 * d as real;
    assert (2 * k + 2) as real == 2.0 * k as real + 2.0;
  }

  // ---- The failure score ----

  datatype Storm = Storm(score: real, last: Option<int>)

  const CALM := Storm(0.0, None)

  /** The score after one more failure at `now`. */
  function Recorded(st: Storm, now: int, decay: int, half: real -> Float): Storm {
    var kept :=
      if st.last.None? || decay <= 0 then 0.0
      else Faded(st.score, now - st.last.value, decay, half);
    Storm(kept + 1.0, Some(now))
  }

  function HalfLives(dt: int, decay: int): real
    requires decay > 0
  {
    dt as real / decay as real
  }

  function Faded(score: real, dt: int, decay: int, half: real -> Float): real
    requires decay > 0
  {
    match half(HalfLives(dt, decay))
    case Finite(k) => Times(score, k)
    case _ => 0.0   // an infinite product, or not a number: history is forgotten
  }

  function Times(a: real, b: real): real { a * b }

  class StormState {
    var score: real
    var last: int
    var hasLast: bool

    ghost function View(): Storm
      reads this
    {
      Storm(score, if hasLast then Some(last) else None)
    }

    constructor ()
      ensures View() == CALM
    {
      score, last, hasLast := 0.0, 0, false;
    }

    method Record(now: int, decay: int, half: real -> Float) returns (s: real)
      modifies this
      ensures View() == Recorded(old(View()), now, decay, half) && s == View().score
      ensures hasLast && last == now && score == s
      ensures !old(hasLast) || decay <= 0 ==> s == 1.0
      ensures old(hasLast) && decay > 0 ==>
                var k := half((now - old(last)) as real / decay as real);
                s == if k.Finite? then old(score) * k.x + 1.0 else 1.0
    {
      s := score;
      if !hasLast || decay <= 0 {
        s := 0.0;
      } else {
        var dt := now - last;
        match half(dt as real / decay as real) {
          case Finite(k) => s := s * k;
          case _ => s := 0.0;
        }
      }
      s := s + 1.0;
      score := s;
      last := now;
      hasLast := true;
    }

    method Reset()
      modifies this
      ensures View() == CALM
    {
      score := 0.0;
      hasLast := false;
    }
  }

  // ---- Runs ----

  datatype Policy = OnCrash | Always | Never

  predicate WantsRestart(policy: Policy, crashed: bool) {
    policy.Always? || (policy.OnCrash? && crashed)
  }

  datatype StopReason = ByPredicate | PolicySatisfied | RestartsExhausted

  /** maxRestarts < 0 is unlimited; stormPause <= 0 turns the guard off. */
  datatype Config = Config(
    policy: Policy,
    maxRestarts: int,
    backoffBase: int,
    factor: Float,
    maxBackoff: int,
    jitter: bool,
    stormPause: int,
    failureDecay: int,
    failureThreshold: real)

  /** What one call of the runner comes back with. */
  datatype Reply = Finished(result: Result) | Broken(error: Bytes) | CancelledRun(error: Bytes)

  /** One incarnation, as the environment plays it. */
  datatype Turn = Turn(
    live: bool,            // the context, before the run
    reply: Reply,
    now: int,              // the clock, when a crash is recorded
    pauseDraw: Draw,
    pauseElapsed: bool,    // false: the context ended first
    delayDraw: Draw,
    delayElapsed: bool)
  {
    predicate Crashed() { reply.Broken? || (reply.Finished? && !reply.result.Success()) }
  }

  datatype Verdict =
    | Concluded(final: Result, restarts: nat, stopped: StopReason, stormPauses: nat)
    | Errored(error: Bytes)
    | Cancelled
    | StillRunning

  /** A supervisor in its environment; stopWhen None is the nil predicate. */
  datatype Setup = Setup(cfg: Config, stopWhen: Option<Result -> bool>, half: real -> Float, script: seq<Turn>)
  {
    /** Why turn i, reached after i restarts, would be the last one. */
    function Stops(i: nat): Option<StopReason>
      requires i < |script|
    {
      var reply := script[i].reply;
      if reply.Finished? && stopWhen.Some? && stopWhen.value(reply.result) then Some(ByPredicate)
      else if !WantsRestart(cfg.policy, script[i].Crashed()) then Some(PolicySatisfied)
      else if 0 <= cfg.maxRestarts <= i then Some(RestartsExhausted)
      else None
    }

    predicate Records(i: nat)
      requires i < |script|
    {
      script[i].Crashed() && cfg.stormPause > 0
    }

    /** The score before turn i. */
    function StormAt(i: nat): Storm
      requires i <= |script|
      decreases i, 0
    {
      if i == 0 then CALM
      else if !Records(i - 1) then StormAt(i - 1)
      else if Fires(i - 1) then CALM
      else Recorded(StormAt(i - 1), script[i - 1].now, cfg.failureDecay, half)
    }

    predicate Fires(i: nat)
      requires i < |script|
      decreases i, 1
    {
      Records(i) && Recorded(StormAt(i), script[i].now, cfg.failureDecay, half).score > cfg.failureThreshold
    }

    /** Turn i is followed by another one: nothing stops it and no sleep is cut short. */
    predicate Goes(i: nat)
      requires i < |script|
    {
      && script[i].live && !script[i].reply.CancelledRun? && Stops(i).None?
      && (Fires(i) ==> script[i].pauseElapsed) && script[i].delayElapsed
    }

    /** Turn i would go on, but the context ends while it sleeps. */
    predicate CutShort(i: nat)
      requires i < |script|
    {
      && script[i].live && !script[i].reply.CancelledRun? && Stops(i).None?
      && !((Fires(i) ==> script[i].pauseElapsed) && script[i].delayElapsed)
    }

    function Pauses(i: nat): nat
      requires i <= |script|
    {
      if i == 0 then 0 else Pauses(i - 1) + if Fires(i - 1) then 1 else 0
    }

    function Pause(i: nat): int
      requires i < |script|
    {
      ApplyJitter(cfg.stormPause, script[i].pauseDraw, cfg.jitter)
    }

    function Delay(i: nat): int
      requires i < |script|
    {
      ApplyJitter(BackoffDelay(i, cfg.backoffBase, cfg.factor, cfg.maxBackoff), script[i].delayDraw, cfg.jitter)
    }

    /** All the sleep requested before turn i. */
    function Slept(i: nat): int
      requires i <= |script|
    {
      if i == 0 then 0 else Slept(i - 1) + (if Fires(i - 1) then Pause(i - 1) else 0) + Delay(i - 1)
    }

    /** What a verdict says about the run it ends, `calls` being the runner calls made. */
    ghost predicate Explains(v: Verdict, calls: nat, slept: int)
      requires calls <= |script|
    {
      match v
      case Concluded(final, restarts, stopped, pauses) =>
        && calls == restarts + 1 && (forall i :: 0 <= i < restarts ==> Goes(i))
        && script[restarts].live && script[restarts].reply == Finished(final) && Stops(restarts) == Some(stopped)
        && pauses == Pauses(restarts) && slept == Slept(restarts)
      case Errored(error) =>
        && calls > 0 && (forall i :: 0 <= i < calls - 1 ==> Goes(i)) && script[calls - 1].live
        && (|| script[calls - 1].reply == CancelledRun(error)
            || (script[calls - 1].reply == Broken(error) && Stops(calls - 1).Some?))
      case Cancelled =>
        || (calls < |script| && !script[calls].live && forall i :: 0 <= i < calls ==> Goes(i))
        || (calls > 0 && CutShort(calls - 1) && forall i :: 0 <= i < calls - 1 ==> Goes(i))
      case StillRunning =>
        calls == |script| && slept == Slept(calls) && forall i :: 0 <= i < calls ==> Goes(i)
    }
  }

  method Run(s: Setup) returns (v: Verdict, calls: nat, slept: int)
    ensures calls <= |s.script| && s.Explains(v, calls, slept)
  {
    var cfg := s.cfg;
    var restarts: nat := 0;
    var stormPauses := 0;
    var storm := new StormState();
    calls := 0;
    slept := 0;
    while restarts < |s.script|
      invariant restarts <= |s.script| && calls == restarts
      invariant forall i :: 0 <= i < restarts ==> s.Goes(i)
      invariant storm.View() == s.StormAt(restarts)
      invariant stormPauses == s.Pauses(restarts) && slept == s.Slept(restarts)
    {
      var turn := s.script[restarts];
      if !turn.live {
        return Cancelled, calls, slept;
      }
      calls := calls + 1;
      var crashed;
      if !turn.reply.Finished? {
        if turn.reply.CancelledRun? {
          return Errored(turn.reply.error), calls, slept;
        }
        crashed := true;
      } else {
        var result := turn.reply.result;
        if s.stopWhen.Some? && s.stopWhen.value(result) {
          return Concluded(result, restarts, ByPredicate, stormPauses), calls, slept;
        }
        crashed := !result.Success();
      }
      if !WantsRestart(cfg.policy, crashed) {
        if turn.reply.Broken? {
          return Errored(turn.reply.error), calls, slept;
        }
        return Concluded(turn.reply.result, restarts, PolicySatisfied, stormPauses), calls, slept;
      }
      if cfg.maxRestarts >= 0 && restarts >= cfg.maxRestarts {
        if turn.reply.Broken? {
          return Errored(turn.reply.error), calls, slept;
        }
        return Concluded(turn.reply.result, restarts, RestartsExhausted, stormPauses), calls, slept;
      }
      if crashed && cfg.stormPause > 0 {
        var score := storm.Record(turn.now, cfg.failureDecay, s.half);
        if score > cfg.failureThreshold {
          var pause := ApplyJitter(cfg.stormPause, turn.pauseDraw, cfg.jitter);
          slept := slept + pause;
          if !turn.pauseElapsed {
            return Cancelled, calls, slept;
          }
          stormPauses := stormPauses + 1;
          storm.Reset();
        }
      }
      var delay := ApplyJitter(BackoffDelay(restarts, cfg.backoffBase, cfg.factor, cfg.maxBackoff),
                               turn.delayDraw, cfg.jitter);
      slept := slept + delay;
      if !turn.delayElapsed {
        return Cancelled, calls, slept;
      }
      restarts := restarts + 1;
    }
    v := StillRunning;
  }

  // ---- What a concluded run is ----

  /** Turn i was not the last, in exit codes: the run came back, the predicate did not stop it, the
      policy wanted a restart, after anything but exit 0 or an ok-code in the case of OnCrash, the
      budget had one left, and the delay ran its course. */
  ghost predicate WentOn(s: Setup, i: nat)
    requires i < |s.script|
  {
    var t := s.script[i];
    var well :=
      && t.reply.Finished? && t.reply.result.outcome.Exited?
      && (t.reply.result.outcome.code == 0 || t.reply.result.outcome.code in t.reply.result.okCodes);
    && t.live && !t.reply.CancelledRun? && t.delayElapsed
    && !(t.reply.Finished? && s.stopWhen.Some? && s.stopWhen.value(t.reply.result))
    && (s.cfg.policy.Always? || (s.cfg.policy.OnCrash? && !well))
    && (s.cfg.maxRestarts < 0 || i < s.cfg.maxRestarts)
  }

  lemma GoesInCodes(s: Setup, i: nat)
    requires i < |s.script|
    ensures s.Goes(i) <==> WentOn(s, i) && (s.Fires(i) ==> s.script[i].pauseElapsed)
  {
    hide s.Fires;
  }

  /** A concluded run stays within its budget and exhausts it only by using all of it; every turn before
      the last went on; the last one met the predicate, or else the policy, or else the budget. */
  lemma ConcludedRun(s: Setup, v: Verdict, calls: nat, slept: int)
    requires calls <= |s.script| && s.Explains(v, calls, slept) && v.Concluded?
    ensures calls == v.restarts + 1 && s.script[v.restarts].reply == Finished(v.final)
    ensures forall i :: 0 <= i < v.restarts ==> WentOn(s, i)
    ensures s.cfg.maxRestarts >= 0 ==> v.restarts <= s.cfg.maxRestarts
    ensures var o := v.final.outcome;
            var well := o.Exited? && (o.code == 0 || o.code in v.final.okCodes);
            var enough := s.stopWhen.Some? && s.stopWhen.value(v.final);
            && (v.stopped.ByPredicate? <==> enough)
            && (v.stopped.PolicySatisfied? <==>
                 !enough && (s.cfg.policy.Never? || (s.cfg.policy.OnCrash? && well)))
            && (v.stopped.RestartsExhausted? <==>
                 !enough && (s.cfg.policy.Always? || (s.cfg.policy.OnCrash? && !well)))
    ensures v.stopped.RestartsExhausted? ==> v.restarts == s.cfg.maxRestarts
    ensures s.cfg.policy.Never? ==> calls == 1
  {
    hide s.Fires;
    var k := v.restarts;
    assert s.Stops(k) == Some(v.stopped);
    forall i | 0 <= i < k ensures WentOn(s, i) {
      assert s.Goes(i);
      GoesInCodes(s, i);
    }
    assert k > 0 ==> WentOn(s, k - 1);
  }

  /** An error ends a run that was cancelled, or one that did not start and is not to be restarted. */
  lemma ErroredRun(s: Setup, v: Verdict, calls: nat, slept: int)
    requires calls <= |s.script| && s.Explains(v, calls, slept) && v.Errored?
    ensures calls > 0 && forall i :: 0 <= i < calls - 1 ==> WentOn(s, i)
    ensures var reply := s.script[calls - 1].reply;
            || reply == CancelledRun(v.error)
            || (reply == Broken(v.error) && (s.cfg.policy.Never? || 0 <= s.cfg.maxRestarts <= calls - 1))
  {
    hide s.Fires;
    forall i | 0 <= i < calls - 1 ensures WentOn(s, i) {
      assert s.Goes(i);
      GoesInCodes(s, i);
    }
  }

  /** Cancellation: the context had ended before the next run, or it ended during a sleep after the last. */
  lemma EndedByContext(s: Setup, v: Verdict, calls: nat, slept: int)
    requires calls <= |s.script| && s.Explains(v, calls, slept) && v.Cancelled?
    ensures || (calls < |s.script| && !s.script[calls].live && forall i :: 0 <= i < calls ==> WentOn(s, i))
            || (calls > 0 && s.script[calls - 1].live && !s.script[calls - 1].reply.CancelledRun?
                && (!s.script[calls - 1].delayElapsed || !s.script[calls - 1].pauseElapsed)
                && forall i :: 0 <= i < calls - 1 ==> WentOn(s, i))
  {
    hide s.Fires;
    forall i | 0 <= i < calls && s.Goes(i) ensures WentOn(s, i) {
      GoesInCodes(s, i);
    }
  }

  /** The turn a verdict is reached on: the first that does not go on. */
  lemma EndsAt(s: Setup, v: Verdict, calls: nat, slept: int) returns (e: nat)
    requires calls <= |s.script| && s.Explains(v, calls, slept)
    ensures e <= |s.script| && (e < |s.script| ==> !s.Goes(e))
    ensures forall i :: 0 <= i < |s.script| && !s.Goes(i) ==> e <= i
    ensures calls == if e < |s.script| && s.script[e].live then e + 1 else e
    ensures v.Concluded? ==> e < |s.script| && s.script[e].reply == Finished(v.final)
    ensures v.Concluded? ==> e == v.restarts && s.Stops(e) == Some(v.stopped) && v.stormPauses == s.Pauses(e)
    ensures v.Errored? ==>
              && e < |s.script| && s.script[e].live
              && s.script[e].reply in {Broken(v.error), CancelledRun(v.error)}
    ensures v.Errored? && s.script[e].reply.Broken? ==> s.Stops(e).Some?
    ensures v.Cancelled? ==> e < |s.script| && (!s.script[e].live || s.CutShort(e))
    ensures v.StillRunning? ==> e == |s.script|
  {
    e := if calls > 0 && !s.Goes(calls - 1) then calls - 1 else calls;
  }

  /** The script leaves no choice: verdict and number of runs are determined by it. */
  lemma VerdictUnique(s: Setup, v: Verdict, calls: nat, slept: int, v': Verdict, calls': nat, slept': int)
    requires calls <= |s.script| && s.Explains(v, calls, slept)
    requires calls' <= |s.script| && s.Explains(v', calls', slept')
    ensures v == v' && calls == calls'
  {
    var e := EndsAt(s, v, calls, slept);
    var e' := EndsAt(s, v', calls', slept');
    assert e == e';
  }

  /** No run follows a cancelled one, and none starts under a context that has ended. */
  lemma NothingAfterCancellation(s: Setup, v: Verdict, calls: nat, slept: int, i: nat)
    requires calls <= |s.script| && s.Explains(v, calls, slept) && i < |s.script|
    ensures s.script[i].reply.CancelledRun? ==> calls <= i + 1
    ensures !s.script[i].live ==> calls <= i
  {
    var e := EndsAt(s, v, calls, slept);
    assert !s.Goes(i) ==> e <= i;
  }

  // ---- The storm guard ----

  ghost predicate Monotone(s: Setup) {
    forall i, j :: 0 <= i < j < |s.script| ==> s.script[i].now <= s.script[j].now
  }

  /** Crashes recorded since the last pause, before turn i. */
  function SinceReset(s: Setup, i: nat): nat
    requires i <= |s.script|
  {
    if i == 0 then 0
    else if !s.Records(i - 1) then SinceReset(s, i - 1)
    else if s.Fires(i - 1) then 0
    else SinceReset(s, i - 1) + 1
  }

  /** The last instant in the score is that of an earlier recorded crash. */
  lemma {:induction false} LastIsEarlier(s: Setup, i: nat)
    requires i <= |s.script| && s.StormAt(i).last.Some?
    ensures exists j :: 0 <= j < i && s.Records(j) && s.StormAt(i).last.value == s.script[j].now
  {
    if s.Records(i - 1) {
      assert s.StormAt(i).last.value == s.script[i - 1].now;
    } else {
      LastIsEarlier(s, i - 1);
      var j :| 0 <= j < i - 1 && s.Records(j) && s.StormAt(i - 1).last.value == s.script[j].now;
    }
  }

  lemma Quotient(dt: int, decay: int)
    requires decay > 0 && dt >= 0
    ensures HalfLives(dt, decay) >= 0.0
    ensures dt >= decay ==> HalfLives(dt, decay) >= 1.0
  {
    var x := HalfLives(dt, decay);
    assert x * decay as real == dt as real;
    if x < 1.0 { Fraction(x, decay as real); }
  }

  lemma Fraction(x: real, d: real)
    requires d > 0.0 && x < 1.0
    ensures x * d < d
  {
  }

  lemma KeptFactor(dt: int, decay: int, half: real -> Float)
    requires Halving(half) && decay > 0 && dt >= 0
    ensures var k := half(HalfLives(dt, decay));
            k.Finite? && 0.0 <= k.x <= 1.0 && (dt >= decay ==> k.x <= 0.5)
  {
    hide HalfLives;
    Quotient(dt, decay);
    var x := HalfLives(dt, decay);
    assert half(x).Finite? && half(x).x <= half(0.0).x;
    assert x >= 1.0 ==> half(x).x <= half(1.0).x;
  }

  lemma Portion(score: real, k: real)
    requires score >= 0.0 && 0.0 <= k <= 1.0
    ensures 0.0 <= Times(score, k) <= score
    ensures k <= 0.5 ==> 2.0 * Times(score, k) <= score
  {
    var rest := 1.0 - k;
    NonNegative(score, k);
    NonNegative(score, rest);
    assert score * k + score * rest == score;
    if k <= 0.5 {
      NonNegative(score, rest - k);
      assert score * (rest - k) == score * rest - score * k;
    }
  }

  lemma NonNegative(a: real, b: real)
    requires a >= 0.0 && b >= 0.0
    ensures a * b >= 0.0
  {
  }

  /** What dt leaves of a score. */
  lemma FadedAtMost(score: real, dt: int, decay: int, half: real -> Float)
    requires Halving(half) && decay > 0 && dt >= 0 && score >= 0.0
    ensures 0.0 <= Faded(score, dt, decay, half) <= score
    ensures dt >= decay ==> 2.0 * Faded(score, dt, decay, half) <= score
  {
    hide Halving, HalfLives, Times;
    KeptFactor(dt, decay, half);
    Portion(score, half(HalfLives(dt, decay)).x);
  }

  lemma RecordedAtMost(st: Storm, now: int, decay: int, half: real -> Float, bound: real)
    requires Halving(half) && (st.last.Some? ==> st.last.value <= now)
    requires 0.0 <= st.score <= bound
    ensures 1.0 <= Recorded(st, now, decay, half).score <= bound + 1.0
    ensures decay > 0 && st.last.Some? && now - st.last.value >= decay ==>
              2.0 * (Recorded(st, now, decay, half).score - 1.0) <= bound
  {
    hide Halving, Faded;
    if st.last.Some? && decay > 0 { FadedAtMost(st.score, now - st.last.value, decay, half); }
  }

  lemma RecordedInOrder(s: Setup, i: nat)
    requires Halving(s.half) && Monotone(s) && i < |s.script|
    requires 0.0 <= s.StormAt(i).score <= SinceReset(s, i) as real
    ensures 1.0 <= Recorded(s.StormAt(i), s.script[i].now, s.cfg.failureDecay, s.half).score
                <= SinceReset(s, i) as real + 1.0
  {
    var st := s.StormAt(i);
    if st.last.Some? { LastIsEarlier(s, i); }
    RecordedAtMost(st, s.script[i].now, s.cfg.failureDecay, s.half, SinceReset(s, i) as real);
  }

  /** With a clock that does not go back, the score never exceeds the crashes since the last pause. */
  lemma {:induction false} ScoreAtMostCrashes(s: Setup, i: nat)
    requires Halving(s.half) && Monotone(s) && i <= |s.script|
    ensures 0.0 <= s.StormAt(i).score <= SinceReset(s, i) as real
  {
    if i > 0 {
      ScoreAtMostCrashes(s, i - 1);
      RecordedInOrder(s, i - 1);
    }
  }

  lemma FiringNeedsCrashes(s: Setup, i: nat)
    requires Halving(s.half) && Monotone(s) && i < |s.script| && s.cfg.failureThreshold >= 0.0 && s.Fires(i)
    ensures s.Records(i) && SinceReset(s, i) >= s.cfg.failureThreshold.Floor
  {
    ScoreAtMostCrashes(s, i);
    RecordedInOrder(s, i);
    assert (SinceReset(s, i) + 1) as real > s.cfg.failureThreshold;
  }

  /** Every pause is paid for by floor(threshold) + 1 crashes of its own. */
  lemma {:induction false} PausesArePaidFor(s: Setup, i: nat)
    requires Halving(s.half) && Monotone(s) && i <= |s.script| && s.cfg.failureThreshold >= 0.0
    ensures s.Pauses(i) * (s.cfg.failureThreshold.Floor + 1) + SinceReset(s, i) <= i
  {
    hide Halving, Monotone, s.Fires, s.Records;
    if i > 0 {
      PausesArePaidFor(s, i - 1);
      if s.Fires(i - 1) {
        FiringNeedsCrashes(s, i - 1);
        OneMore(s.Pauses(i - 1), s.cfg.failureThreshold.Floor + 1);
      }
    }
  }

  lemma OneMore(n: int, m: int)
    ensures (n + 1) * m == n * m + m
  {
  }

  lemma StormPausesBounded(s: Setup, v: Verdict, calls: nat, slept: int)
    requires Halving(s.half) && Monotone(s) && s.cfg.failureThreshold >= 0.0
    requires calls <= |s.script| && s.Explains(v, calls, slept) && v.Concluded?
    ensures v.stormPauses * (s.cfg.failureThreshold.Floor + 1) <= v.restarts
  {
    PausesArePaidFor(s, v.restarts);
  }

  /** Crashes at least one half-life apart. */
  ghost predicate Spaced(s: Setup) {
    forall i, j :: 0 <= i < j < |s.script| && s.Records(i) && s.Records(j) ==>
      s.script[j].now - s.script[i].now >= s.cfg.failureDecay
  }

  /** Crashes spaced by a half-life or more keep the score below 2: a threshold of 2 never pauses. */
  lemma {:induction false} SpacedCrashesNeverPause(s: Setup, i: nat)
    requires Halving(s.half) && Spaced(s) && s.cfg.failureDecay > 0 && i <= |s.script|
    ensures 0.0 <= s.StormAt(i).score < 2.0
    ensures s.cfg.failureThreshold >= 2.0 ==> s.Pauses(i) == 0
  {
    if i > 0 {
      SpacedCrashesNeverPause(s, i - 1);
      if s.Records(i - 1) {
        var st := s.StormAt(i - 1);
        if st.last.Some? { LastIsEarlier(s, i - 1); }
        RecordedAtMost(st, s.script[i - 1].now, s.cfg.failureDecay, s.half, st.score);
      }
    }
  }

  lemma RecordedOneHalfLifeOn(score: real, i: nat, decay: int, half: real -> Float)
    requires Halving(half) && decay > 0 && i > 0
    ensures Recorded(Storm(score, Some((i - 1) * decay)), i * decay, decay, half)
         == Storm(0.5 * score + 1.0, Some(i * decay))
  {
    assert i * decay - (i - 1) * decay == decay;
    assert decay as real / decay as real == 1.0;
  }

  /** 2 is the least such threshold: i + 1 crashes exactly one half-life apart reach 2 - 0.5^i,
      unless a pause comes first. */
  lemma {:induction false} ExactSpacing(s: Setup, i: nat)
    requires Halving(s.half) && s.cfg.failureDecay > 0 && i < |s.script|
    requires forall j :: 0 <= j <= i ==> s.Records(j) && !s.Fires(j) && s.script[j].now == j * s.cfg.failureDecay
    ensures s.StormAt(i + 1) == Storm(2.0 - Pow(0.5, i), Some(i * s.cfg.failureDecay))
  {
    hide Halving, Recorded;
    assert s.Records(i) && !s.Fires(i) && s.script[i].now == i * s.cfg.failureDecay;
    if i > 0 {
      ExactSpacing(s, i - 1);
      RecordedOneHalfLifeOn(2.0 - Pow(0.5, i - 1), i, s.cfg.failureDecay, s.half);
    } else {
      FirstRecorded(s);
    }
  }

  lemma {:induction false} HalfPowSmall(n: nat)
    ensures Times(Pow(0.5, n), (n + 1) as real) <= 1.0 && Pow(0.5, n) > 0.0
  {
    if n > 0 {
      HalfPowSmall(n - 1);
      var p := Pow(0.5, n - 1);
      assert p * n as real <= 1.0;
      NonNegative(p, n as real - 1.0);
      assert 0.5 * p * (n as real + 1.0) == p * n as real - 0.5 * (p * (n as real - 1.0));
      assert (n + 1) as real == n as real + 1.0;
    }
  }

  lemma TimesMonotone(a: real, b: real, m: real)
    requires m > 0.0
    ensures a <= b ==> Times(a, m) <= Times(b, m)
    ensures a < b ==> Times(a, m) < Times(b, m)
  {
    if a < b {
      Positive(b - a, m);
      assert (b - a) * m == b * m - a * m;
    }
  }

  lemma Positive(a: real, b: real)
    requires a > 0.0 && b > 0.0
    ensures a * b > 0.0
  {
  }

  lemma TimesCommutes(a: real, b: real)
    ensures Times(a, b) == Times(b, a)
  {
  }

  lemma Reciprocal(eps: real) returns (q: real)
    requires eps > 0.0
    ensures q > 0.0 && Times(q, eps) == 1.0
  {
    q := 1.0 / eps;
    Inverses(eps, eps);
  }

  /** Some power of a half is below any positive bound. */
  lemma HalfPowBelow(eps: real) returns (n: nat)
    requires eps > 0.0
    ensures Pow(0.5, n) < eps
  {
    hide Times, Pow;
    var q := Reciprocal(eps);
    n := q.Floor;
    HalfPowSmall(n);
    var m := (n + 1) as real;
    TimesMonotone(q, m, eps);
    TimesCommutes(m, eps);
    TimesMonotone(eps, Pow(0.5, n), m);
  }

  /** n + 1 crashes exactly one half-life apart. */
  function Metronome(cfg: Config, half: real -> Float, n: nat): Setup {
    Setup(cfg, None, half,
          seq(n + 1, j => Turn(true, Broken([]), j * cfg.failureDecay, 0.0, true, 0.0, true)))
  }

  /** So 2 cannot be lowered: under every smaller threshold some crashes a half-life apart pause. */
  lemma LowerThresholdFires(cfg: Config, half: real -> Float) returns (s: Setup, i: nat)
    requires Halving(half) && cfg.stormPause > 0 && cfg.failureDecay > 0 && cfg.failureThreshold < 2.0
    ensures s.cfg == cfg && s.half == half && Spaced(s) && i < |s.script| && s.Fires(i)
  {
    var n := HalfPowBelow(2.0 - cfg.failureThreshold);
    s := Metronome(cfg, half, n);
    MetronomeSpaced(cfg, half, n);
    assert exists j :: 0 <= j <= n && s.Fires(j) by {
      if forall j :: 0 <= j <= n ==> !s.Fires(j) { QuietMeansUnder(s, n); }
    }
    i :| 0 <= i <= n && s.Fires(i);
  }

  lemma QuietMeansUnder(s: Setup, n: nat)
    requires Halving(s.half) && s.cfg.failureDecay > 0 && n < |s.script|
    requires forall j :: 0 <= j <= n ==> s.Records(j) && !s.Fires(j) && s.script[j].now == j * s.cfg.failureDecay
    ensures 2.0 - Pow(0.5, n) <= s.cfg.failureThreshold
  {
    ExactSpacing(s, n);
    assert s.Records(n) && !s.Fires(n);
    assert s.StormAt(n + 1) == Recorded(s.StormAt(n), s.script[n].now, s.cfg.failureDecay, s.half);
  }

  lemma MetronomeSpaced(cfg: Config, half: real -> Float, n: nat)
    requires cfg.failureDecay > 0
    ensures Spaced(Metronome(cfg, half, n))
  {
    var s := Metronome(cfg, half, n);
    forall i, j | 0 <= i < j < |s.script| && s.Records(i) && s.Records(j)
      ensures s.script[j].now - s.script[i].now >= cfg.failureDecay
    {
      assert j * cfg.failureDecay - i * cfg.failureDecay == (j - i) * cfg.failureDecay;
      AtLeastOne(j - i, cfg.failureDecay);
    }
  }

  lemma AtLeastOne(n: int, m: int)
    requires n >= 1 && m > 0
    ensures n * m >= m
  {
  }

  lemma FirstRecorded(s: Setup)
    requires s.script != []
    ensures Recorded(s.StormAt(0), s.script[0].now, s.cfg.failureDecay, s.half) == Storm(1.0, Some(s.script[0].now))
  {
  }

  // ---- How long it sleeps ----

  /** The delays before turn i, jitter aside. */
  function Delays(cfg: Config, i: nat): int {
    if i == 0 then 0 else Delays(cfg, i - 1) + BackoffDelay(i - 1, cfg.backoffBase, cfg.factor, cfg.maxBackoff)
  }

  /** Restart by restart: a pause if the guard fires, and the delay of that restart, each jittered by a
      draw of its own. Without jitter the sum is that of the delays and of all pauses. */
  lemma {:induction false} SleepExactly(s: Setup, i: nat)
    requires i <= |s.script|
    ensures s.Slept(0) == 0
    ensures i > 0 ==>
              var turn, cfg := s.script[i - 1], s.cfg;
              s.Slept(i) == s.Slept(i - 1)
                            + (if s.Fires(i - 1) then ApplyJitter(cfg.stormPause, turn.pauseDraw, cfg.jitter) else 0)
                            + ApplyJitter(BackoffDelay(i - 1, cfg.backoffBase, cfg.factor, cfg.maxBackoff),
                                          turn.delayDraw, cfg.jitter)
    ensures !s.cfg.jitter ==> s.Slept(i) == Delays(s.cfg, i) + s.Pauses(i) * s.cfg.stormPause
  {
    hide s.Fires, BackoffDelay;
    if i > 0 {
      SleepExactly(s, i - 1);
      OneMore(s.Pauses(i - 1), s.cfg.stormPause);
    }
  }

  /** What the caps allow before turn i. */
  function Allowed(s: Setup, i: nat): int
    requires i <= |s.script|
  {
    i * Cap(s.cfg.backoffBase, s.cfg.maxBackoff) + s.Pauses(i) * s.cfg.stormPause
  }

  lemma AllowedNext(s: Setup, i: nat)
    requires i < |s.script|
    ensures Allowed(s, 0) == 0
    ensures Allowed(s, i + 1) == Allowed(s, i) + Cap(s.cfg.backoffBase, s.cfg.maxBackoff)
                                 + if s.Fires(i) then s.cfg.stormPause else 0
  {
    hide s.Fires, Cap;
    var cap, pause, p := Cap(s.cfg.backoffBase, s.cfg.maxBackoff), s.cfg.stormPause, s.Pauses(i);
    assert (i + 1) * cap == i * cap + cap;
    assert (p + 1) * pause == p * pause + pause;
  }

  lemma DelayBounded(s: Setup, i: nat)
    requires i < |s.script|
    ensures 0 <= s.Delay(i) && 2 * s.Delay(i) <= 3 * Cap(s.cfg.backoffBase, s.cfg.maxBackoff)
    ensures !s.cfg.jitter ==> s.Delay(i) <= Cap(s.cfg.backoffBase, s.cfg.maxBackoff)
    ensures s.cfg.stormPause > 0 ==> 0 <= s.Pause(i) && 2 * s.Pause(i) <= 3 * s.cfg.stormPause
    ensures s.cfg.stormPause > 0 && !s.cfg.jitter ==> s.Pause(i) == s.cfg.stormPause
  {
    var cfg := s.cfg;
    BackoffLaws(i, i, cfg.backoffBase, cfg.factor, cfg.maxBackoff);
    JitterLaws(BackoffDelay(i, cfg.backoffBase, cfg.factor, cfg.maxBackoff), s.script[i].delayDraw, cfg.jitter);
    JitterLaws(cfg.stormPause, s.script[i].pauseDraw, cfg.jitter);
    hide BackoffDelay, ApplyJitter;
  }

  /** Twice the sleep is at most three times what the caps allow; with jitter off, it is allowed. */
  lemma {:induction false} SleepBounded(s: Setup, i: nat)
    requires i <= |s.script|
    ensures 0 <= s.Slept(i) && 2 * s.Slept(i) <= 3 * Allowed(s, i)
    ensures !s.cfg.jitter ==> s.Slept(i) <= Allowed(s, i)
  {
    if i > 0 {
      SleepBounded(s, i - 1);
      AllowedNext(s, i - 1);
      DelayBounded(s, i - 1);
      assert s.Fires(i - 1) ==> s.cfg.stormPause > 0;
      hide s.Fires, s.Pause, s.Delay, Cap, Allowed;
    } else {
      assert Allowed(s, 0) == 0;
    }
  }

  lemma TotalSleepBounded(s: Setup, v: Verdict, calls: nat, slept: int)
    requires calls <= |s.script| && s.Explains(v, calls, slept) && v.Concluded?
    ensures var base, limit := s.cfg.backoffBase, s.cfg.maxBackoff;
            var cap := if base <= 0 then 0 else if limit <= 0 then base else limit;
            var allowed := v.restarts * cap + v.stormPauses * s.cfg.stormPause;
            2 * slept <= 3 * allowed && (!s.cfg.jitter ==> slept <= allowed)
  {
    SleepBounded(s, v.restarts);
  }
}
