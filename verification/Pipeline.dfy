/** Running a chain (Pipeline.Output, pipeline.go:106-259): the order in which pipes are opened and
    closed, stages started and waited for, and the job killed, whichever step fails; and which
    outcome each stage is given in the end. */
module Pipeline {
  import opened Bytes
  import opened Outcomes
  import opened Pipefail

  // ---- The protocol, as a trace ----

  /** Pipe i joins stage i to stage i + 1: end 2i is read, end 2i + 1 is written. */
  datatype Event =
    | OpenEnd(end: nat)
    | CloseEnd(end: nat)
    | StartStage(i: nat)
    | WaitStage(i: nat)
    | KillJob
    | CloseJob

  predicate Build(e: Event) { e.OpenEnd? || e.StartStage? }

  /** What every run of Output owes its resources: every pipe end opened is closed exactly once,
      every stage started is waited for exactly once, nothing else is closed or waited for, and the
      job is killed once and closed once, at the very end. */
  ghost predicate Disciplined(t: seq<Event>) {
    var m := multiset(t);
    && (forall f :: m[CloseEnd(f)] == m[OpenEnd(f)] <= 1)
    && (forall i :: m[WaitStage(i)] == m[StartStage(i)] <= 1)
    && m[KillJob] == 1 && m[CloseJob] == 1
  }

  /** Failing: everything is started, the job is killed, the parent's pipe ends are closed, and only
      then is anything waited for. */
  function FailureRank(e: Event): nat {
    match e
    case OpenEnd(_) => 0 case StartStage(_) => 0
    case KillJob => 1 case CloseEnd(_) => 2 case WaitStage(_) => 3 case CloseJob => 4
  }

  /** Succeeding: the pipe ends are closed, the stages are waited for, the stragglers are killed. */
  function SuccessRank(e: Event): nat {
    match e
    case OpenEnd(_) => 0 case StartStage(_) => 0
    case CloseEnd(_) => 1 case WaitStage(_) => 2 case KillJob => 3 case CloseJob => 4
  }

  ghost predicate InOrder(t: seq<Event>, rank: Event -> nat) {
    forall i, j :: 0 <= i < j < |t| ==> rank(t[i]) <= rank(t[j])
  }

  // ---- Building blocks ----

  function Closes(ends: seq<nat>): (t: seq<Event>)
    ensures |t| == |ends| && forall i :: 0 <= i < |t| ==> t[i] == CloseEnd(ends[i])
  {
    seq(|ends|, i requires 0 <= i < |ends| => CloseEnd(ends[i]))
  }

  function Waits(order: seq<nat>): (t: seq<Event>)
    ensures |t| == |order| && forall i :: 0 <= i < |t| ==> t[i] == WaitStage(order[i])
  {
    seq(|order|, i requires 0 <= i < |order| => WaitStage(order[i]))
  }

  /** The state of the build loop: what was done, and what is owed for it. */
  ghost predicate Owing(build: seq<Event>, ends: seq<nat>, started: seq<nat>) {
    && (forall e: Event :: e in build ==> Build(e))
    && (forall f :: multiset(build)[OpenEnd(f)] == multiset(ends)[f] <= 1)
    && (forall i :: multiset(build)[StartStage(i)] == multiset(started)[i] <= 1)
  }

  /** `es` holds one event made of each element of `xs`, in order, and nothing else. */
  ghost predicate Mirrors(es: seq<Event>, xs: seq<nat>, made: nat -> Event) {
    |es| == |xs| && forall i :: 0 <= i < |xs| ==> es[i] == made(xs[i])
  }

  lemma {:induction false} MirrorsCount(es: seq<Event>, xs: seq<nat>, made: nat -> Event, x: nat)
    requires Mirrors(es, xs, made) && forall y :: made(y) == made(x) ==> y == x
    ensures multiset(es)[made(x)] == multiset(xs)[x]
  {
    if xs != [] {
      var n := |xs| - 1;
      MirrorsCount(es[..n], xs[..n], made, x);
      assert es == es[..n] + [es[n]] && xs == xs[..n] + [xs[n]];
    }
  }

  lemma ClosesCount(ends: seq<nat>)
    ensures forall f :: multiset(Closes(ends))[CloseEnd(f)] == multiset(ends)[f]
    ensures forall e: Event :: e in multiset(Closes(ends)) ==> e.CloseEnd?
  {
    forall f: nat ensures multiset(Closes(ends))[CloseEnd(f)] == multiset(ends)[f] {
      MirrorsCount(Closes(ends), ends, (i: nat) => CloseEnd(i), f);
    }
  }

  lemma WaitsCount(order: seq<nat>)
    ensures forall i :: multiset(Waits(order))[WaitStage(i)] == multiset(order)[i]
    ensures forall e: Event :: e in multiset(Waits(order)) ==> e.WaitStage?
  {
    forall i: nat ensures multiset(Waits(order))[WaitStage(i)] == multiset(order)[i] {
      MirrorsCount(Waits(order), order, (j: nat) => WaitStage(j), i);
    }
  }

  /** The two shapes a run can take once the job exists. */
  function FailureTrace(build: seq<Event>, ends: seq<nat>, started: seq<nat>): seq<Event> {
    build + [KillJob] + Closes(ends) + Waits(started) + [CloseJob]
  }

  function SuccessTrace(build: seq<Event>, ends: seq<nat>, order: seq<nat>): seq<Event> {
    build + Closes(ends) + Waits(order) + [KillJob] + [CloseJob]
  }

  /** Each part on its own accounts for every event it could hold. */
  ghost predicate Accounts(build: seq<Event>, closes: seq<Event>, waits: seq<Event>) {
    var b, c, w := multiset(build), multiset(closes), multiset(waits);
    && (forall e: Event :: !Build(e) ==> b[e] == 0)
    && (forall e: Event :: !e.CloseEnd? ==> c[e] == 0)
    && (forall e: Event :: !e.WaitStage? ==> w[e] == 0)
    && (forall f :: c[CloseEnd(f)] == b[OpenEnd(f)] <= 1)
    && (forall i :: w[WaitStage(i)] == b[StartStage(i)] <= 1)
  }

  lemma AccountedIsDisciplined(t: seq<Event>, build: seq<Event>, closes: seq<Event>, waits: seq<Event>)
    requires Accounts(build, closes, waits)
    requires multiset(t) == multiset(build) + multiset(closes) + multiset(waits) + multiset{KillJob, CloseJob}
    ensures Disciplined(t)
  {
    hide Build, Accounts;
    EndsAccounted(multiset(t), build, closes, waits);
    StagesAccounted(multiset(t), build, closes, waits);
    JobAccounted(multiset(t), build, closes, waits);
  }

  lemma EndsAccounted(m: multiset<Event>, build: seq<Event>, closes: seq<Event>, waits: seq<Event>)
    requires Accounts(build, closes, waits)
    requires m == multiset(build) + multiset(closes) + multiset(waits) + multiset{KillJob, CloseJob}
    ensures forall f :: m[CloseEnd(f)] == m[OpenEnd(f)] <= 1
  {
    forall f ensures m[CloseEnd(f)] == m[OpenEnd(f)] <= 1 {
      assert multiset(closes)[CloseEnd(f)] == multiset(build)[OpenEnd(f)] <= 1;
    }
  }

  lemma StagesAccounted(m: multiset<Event>, build: seq<Event>, closes: seq<Event>, waits: seq<Event>)
    requires Accounts(build, closes, waits)
    requires m == multiset(build) + multiset(closes) + multiset(waits) + multiset{KillJob, CloseJob}
    ensures forall i :: m[WaitStage(i)] == m[StartStage(i)] <= 1
  {
    forall i ensures m[WaitStage(i)] == m[StartStage(i)] <= 1 {
      assert multiset(waits)[WaitStage(i)] == multiset(build)[StartStage(i)] <= 1;
    }
  }

  lemma JobAccounted(m: multiset<Event>, build: seq<Event>, closes: seq<Event>, waits: seq<Event>)
    requires Accounts(build, closes, waits)
    requires m == multiset(build) + multiset(closes) + multiset(waits) + multiset{KillJob, CloseJob}
    ensures m[KillJob] == m[CloseJob] == 1
  {
  }

  lemma SumOfParts(a: seq<Event>, b: seq<Event>, c: seq<Event>, d: seq<Event>, e: seq<Event>)
    ensures multiset(a + b + c + d + e) == multiset(a) + multiset(b) + multiset(c) + multiset(d) + multiset(e)
  {
  }

  lemma {:induction false} FiveInOrder(a: seq<Event>, b: seq<Event>, c: seq<Event>, d: seq<Event>, e: seq<Event>,
                                       rank: Event -> nat)
    requires (forall i :: 0 <= i < |a| ==> rank(a[i]) == 0) && (forall i :: 0 <= i < |b| ==> rank(b[i]) == 1)
    requires (forall i :: 0 <= i < |c| ==> rank(c[i]) == 2) && (forall i :: 0 <= i < |d| ==> rank(d[i]) == 3)
    requires forall i :: 0 <= i < |e| ==> rank(e[i]) == 4
    ensures InOrder(a + b + c + d + e, rank)
  {
    var ab := a + b;
    var abc := ab + c;
    var abcd := abc + d;
    assert forall i :: 0 <= i < |ab| ==> rank(ab[i]) == if i < |a| then 0 else 1;
    assert forall i :: 0 <= i < |abc| ==> rank(abc[i]) == if i < |ab| then rank(ab[i]) else 2;
    assert forall i :: 0 <= i < |abcd| ==> rank(abcd[i]) == if i < |abc| then rank(abc[i]) else 3;
  }

  lemma FailureCounts(build: seq<Event>, ends: seq<nat>, started: seq<nat>)
    requires Owing(build, ends, started)
    ensures Disciplined(FailureTrace(build, ends, started))
  {
    hide Owing, Accounts, Disciplined, Closes, Waits;
    PartCounts(build, ends, started, started);
    SumOfParts(build, [KillJob], Closes(ends), Waits(started), [CloseJob]);
    AccountedIsDisciplined(FailureTrace(build, ends, started), build, Closes(ends), Waits(started));
  }

  lemma FailureIsDisciplined(build: seq<Event>, ends: seq<nat>, started: seq<nat>)
    requires Owing(build, ends, started)
    ensures Disciplined(FailureTrace(build, ends, started))
    ensures InOrder(FailureTrace(build, ends, started), FailureRank)
  {
    hide Owing, Disciplined, InOrder, Closes, Waits;
    FailureCounts(build, ends, started);
    BuildRanks(build, ends, started);
    FiveInOrder(build, [KillJob], Closes(ends), Waits(started), [CloseJob], FailureRank);
  }

  lemma SuccessCounts(build: seq<Event>, ends: seq<nat>, started: seq<nat>, order: seq<nat>)
    requires Owing(build, ends, started) && multiset(order) == multiset(started)
    ensures Disciplined(SuccessTrace(build, ends, order))
  {
    hide Owing, Accounts, Disciplined, Closes, Waits;
    PartCounts(build, ends, started, order);
    SumOfParts(build, Closes(ends), Waits(order), [KillJob], [CloseJob]);
    AccountedIsDisciplined(SuccessTrace(build, ends, order), build, Closes(ends), Waits(order));
  }

  lemma SuccessIsDisciplined(build: seq<Event>, ends: seq<nat>, started: seq<nat>, order: seq<nat>)
    requires Owing(build, ends, started) && multiset(order) == multiset(started)
    ensures Disciplined(SuccessTrace(build, ends, order))
    ensures InOrder(SuccessTrace(build, ends, order), SuccessRank)
  {
    hide Owing, Disciplined, InOrder, Closes, Waits;
    SuccessCounts(build, ends, started, order);
    BuildRanks(build, ends, started);
    FiveInOrder(build, Closes(ends), Waits(order), [KillJob], [CloseJob], SuccessRank);
  }

  lemma BuildRanks(build: seq<Event>, ends: seq<nat>, started: seq<nat>)
    requires Owing(build, ends, started)
    ensures forall i :: 0 <= i < |build| ==> FailureRank(build[i]) == SuccessRank(build[i]) == 0
  {
    assert forall i :: 0 <= i < |build| ==> build[i] in build && Build(build[i]);
  }

  /** What each part contributes to each count. */
  lemma PartCounts(build: seq<Event>, ends: seq<nat>, started: seq<nat>, order: seq<nat>)
    requires Owing(build, ends, started) && multiset(order) == multiset(started)
    ensures Accounts(build, Closes(ends), Waits(order))
  {
    ClosesCount(ends);
    WaitsCount(order);
    forall e: Event | !Build(e) ensures multiset(build)[e] == 0 { assert e !in build; }
    forall i ensures multiset(Waits(order))[WaitStage(i)] == multiset(build)[StartStage(i)] <= 1 {
      assert multiset(order)[i] == multiset(started)[i];
    }
  }

  // ---- What the stages came to ----

  datatype Cause = Live | Canceled | DeadlineExceeded

  /** ctx.Err() at time `now`, for a context with that deadline and an ancestor cancelled then. */
  function CtxErr(deadline: Option<int>, cancel: Option<int>, now: int): Cause {
    var late := deadline.Some? && deadline.value <= now;
    var gone := cancel.Some? && cancel.value <= now;
    if late && (!gone || deadline.value <= cancel.value) then DeadlineExceeded
    else if gone then Canceled
    else Live
  }

  /** One stage of the chain as configured, and as it went. */
  datatype StageCfg = StageCfg(program: Bytes, args: seq<Bytes>, okCodes: seq<int>, unchecked: bool, hasTimeout: bool)

  datatype StageRun = StageRun(
    exit: Option<Outcome>,       // the process state, when there is one
    exitedAt: int,
    deadline: Option<int>,       // of its context, inherited deadlines included
    lag: nat,                    // from the end of the chain to the consultation of its context
    stderr: Bytes)

  /** wg.Wait returns when the last stage has ended. */
  function ChainEnd(runs: seq<StageRun>): (end: int)
    ensures forall j :: 0 <= j < |runs| ==> runs[j].exitedAt <= end
    ensures runs != [] ==> exists j :: 0 <= j < |runs| && runs[j].exitedAt == end
  {
    if runs == [] then 0
    else
      var n := |runs| - 1;
      var before := ChainEnd(runs[..n]);
      assert forall j :: 0 <= j < n ==> runs[..n][j] == runs[j];
      if n > 0 && before >= runs[n].exitedAt then before else runs[n].exitedAt
  }

  /** resolveOutcome */
  function Resolve(exit: Option<Outcome>, deadlineFired: bool): Outcome {
    if deadlineFired then TimedOut else if exit.Some? then exit.value else Exited(0)
  }

  /** The stage as its context and its process state have it at time `now`. */
  function StageAt(cfg: StageCfg, run: StageRun, cancel: Option<int>, now: int): Stage {
    var fired := cfg.hasTimeout && CtxErr(run.deadline, cancel, now) == DeadlineExceeded;
    Stage(cfg.program, cfg.args, Resolve(run.exit, fired), Normalize(run.stderr), cfg.okCodes, cfg.unchecked)
  }

  /** Every context is consulted after the whole chain has ended. */
  function StagesOf(cfgs: seq<StageCfg>, runs: seq<StageRun>, cancel: Option<int>): (r: seq<Stage>)
    requires |cfgs| == |runs|
    ensures |r| == |cfgs|
    ensures forall i :: 0 <= i < |r| ==> r[i] == StageAt(cfgs[i], runs[i], cancel, ChainEnd(runs) + runs[i].lag)
  {
    var end := ChainEnd(runs);
    seq(|cfgs|, i requires 0 <= i < |cfgs| => StageAt(cfgs[i], runs[i], cancel, end + runs[i].lag))
  }

  // ---- Output ----

  datatype Step = Pipe | Configure | StartProcess | Assign

  /** Everything a run meets: which step of which stage fails first, what the contexts say at the
      three places where they are consulted, and how the stages end. */
  datatype World = World(
    jobMade: bool,
    cancelledBefore: bool,
    faults: seq<Option<Step>>,
    cancelledAfter: bool,
    chainTimedOut: bool,
    cancel: Option<int>,
    runs: seq<StageRun>,
    lastStdout: Bytes,
    mechanism: Mechanism,
    duration: int)

  datatype Verdict =
    | TooFewStages
    | Cancelled
    | NoJob
    | StageFailed(i: nat, step: Step)
    | ChainTimedOut(result: Result)
    | Folded(result: Result)

  /** A pipe can only fail where there is one: not behind the last stage. */
  predicate Fails(world: World, n: nat, i: nat)
    requires i < n == |world.faults|
  {
    world.faults[i].Some? && (world.faults[i].value == Pipe ==> i < n - 1)
  }

  function FirstFailure(world: World, n: nat, from: nat): (i: nat)
    requires from <= n == |world.faults|
    ensures from <= i <= n
    ensures i < n ==> Fails(world, n, i)
    ensures forall j :: from <= j < i ==> !Fails(world, n, j)
    decreases n - from
  {
    if from == n || Fails(world, n, from) then from else FirstFailure(world, n, from + 1)
  }

  /** What stage i does up to the step that fails, or to the end. */
  function StageEvents(n: nat, i: nat, failed: Option<Step>): seq<Event> {
    if failed == Some(Pipe) then []
    else
      (if i < n - 1 then [OpenEnd(2 * i), OpenEnd(2 * i + 1)] else [])
      + (if failed == Some(Configure) || failed == Some(StartProcess) then [] else [StartStage(i)])
  }

  function Built(n: nat, i: nat): seq<Event> {
    if i == 0 then [] else Built(n, i - 1) + StageEvents(n, i - 1, None)
  }

  /** All that is ever built in this world: whole stages, then the one that fails, if one does. */
  function BuiltIn(world: World, n: nat): seq<Event>
    requires n == |world.faults|
  {
    var f := FirstFailure(world, n, 0);
    Built(n, f) + if f < n then StageEvents(n, f, world.faults[f]) else []
  }

  /** Output's verdict in terms of its world, the caller's context winning over everything. */
  function Expected(stages: seq<StageCfg>, world: World, chainName: Bytes): Verdict
    requires |world.faults| == |world.runs| == |stages|
  {
    var n := |stages|;
    var f := FirstFailure(world, n, 0);
    if n < 2 then TooFewStages
    else if world.cancelledBefore then Cancelled
    else if !world.jobMade then NoJob
    else if world.cancelledAfter then Cancelled
    else if f < n then StageFailed(f, world.faults[f].value)
    else if world.chainTimedOut then
      ChainTimedOut(Result(chainName, [], TimedOut, [], [], world.duration, [], world.mechanism))
    else
      var outcomes := StagesOf(stages, world.runs, world.cancel);
      Folded(Attributed(outcomes, world.lastStdout, world.mechanism, world.duration))
  }

  /** When which verdict is given, and what a result holds: the chain's own deadline leaves the bare
      name and a timeout; otherwise stdout is what the last stage wrote, and everything else that of
      the stage that speaks, its stderr as captured, line ends folded. */
  ghost predicate Ruled(v: Verdict, stages: seq<StageCfg>, world: World, chainName: Bytes)
    requires |world.faults| == |world.runs| == |stages|
  {
    var n := |stages|;
    var made := n >= 2 && !world.cancelledBefore && world.jobMade;
    && (v.TooFewStages? <==> n < 2)
    && (v.NoJob? <==> n >= 2 && !world.cancelledBefore && !world.jobMade)
    && (v.Cancelled? <==> (n >= 2 && world.cancelledBefore) || (made && world.cancelledAfter))
    && (v.StageFailed? <==> made && !world.cancelledAfter && !StopsAt(world, n, n))
    && (v.ChainTimedOut? <==> made && !world.cancelledAfter && StopsAt(world, n, n) && world.chainTimedOut)
    && (v.StageFailed? ==> v.i < n && StopsAt(world, n, v.i) && world.faults[v.i] == Some(v.step))
    && (v.ChainTimedOut? || v.Folded? ==>
          v.result.duration == world.duration && v.result.mechanism == world.mechanism)
    && (v.ChainTimedOut? ==>
          && v.result.program == chainName && v.result.outcome == TimedOut
          && v.result.args == [] && v.result.stdout == [] && v.result.stderr == [] && v.result.okCodes == [])
    && (v.Folded? ==>
          && v.result.stdout == world.lastStdout
          && exists i :: 0 <= i < n && SpeaksOf(v.result, StagesOf(stages, world.runs, world.cancel), i)
                         && v.result.program == stages[i].program && v.result.args == stages[i].args
                         && v.result.stderr == Normalize(world.runs[i].stderr))
  }

  lemma ExpectedRules(stages: seq<StageCfg>, world: World, chainName: Bytes)
    requires |world.faults| == |world.runs| == |stages|
    ensures Ruled(Expected(stages, world, chainName), stages, world, chainName)
  {
    hide Attributed, StagesOf, SpeaksOf;
    var v, n := Expected(stages, world, chainName), |stages|;
    if n >= 2 {
      WhatIsBuilt(world, n);
      if StopsAt(world, n, n) { StopsOnce(world, n, n, FirstFailure(world, n, 0)); }
    }
    if v.Folded? {
      FoldedSpeaks(stages, world);
    }
  }

  lemma FoldedSpeaks(stages: seq<StageCfg>, world: World)
    requires |world.runs| == |stages| >= 2
    ensures var outcomes := StagesOf(stages, world.runs, world.cancel);
            var r := Attributed(outcomes, world.lastStdout, world.mechanism, world.duration);
            && r.stdout == world.lastStdout && r.mechanism == world.mechanism && r.duration == world.duration
            && exists i :: 0 <= i < |stages| && SpeaksOf(r, outcomes, i)
                           && r.program == stages[i].program && r.args == stages[i].args
                           && r.stderr == Normalize(world.runs[i].stderr)
  {
    hide Attributed, Speaks;
    var outcomes := StagesOf(stages, world.runs, world.cancel);
    AttributedSpeaks(outcomes, world.lastStdout, world.mechanism, world.duration);
    var r := Attributed(outcomes, world.lastStdout, world.mechanism, world.duration);
    var i :| 0 <= i < |outcomes| && SpeaksOf(r, outcomes, i);
    assert outcomes[i].stderr == Normalize(world.runs[i].stderr);
  }

  /** f is the first stage with a step that fails, or n. */
  ghost predicate StopsAt(world: World, n: nat, f: nat)
    requires n == |world.faults|
  {
    && f <= n
    && (forall j :: 0 <= j < f ==> world.faults[j].None? || (j == n - 1 && world.faults[j] == Some(Pipe)))
    && (f < n ==> world.faults[f].Some? && !(f == n - 1 && world.faults[f] == Some(Pipe)))
  }

  /** What stands in `build` when stage f is the first with a failing step, or n: for each stage before
      it both ends of its pipe, if it is not the last, and the stage; for f itself what precedes the
      step, a failing Assign leaving the stage started. */
  ghost predicate BuildOf(build: seq<Event>, n: nat, f: nat, fault: Option<Step>) {
    var whole := if f < n then f else n - 1;
    && |build| == 3 * whole + (if f < n - 1 && fault != Some(Pipe) then 2 else 0)
                            + (if f == n || fault == Some(Assign) then 1 else 0)
    && (forall i :: 0 <= i < whole ==>
          build[3 * i] == OpenEnd(2 * i) && build[3 * i + 1] == OpenEnd(2 * i + 1) && build[3 * i + 2] == StartStage(i))
    && (f < n - 1 && fault != Some(Pipe) ==> build[3 * f] == OpenEnd(2 * f) && build[3 * f + 1] == OpenEnd(2 * f + 1))
    && (f == n || fault == Some(Assign) ==> build[|build| - 1] == StartStage(whole))
  }

  lemma {:induction false} WholeStages(n: nat, i: nat)
    requires i < n
    ensures |Built(n, i)| == 3 * i
    ensures forall j :: 0 <= j < i ==>
              && Built(n, i)[3 * j] == OpenEnd(2 * j) && Built(n, i)[3 * j + 1] == OpenEnd(2 * j + 1)
              && Built(n, i)[3 * j + 2] == StartStage(j)
  {
    if i > 0 {
      WholeStages(n, i - 1);
      var b, more := Built(n, i - 1), StageEvents(n, i - 1, None);
      assert more == [OpenEnd(2 * (i - 1)), OpenEnd(2 * (i - 1) + 1), StartStage(i - 1)];
      assert Built(n, i) == b + more;
    }
  }

  lemma FirstStops(world: World, n: nat)
    requires n == |world.faults|
    ensures StopsAt(world, n, FirstFailure(world, n, 0))
  {
    var f := FirstFailure(world, n, 0);
    forall j | 0 <= j < f ensures world.faults[j].None? || (j == n - 1 && world.faults[j] == Some(Pipe)) {
      assert !Fails(world, n, j);
    }
  }

  lemma PartlyBuilt(n: nat, f: nat, fault: Option<Step>)
    requires f < n && fault.Some? && !(f == n - 1 && fault == Some(Pipe))
    ensures BuildOf(Built(n, f) + StageEvents(n, f, fault), n, f, fault)
  {
    WholeStages(n, f);
    hide Built;
    var b, more := Built(n, f), StageEvents(n, f, fault);
    var opens := if f < n - 1 && fault != Some(Pipe) then [OpenEnd(2 * f), OpenEnd(2 * f + 1)] else [];
    match fault.value { case Pipe => case Configure => case StartProcess => case Assign => }
    assert more == opens + if fault == Some(Assign) then [StartStage(f)] else [];
    hide StageEvents;
    assert forall k :: 0 <= k < |b| ==> (b + more)[k] == b[k];
    assert forall k :: 0 <= k < |more| ==> (b + more)[|b| + k] == more[k];
  }

  lemma AllBuilt(n: nat)
    requires n >= 2
    ensures BuildOf(Built(n, n), n, n, None)
  {
    WholeStages(n, n - 1);
    assert Built(n, n) == Built(n, n - 1) + [StartStage(n - 1)];
    hide Built;
  }

  lemma WhatIsBuilt(world: World, n: nat)
    requires 2 <= n == |world.faults|
    ensures var f := FirstFailure(world, n, 0);
            StopsAt(world, n, f) && BuildOf(BuiltIn(world, n), n, f, if f < n then world.faults[f] else None)
  {
    hide Built, StageEvents, BuildOf, FirstFailure;
    FirstStops(world, n);
    var f := FirstFailure(world, n, 0);
    if f == n {
      AllBuilt(n);
      assert BuiltIn(world, n) == Built(n, n);
    } else {
      PartlyBuilt(n, f, world.faults[f]);
    }
  }

  /** What the trace holds: exactly that build, and then what is owed for it, in the order of a failure
      or of a success. */
  ghost predicate Traced(trace: seq<Event>, world: World, n: nat)
    requires n == |world.faults|
  {
    && Disciplined(trace)
    && exists f: nat, build ::
         && StopsAt(world, n, f) && BuildsOnly(trace, build)
         && BuildOf(build, n, f, if f < n then world.faults[f] else None)
         && InOrder(trace, if f < n then FailureRank else SuccessRank)
  }

  lemma TraceIs(trace: seq<Event>, world: World, n: nat)
    requires 2 <= n == |world.faults| && Disciplined(trace) && BuildsOnly(trace, BuiltIn(world, n))
    requires InOrder(trace, if FirstFailure(world, n, 0) < n then FailureRank else SuccessRank)
    ensures Traced(trace, world, n)
  {
    hide Disciplined, InOrder, BuildsOnly, BuiltIn, StopsAt, BuildOf;
    WhatIsBuilt(world, n);
  }

  lemma StopsOnce(world: World, n: nat, f: nat, f': nat)
    requires n == |world.faults| && StopsAt(world, n, f) && StopsAt(world, n, f')
    ensures f == f'
  {
  }

  /** For every chain and every world: the verdict, what was built, and the discipline of the rest. */
  method Output(stages: seq<StageCfg>, world: World, chainName: Bytes)
    returns (v: Verdict, trace: seq<Event>)
    requires |world.faults| == |world.runs| == |stages|
    ensures v == Expected(stages, world, chainName)
    ensures Ruled(v, stages, world, chainName)
    ensures |stages| < 2 || world.cancelledBefore || !world.jobMade ==> trace == []
    ensures |stages| >= 2 && !world.cancelledBefore && world.jobMade ==>
              Traced(trace, world, |stages|)
  {
    ExpectedRules(stages, world, chainName);
    trace := [];
    var n := |stages|;
    if n < 2 {
      return TooFewStages, trace;
    }
    if world.cancelledBefore {
      return Cancelled, trace;
    }
    if !world.jobMade {
      return NoJob, trace;
    }
    hide Owing, Disciplined, InOrder, BuiltIn, Attributed, StagesOf, Ruled, BuildsOnly, Traced;
    var parentEnds, started, i;
    trace, parentEnds, started, i := StartAll(world, n);
    if i < n {
      trace := Fail(trace, parentEnds, started);
      TraceIs(trace, world, n);
      return if world.cancelledAfter then Cancelled else StageFailed(i, world.faults[i].value), trace;
    }
    trace := Reap(trace, parentEnds, started);
    TraceIs(trace, world, n);
    if world.cancelledAfter {
      return Cancelled, trace;
    }
    if world.chainTimedOut {
      return ChainTimedOut(Result(chainName, [], TimedOut, [], [], world.duration, [], world.mechanism)), trace;
    }
    var outcomes := StagesOf(stages, world.runs, world.cancel);
    var r := Pipefail.Pipefail(outcomes, world.lastStdout, world.mechanism, world.duration);
    v := Folded(r);
  }

  /** Before turn i of the build loop. */
  ghost predicate BuiltSoFar(world: World, n: nat, i: nat, trace: seq<Event>, parentEnds: seq<nat>, started: seq<nat>)
    requires n == |world.faults|
  {
    && i <= n && trace == Built(n, i) && started == Upto(i)
    && (i < n ==> parentEnds == Upto(2 * i))
    && forall j :: 0 <= j < i ==> !Fails(world, n, j)
  }

  lemma BuiltStart(world: World, n: nat)
    requires n == |world.faults|
    ensures Owing([], [], []) && BuiltSoFar(world, n, 0, [], [], [])
  {
  }

  lemma BuiltMore(world: World, n: nat, i: nat, build: seq<Event>, ends: seq<nat>, running: seq<nat>,
                  trace: seq<Event>, parentEnds: seq<nat>, started: seq<nat>)
    requires i < n == |world.faults| && BuiltSoFar(world, n, i, build, ends, running) && !Fails(world, n, i)
    requires trace == build + StageEvents(n, i, None) && started == Upto(i + 1)
    requires i + 1 < n ==> parentEnds == Upto(2 * (i + 1))
    ensures BuiltSoFar(world, n, i + 1, trace, parentEnds, started)
  {
    hide StageEvents, Upto;
  }

  lemma BuiltStops(world: World, n: nat, i: nat, build: seq<Event>, ends: seq<nat>, running: seq<nat>)
    requires i < n == |world.faults| && BuiltSoFar(world, n, i, build, ends, running) && Fails(world, n, i)
    ensures i == FirstFailure(world, n, 0)
    ensures BuiltIn(world, n) == build + StageEvents(n, i, world.faults[i])
  {
  }

  lemma BuiltAll(world: World, n: nat, build: seq<Event>, ends: seq<nat>, running: seq<nat>)
    requires n == |world.faults| && BuiltSoFar(world, n, n, build, ends, running)
    ensures n == FirstFailure(world, n, 0) && BuiltIn(world, n) == build
  {
    assert build + [] == build;
  }

  /** The build loop: i is the stage that failed, or n. */
  method StartAll(world: World, n: nat)
    returns (trace: seq<Event>, parentEnds: seq<nat>, started: seq<nat>, i: nat)
    requires n == |world.faults|
    ensures Owing(trace, parentEnds, started) && trace == BuiltIn(world, n)
    ensures i == FirstFailure(world, n, 0)
  {
    hide *;
    trace, parentEnds, started, i := [], [], [], 0;
    BuiltStart(world, n);
    while i < n
      invariant i <= n && Owing(trace, parentEnds, started)
      invariant BuiltSoFar(world, n, i, trace, parentEnds, started)
    {
      var failed;
      trace, parentEnds, started, failed := StartNext(world, n, i, trace, parentEnds, started);
      if failed {
        return;
      }
      i := i + 1;
    }
    BuiltAll(world, n, trace, parentEnds, started);
  }

  /** One turn of it in this world. */
  method StartNext(world: World, n: nat, i: nat, build: seq<Event>, ends: seq<nat>, running: seq<nat>)
    returns (trace: seq<Event>, parentEnds: seq<nat>, started: seq<nat>, failed: bool)
    requires i < n == |world.faults| && Owing(build, ends, running) && BuiltSoFar(world, n, i, build, ends, running)
    ensures Owing(trace, parentEnds, started)
    ensures !failed ==> BuiltSoFar(world, n, i + 1, trace, parentEnds, started)
    ensures failed ==> i == FirstFailure(world, n, 0) && trace == BuiltIn(world, n)
  {
    assert ends == Upto(2 * i) && running == Upto(i);
    hide Owing, Upto, StageEvents, Built, BuiltIn, BuiltSoFar, FirstFailure;
    failed := Fails(world, n, i);
    if failed {
      trace, parentEnds, started := StartOne(build, ends, running, n, i, world.faults[i]);
      BuiltStops(world, n, i, build, ends, running);
    } else {
      trace, parentEnds, started := StartOne(build, ends, running, n, i, None);
      BuiltMore(world, n, i, build, ends, running, trace, parentEnds, started);
    }
  }

  function Opened(build: seq<Event>, i: nat): seq<Event> { build + [OpenEnd(2 * i)] + [OpenEnd(2 * i + 1)] }

  method OpenPipe(build: seq<Event>, ends: seq<nat>, started: seq<nat>, i: nat)
    returns (trace: seq<Event>, parentEnds: seq<nat>)
    requires Owing(build, ends, started) && ends == Upto(2 * i)
    ensures Owing(trace, parentEnds, started)
    ensures trace == Opened(build, i) && parentEnds == Upto(2 * (i + 1))
  {
    hide Owing, Upto;
    OpenOwed(build, ends, started, 2 * i);
    trace := build + [OpenEnd(2 * i)];
    parentEnds := ends + [2 * i];
    OpenOwed(trace, parentEnds, started, 2 * i + 1);
    trace := trace + [OpenEnd(2 * i + 1)];
    parentEnds := parentEnds + [2 * i + 1];
  }

  method Spawn(build: seq<Event>, ends: seq<nat>, running: seq<nat>, i: nat)
    returns (trace: seq<Event>, started: seq<nat>)
    requires Owing(build, ends, running) && running == Upto(i)
    ensures Owing(trace, ends, started)
    ensures trace == build + [StartStage(i)] && started == Upto(i + 1)
  {
    hide Owing, Upto;
    StartOwed(build, ends, running, i);
    trace := build + [StartStage(i)];
    started := running + [i];
  }

  /** One turn of the build loop, left at the step that fails. */
  method StartOne(build: seq<Event>, ends: seq<nat>, running: seq<nat>, n: nat, i: nat, fault: Option<Step>)
    returns (trace: seq<Event>, parentEnds: seq<nat>, started: seq<nat>)
    requires i < n && (fault == Some(Pipe) ==> i < n - 1) && Owing(build, ends, running)
    requires ends == Upto(2 * i) && running == Upto(i)
    ensures Owing(trace, parentEnds, started) && trace == build + StageEvents(n, i, fault)
    ensures fault.None? ==> started == Upto(i + 1) && (i + 1 < n ==> parentEnds == Upto(2 * (i + 1)))
  {
    hide Owing, Upto, StageEvents, Opened;
    StageTrace(build, n, i);
    trace, parentEnds, started := build, ends, running;
    if i < n - 1 {
      if fault == Some(Pipe) {
        return;
      }
      trace, parentEnds := OpenPipe(trace, parentEnds, started, i);
    }
    if fault == Some(Configure) || fault == Some(StartProcess) {
      return;
    }
    trace, started := Spawn(trace, parentEnds, started, i);
    // a failed Assign is noticed here, with the stage already running
    assert fault.None? || fault.value.Assign?;
  }

  /** `build` comes first, and nothing is opened or started behind it. */
  ghost predicate BuildsOnly(trace: seq<Event>, build: seq<Event>) {
    build <= trace && forall k :: |build| <= k < |trace| ==> !Build(trace[k])
  }

  lemma TailsBuildNothing(build: seq<Event>, ends: seq<nat>, order: seq<nat>)
    ensures BuildsOnly(FailureTrace(build, ends, order), build)
    ensures BuildsOnly(SuccessTrace(build, ends, order), build)
  {
    BuildsNothing(build, [KillJob] + Closes(ends) + Waits(order) + [CloseJob]);
    BuildsNothing(build, Closes(ends) + Waits(order) + [KillJob] + [CloseJob]);
    assert FailureTrace(build, ends, order) == build + ([KillJob] + Closes(ends) + Waits(order) + [CloseJob]);
    assert SuccessTrace(build, ends, order) == build + (Closes(ends) + Waits(order) + [KillJob] + [CloseJob]);
  }

  lemma BuildsNothing(build: seq<Event>, tail: seq<Event>)
    requires forall k :: 0 <= k < |tail| ==> !Build(tail[k])
    ensures BuildsOnly(build + tail, build)
  {
  }

  /** Everything started: closing, waiting, killing what outlived the chain. */
  method Reap(build: seq<Event>, parentEnds: seq<nat>, started: seq<nat>) returns (trace: seq<Event>)
    requires Owing(build, parentEnds, started)
    ensures Disciplined(trace) && InOrder(trace, SuccessRank) && BuildsOnly(trace, build)
  {
    trace := CloseEnds(build, parentEnds);
    ghost var order;
    trace, order := WaitConcurrently(trace, started);
    trace := trace + [KillJob];
    trace := trace + [CloseJob];   // deferred
    hide Owing, Disciplined, InOrder;
    assert trace == SuccessTrace(build, parentEnds, order);
    TailsBuildNothing(build, parentEnds, order);
    SuccessIsDisciplined(build, parentEnds, started, order);
  }

  /** The fail closure, and the deferred Close of the job. */
  method Fail(build: seq<Event>, parentEnds: seq<nat>, started: seq<nat>) returns (trace: seq<Event>)
    requires Owing(build, parentEnds, started)
    ensures Disciplined(trace) && InOrder(trace, FailureRank) && BuildsOnly(trace, build)
  {
    trace := CloseEnds(build + [KillJob], parentEnds);
    var k := 0;
    while k < |started|
      invariant 0 <= k <= |started|
      invariant trace == build + [KillJob] + Closes(parentEnds) + Waits(started[..k])
    {
      trace := trace + [WaitStage(started[k])];
      k := k + 1;
    }
    assert started[..k] == started;
    trace := trace + [CloseJob];
    assert trace == FailureTrace(build, parentEnds, started);
    TailsBuildNothing(build, parentEnds, started);
    FailureIsDisciplined(build, parentEnds, started);
  }

  method CloseEnds(done: seq<Event>, parentEnds: seq<nat>) returns (trace: seq<Event>)
    ensures trace == done + Closes(parentEnds)
  {
    trace := done;
    var k := 0;
    while k < |parentEnds|
      invariant 0 <= k <= |parentEnds| && trace == done + Closes(parentEnds[..k])
    {
      trace := trace + [CloseEnd(parentEnds[k])];
      k := k + 1;
    }
    assert parentEnds[..k] == parentEnds;
  }

  /** One goroutine a stage: they are waited for in whatever order they end. */
  method WaitConcurrently(done: seq<Event>, started: seq<nat>) returns (trace: seq<Event>, ghost order: seq<nat>)
    ensures multiset(order) == multiset(started) && trace == done + Waits(order)
  {
    trace := done;
    order := [];
    var waiting := multiset(started);
    while waiting != multiset{}
      invariant multiset(order) + waiting == multiset(started)
      invariant trace == done + Waits(order)
      decreases |waiting|
    {
      var s :| s in waiting;
      waiting := waiting - multiset{s};
      trace := trace + [WaitStage(s)];
      order := order + [s];
    }
  }

  function Upto(n: nat): (s: seq<nat>)
    ensures |s| == n && forall i :: 0 <= i < n ==> s[i] == i
  {
    seq(n, i => i)
  }

  lemma StageTrace(build: seq<Event>, n: nat, i: nat)
    requires i < n
    ensures build + StageEvents(n, i, Some(Pipe)) == build
    ensures var built := if i < n - 1 then Opened(build, i) else build;
            && build + StageEvents(n, i, Some(Configure)) == build + StageEvents(n, i, Some(StartProcess)) == built
            && build + StageEvents(n, i, Some(Assign)) == build + StageEvents(n, i, None) == built + [StartStage(i)]
  {
    assert build + [] == build;
    assert build + [OpenEnd(2 * i), OpenEnd(2 * i + 1)] == build + [OpenEnd(2 * i)] + [OpenEnd(2 * i + 1)];
    assert build + ([OpenEnd(2 * i), OpenEnd(2 * i + 1)] + [StartStage(i)])
        == build + [OpenEnd(2 * i)] + [OpenEnd(2 * i + 1)] + [StartStage(i)];
  }

  lemma OpenOwed(build: seq<Event>, ends: seq<nat>, started: seq<nat>, f: nat)
    requires Owing(build, ends, started) && ends == Upto(f)
    ensures Owing(build + [OpenEnd(f)], ends + [f], started) && ends + [f] == Upto(f + 1)
  {
    assert f !in ends && multiset(ends)[f] == 0;
  }

  lemma StartOwed(build: seq<Event>, ends: seq<nat>, started: seq<nat>, i: nat)
    requires Owing(build, ends, started) && started == Upto(i)
    ensures Owing(build + [StartStage(i)], ends, started + [i]) && started + [i] == Upto(i + 1)
  {
    assert i !in started && multiset(started)[i] == 0;
  }

  // ---- Deadlines ----

  /** A stage keeps its exit status (0, if its process left none) if and only if it has no timeout of its
      own, or a cancellation came before its deadline, or every stage of the chain, not only this one,
      had ended by then, the time to the consultation included; otherwise it is timed out. */
  lemma KeepsExitStatusIff(cfgs: seq<StageCfg>, runs: seq<StageRun>, cancel: Option<int>, i: nat)
    requires |cfgs| == |runs| && i < |runs|
    ensures var stage, exit := StagesOf(cfgs, runs, cancel)[i], runs[i].exit;
            var kept :=
              || !cfgs[i].hasTimeout || runs[i].deadline.None?
              || (cancel.Some? && cancel.value < runs[i].deadline.value)
              || forall j :: 0 <= j < |runs| ==> runs[j].exitedAt + runs[i].lag < runs[i].deadline.value;
            && stage.outcome == (if !kept then TimedOut else if exit.Some? then exit.value else Exited(0))
            && (exit.Some? && exit.value != TimedOut ==> (stage.outcome == exit.value <==> kept))
            && stage.program == cfgs[i].program && stage.args == cfgs[i].args
            && stage.okCodes == cfgs[i].okCodes && stage.unchecked == cfgs[i].unchecked
            && stage.stderr == Normalize(runs[i].stderr)
  {
    var end := ChainEnd(runs);
    hide ChainEnd;
    var last :| 0 <= last < |runs| && runs[last].exitedAt == end;
    assert StagesOf(cfgs, runs, cancel)[i] == StageAt(cfgs[i], runs[i], cancel, end + runs[i].lag);
    if runs[i].deadline.Some? && runs[i].deadline.value <= end + runs[i].lag {
      assert !(runs[last].exitedAt + runs[i].lag < runs[i].deadline.value);
    }
  }

  /** When no deadline falls before the end of the chain, every stage keeps its exit status. */
  lemma NoDeadlineNoTimeout(cfgs: seq<StageCfg>, runs: seq<StageRun>, cancel: Option<int>)
    requires |cfgs| == |runs|
    requires forall i :: 0 <= i < |runs| ==> runs[i].exit.Some? && runs[i].exit.value != TimedOut
    requires forall i, j :: 0 <= i < |runs| && 0 <= j < |runs| && cfgs[i].hasTimeout && runs[i].deadline.Some? ==>
               runs[j].exitedAt + runs[i].lag < runs[i].deadline.value
    ensures forall i :: 0 <= i < |runs| ==> StagesOf(cfgs, runs, cancel)[i].outcome == runs[i].exit.value
  {
    hide StagesOf;
    forall i | 0 <= i < |runs| ensures StagesOf(cfgs, runs, cancel)[i].outcome == runs[i].exit.value {
      KeepsExitStatusIff(cfgs, runs, cancel, i);
    }
  }

  /** The family it shuts out: whatever the chain, a checked stage that exited cleanly and in time, so
      that it was clean when it ended, is blamed for the whole chain if another stage ran past its
      deadline, unless a culprit stands to its left. */
  lemma TimelyStageBlamed(cfgs: seq<StageCfg>, runs: seq<StageRun>, i: nat, slow: nat,
                          lastStdout: Bytes, mechanism: Mechanism, duration: int)
    requires |cfgs| == |runs| && i < |cfgs| && slow < |cfgs|
    requires cfgs[i].hasTimeout && !cfgs[i].unchecked && runs[i].exit == Some(Exited(0))
    requires runs[i].deadline.Some? && runs[i].exitedAt < runs[i].deadline.value <= runs[slow].exitedAt
    requires forall j :: 0 <= j < i ==> !Culprit(StagesOf(cfgs, runs, None)[j])
    ensures slow != i && StageAt(cfgs[i], runs[i], None, runs[i].exitedAt).Clean()
    ensures var r := Attributed(StagesOf(cfgs, runs, None), lastStdout, mechanism, duration);
            r.outcome == TimedOut && r.program == cfgs[i].program && !r.Success()
  {
    var stages := StagesOf(cfgs, runs, None);
    KeepsExitStatusIff(cfgs, runs, None, i);
    assert !(runs[slow].exitedAt + runs[i].lag < runs[i].deadline.value);
    assert Culprit(stages[i]);
    assert Speaks(stages, i);
    ExactlyOneSpeaks(stages, i);
  }

  /** Such a world: "a" exits with 0 at 5, well before its deadline at 10, "b" at 20; nothing fails,
      nothing is cancelled, the chain has no deadline, and Output's verdict is that "a" timed out. */
  lemma ShortStageTimesOut() returns (stages: seq<StageCfg>, world: World)
    ensures |stages| == |world.faults| == |world.runs| == 2
    ensures world.runs[0].exit == world.runs[1].exit == Some(Exited(0))
    ensures world.runs[0].deadline == Some(10) && world.runs[0].exitedAt < 10 <= world.runs[1].exitedAt
    ensures var v := Expected(stages, world, []);
            v.Folded? && v.result.outcome == TimedOut && v.result.program == stages[0].program
  {
    stages := [StageCfg([97], [], [], false, true), StageCfg([98], [], [], false, false)];
    var runs := [StageRun(Some(Exited(0)), 5, Some(10), 0, []), StageRun(Some(Exited(0)), 20, None, 0, [])];
    world := World(true, false, [None, None], false, false, None, runs, [], ProcessGroup, 20);
    NeverFailsHere(world);
    TimelyStageBlamed(stages, runs, 0, 1, [], ProcessGroup, 20);
  }

  lemma NeverFailsHere(world: World)
    requires world.faults == [None, None]
    ensures FirstFailure(world, 2, 0) == 2
  {
  }
}
