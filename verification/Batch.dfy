/** OutputAll (batch.go:61-85): one goroutine a command, gated by a semaphore channel, each writing
    its own slot, in every interleaving. */
module Batch {
  import opened Bytes
  import opened Outcomes

  datatype BatchOutput = BatchOutput(result: Option<Result>, error: Option<Bytes>)

  /** Where the goroutine of one command stands. */
  datatype Pc =
    | NotStarted
    | Acquiring            // at sem <- struct{}{}
    | Running              // inside c.Output, holding a token
    | Returned(value: BatchOutput)
    | Stored               // out[i] written
    | Released             // token given back
    | Done                 // wg.Done called

  datatype State = State(
    cap: nat,              // capacity of sem
    pcs: seq<Pc>,
    out: seq<Option<BatchOutput>>,
    came: seq<seq<BatchOutput>>,   // what the runs of each command came to
    sem: nat,              // tokens taken
    wg: nat,
    started: nat,          // goroutines launched by the loop
    finished: bool)        // OutputAll has returned

  datatype Action =
    | Launch
    | Acquire(i: nat)
    | Finish(i: nat, value: BatchOutput)
    | Store(i: nat)
    | Release(i: nat)
    | Leave(i: nat)
    | Conclude

  function Init(n: nat, concurrency: int): State {
    State(if concurrency < 1 then 1 else concurrency,
          seq(n, i => NotStarted), seq(n, i => None), seq(n, i => []), 0, 0, 0, false)
  }

  predicate At(s: State, i: nat, pc: Pc) { i < |s.pcs| && s.pcs[i] == pc }

  predicate Enabled(s: State, a: Action) {
    match a
    case Launch => s.started < |s.pcs|
    case Acquire(i) => At(s, i, Acquiring) && s.sem < s.cap
    case Finish(i, _) => At(s, i, Running)
    case Store(i) => i < |s.pcs| && s.pcs[i].Returned?
    case Release(i) => At(s, i, Stored)
    case Leave(i) => At(s, i, Released)
    case Conclude => s.started == |s.pcs| && s.wg == 0 && !s.finished
  }

  /** One atomic step. */
  function Apply(s: State, a: Action): State
    requires Shape(s) && Enabled(s, a)
  {
    match a
    case Launch => s.(pcs := s.pcs[s.started := Acquiring], started := s.started + 1, wg := s.wg + 1)
    case Acquire(i) => s.(pcs := s.pcs[i := Running], sem := s.sem + 1)
    case Finish(i, v) => s.(pcs := s.pcs[i := Returned(v)], came := s.came[i := s.came[i] + [v]])
    case Store(i) => s.(pcs := s.pcs[i := Stored], out := s.out[i := Some(s.pcs[i].value)])
    case Release(i) => s.(pcs := s.pcs[i := Released], sem := Less(s.sem))
    case Leave(i) => s.(pcs := s.pcs[i := Done], wg := Less(s.wg))
    case Conclude => s.(finished := true)
  }

  function Less(n: nat): nat { if n == 0 then 0 else n - 1 }

  predicate Shape(s: State) { |s.out| == |s.pcs| == |s.came| && s.started <= |s.pcs| }

  /** s is reached from the start by some interleaving. */
  ghost predicate IsRun(n: nat, concurrency: int, actions: seq<Action>, s: State)
    decreases |actions|
  {
    if actions == [] then s == Init(n, concurrency)
    else
      exists t ::
        && IsRun(n, concurrency, actions[..|actions| - 1], t)
        && Shape(t) && Enabled(t, actions[|actions| - 1]) && s == Apply(t, actions[|actions| - 1])
  }

  // ---- Counting goroutines ----

  function Sum(pcs: seq<Pc>, weight: Pc -> nat): nat {
    if pcs == [] then 0 else Sum(pcs[..|pcs| - 1], weight) + weight(pcs[|pcs| - 1])
  }

  lemma {:induction false} SumUpdate(pcs: seq<Pc>, i: nat, pc: Pc, weight: Pc -> nat)
    requires i < |pcs|
    ensures Sum(pcs[i := pc], weight) == Sum(pcs, weight) - weight(pcs[i]) + weight(pc)
    ensures Sum(pcs, weight) >= weight(pcs[i])
  {
    var n := |pcs| - 1;
    if i < n {
      SumUpdate(pcs[..n], i, pc, weight);
      assert pcs[i := pc][..n] == pcs[..n][i := pc];
    } else {
      assert pcs[i := pc][..n] == pcs[..n];
    }
  }

  lemma {:induction false} SumZero(pcs: seq<Pc>, weight: Pc -> nat)
    ensures Sum(pcs, weight) == 0 <==> forall i :: 0 <= i < |pcs| ==> weight(pcs[i]) == 0
  {
    if pcs != [] {
      var init := pcs[..|pcs| - 1];
      SumZero(init, weight);
      assert forall i :: 0 <= i < |init| ==> pcs[i] == init[i];
    }
  }

  /** A token is held from before the run until after the slot is written. */
  function Holds(pc: Pc): nat { if pc.Running? || pc.Returned? || pc.Stored? then 1 else 0 }

  function Pending(pc: Pc): nat { if pc.NotStarted? || pc.Done? then 0 else 1 }

  function InRun(pc: Pc): nat { if pc.Running? then 1 else 0 }

  /** Steps still ahead of a goroutine. */
  function Ahead(pc: Pc): nat {
    match pc
    case NotStarted => 6 case Acquiring => 5 case Running => 4 case Returned(_) => 3
    case Stored => 2 case Released => 1 case Done => 0
  }

  lemma {:induction false} SumLe(pcs: seq<Pc>, v: Pc -> nat, w: Pc -> nat)
    requires forall p :: v(p) <= w(p)
    ensures Sum(pcs, v) <= Sum(pcs, w)
  {
    if pcs != [] { SumLe(pcs[..|pcs| - 1], v, w); }
  }

  lemma {:induction false} SumUniform(pcs: seq<Pc>, weight: Pc -> nat, k: nat)
    requires forall i :: 0 <= i < |pcs| ==> weight(pcs[i]) == k
    ensures Sum(pcs, weight) == k * |pcs|
  {
    if pcs != [] { SumUniform(pcs[..|pcs| - 1], weight, k); }
  }

  // ---- The invariant ----

  /** Slot, runs and position of one command. */
  predicate SlotOk(pc: Pc, slot: Option<BatchOutput>, came: seq<BatchOutput>) {
    match pc
    case NotStarted => slot == None && came == []
    case Acquiring => slot == None && came == []
    case Running => slot == None && came == []
    case Returned(v) => slot == None && came == [v]
    case _ => slot.Some? && came == [slot.value]
  }

  ghost predicate Inv(s: State) {
    && Shape(s) && s.cap >= 1
    && s.sem == Sum(s.pcs, Holds) <= s.cap
    && s.wg == Sum(s.pcs, Pending)
    && (forall i :: 0 <= i < |s.pcs| ==> (s.pcs[i].NotStarted? <==> i >= s.started))
    && (forall i :: 0 <= i < |s.pcs| ==> SlotOk(s.pcs[i], s.out[i], s.came[i]))
    && (s.finished ==> s.started == |s.pcs| && s.wg == 0)
  }

  lemma InvKept(s: State, a: Action)
    requires Inv(s) && Enabled(s, a)
    ensures Inv(Apply(s, a))
  {
    hide Sum;
    if !a.Conclude? {
      var i := if a.Launch? then s.started else a.i;
      var pc := Apply(s, a).pcs[i];
      SumUpdate(s.pcs, i, pc, Holds);
      SumUpdate(s.pcs, i, pc, Pending);
    }
  }

  lemma InitInv(n: nat, concurrency: int)
    ensures Inv(Init(n, concurrency))
  {
    SumUniform(Init(n, concurrency).pcs, Holds, 0);
    SumUniform(Init(n, concurrency).pcs, Pending, 0);
  }

  ghost predicate Fixed(n: nat, concurrency: int, s: State) {
    |s.pcs| == n && s.cap == if concurrency < 1 then 1 else concurrency
  }

  lemma {:induction false} ReachableInv(n: nat, concurrency: int, actions: seq<Action>, s: State)
    requires IsRun(n, concurrency, actions, s)
    ensures Inv(s) && Fixed(n, concurrency, s)
    decreases |actions|
  {
    if actions == [] {
      InitInv(n, concurrency);
    } else {
      var init, last := actions[..|actions| - 1], actions[|actions| - 1];
      var t :| IsRun(n, concurrency, init, t) && Shape(t) && Enabled(t, last) && s == Apply(t, last);
      ReachableInv(n, concurrency, init, t);
      InvKept(t, last);
    }
  }

  // ---- What it is for ----

  /** In every interleaving, at any moment, at most max(1, concurrency) runs are in flight. */
  lemma InFlightBounded(n: nat, concurrency: int, actions: seq<Action>, s: State)
    requires IsRun(n, concurrency, actions, s)
    ensures Sum(s.pcs, InRun) <= if concurrency < 1 then 1 else concurrency
  {
    ReachableInv(n, concurrency, actions, s);
    SumLe(s.pcs, InRun, Holds);
  }

  /** And so many do run together in some interleaving, as long as there are commands. */
  lemma {:induction false} RunsTogether(n: nat, concurrency: int, m: nat) returns (actions: seq<Action>, s: State)
    requires m <= n && m <= if concurrency < 1 then 1 else concurrency
    ensures IsRun(n, concurrency, actions, s) && Sum(s.pcs, InRun) == m && AllRunning(s, n, m)
  {
    hide IsRun, Sum, Inv, Apply, Enabled, AllRunning, Fixed;
    if m == 0 {
      actions, s := [], Init(n, concurrency);
      NobodyRuns(n, concurrency);
    } else {
      actions, s := RunsTogether(n, concurrency, m - 1);
      ReachableInv(n, concurrency, actions, s);
      InvIsShape(s);
      CapIs(n, concurrency, s);
      actions, s := OneMoreRuns(n, concurrency, actions, s, m - 1);
    }
    RunningIs(s, n, m);
  }

  ghost predicate AllRunning(s: State, n: nat, m: nat) {
    && |s.pcs| == n && s.started == s.sem == m <= n && Sum(s.pcs, InRun) == m
    && forall i :: m <= i < n ==> s.pcs[i].NotStarted?
  }

  lemma RunningIs(s: State, n: nat, m: nat)
    requires AllRunning(s, n, m)
    ensures |s.pcs| == n && s.started == s.sem == m <= n && Sum(s.pcs, InRun) == m
    ensures forall i :: m <= i < n ==> s.pcs[i].NotStarted?
  {
  }

  lemma NobodyRuns(n: nat, concurrency: int)
    ensures AllRunning(Init(n, concurrency), n, 0) && IsRun(n, concurrency, [], Init(n, concurrency))
  {
    SumUniform(Init(n, concurrency).pcs, InRun, 0);
  }

  lemma CapIs(n: nat, concurrency: int, s: State)
    requires Fixed(n, concurrency, s)
    ensures s.cap == if concurrency < 1 then 1 else concurrency
  {
  }

  lemma OneMoreRuns(n: nat, concurrency: int, actions: seq<Action>, s: State, m: nat)
    returns (more: seq<Action>, t: State)
    requires IsRun(n, concurrency, actions, s) && Shape(s) && AllRunning(s, n, m) && m < n && m < s.cap
    ensures IsRun(n, concurrency, more, t) && AllRunning(t, n, m + 1)
  {
    hide IsRun, Sum;
    SumUpdate(s.pcs, m, Acquiring, InRun);
    more, t := OneMore(n, concurrency, actions, s, Launch);
    SumUpdate(t.pcs, m, Pc.Running, InRun);
    more, t := OneMore(n, concurrency, more, t, Acquire(m));
  }

  lemma InvIsShape(s: State)
    requires Inv(s)
    ensures Shape(s)
  {
  }

  lemma OneMore(n: nat, concurrency: int, actions: seq<Action>, s: State, a: Action)
    returns (more: seq<Action>, t: State)
    requires IsRun(n, concurrency, actions, s) && Shape(s) && Enabled(s, a)
    ensures more == actions + [a] && t == Apply(s, a) && IsRun(n, concurrency, more, t) && Shape(t)
  {
    more, t := actions + [a], Apply(s, a);
    assert more[..|actions|] == actions;
  }

  /** No command is ever run twice, and no slot ever holds anything but what its own command came to. */
  lemma AtMostOnce(n: nat, concurrency: int, actions: seq<Action>, s: State, i: nat)
    requires IsRun(n, concurrency, actions, s) && i < n
    ensures |s.pcs| == |s.came| == |s.out| == n && |s.came[i]| <= 1
    ensures s.out[i].Some? ==> s.came[i] == [s.out[i].value]
  {
    ReachableInv(n, concurrency, actions, s);
    assert SlotOk(s.pcs[i], s.out[i], s.came[i]);
  }

  /** When OutputAll returns, every command has been run exactly once and its slot holds the result. */
  lemma ReturnsAll(n: nat, concurrency: int, actions: seq<Action>, s: State, i: nat)
    requires IsRun(n, concurrency, actions, s) && s.finished && i < n
    ensures |s.came| == |s.out| == n && s.out[i].Some? && s.came[i] == [s.out[i].value]
  {
    ReachableInv(n, concurrency, actions, s);
    SumZero(s.pcs, Pending);
    assert Pending(s.pcs[i]) == 0 && !s.pcs[i].NotStarted?;
    assert SlotOk(s.pcs[i], s.out[i], s.came[i]);
  }

  /** While OutputAll has not returned somebody can move, provided a run in flight can end. */
  lemma NotStuck(n: nat, concurrency: int, actions: seq<Action>, s: State, value: BatchOutput) returns (a: Action)
    requires IsRun(n, concurrency, actions, s) && !s.finished
    ensures Enabled(s, a) && (a.Finish? ==> a.value == value)
  {
    ReachableInv(n, concurrency, actions, s);
    a := Next(s, value);
  }

  lemma Next(s: State, value: BatchOutput) returns (a: Action)
    requires Inv(s) && !s.finished
    ensures Enabled(s, a) && (a.Finish? ==> a.value == value)
  {
    hide Sum;
    SumZero(s.pcs, Pending);
    SumZero(s.pcs, Holds);
    if s.started < |s.pcs| {
      a := Launch;
    } else if s.wg == 0 {
      a := Conclude;
    } else if s.sem == 0 {
      var i :| 0 <= i < |s.pcs| && Pending(s.pcs[i]) != 0;
      assert Holds(s.pcs[i]) == 0;
      a := if s.pcs[i].Acquiring? then Acquire(i) else Leave(i);
    } else {
      var i :| 0 <= i < |s.pcs| && Holds(s.pcs[i]) != 0;
      a := if s.pcs[i].Running? then Finish(i, value) else if s.pcs[i].Returned? then Store(i) else Release(i);
    }
  }

  /** Steps left in all. */
  function Left(s: State): nat { Sum(s.pcs, Ahead) + if s.finished then 0 else 1 }

  lemma EveryStepCounts(s: State, a: Action)
    requires Inv(s) && Enabled(s, a)
    ensures Left(Apply(s, a)) == Left(s) - 1
  {
    hide Sum;
    if !a.Conclude? {
      var i := if a.Launch? then s.started else a.i;
      SumUpdate(s.pcs, i, Apply(s, a).pcs[i], Ahead);
    }
  }

  /** No interleaving takes more than six steps a command and one; one that has taken them all has
      returned. */
  lemma {:induction false} RunLength(n: nat, concurrency: int, actions: seq<Action>, s: State)
    requires IsRun(n, concurrency, actions, s)
    ensures |actions| + Left(s) == 6 * n + 1
    decreases |actions|
  {
    if actions == [] {
      SumUniform(s.pcs, Ahead, 6);
    } else {
      var init, last := actions[..|actions| - 1], actions[|actions| - 1];
      var t :| IsRun(n, concurrency, init, t) && Shape(t) && Enabled(t, last) && s == Apply(t, last);
      RunLength(n, concurrency, init, t);
      ReachableInv(n, concurrency, init, t);
      EveryStepCounts(t, last);
    }
  }

  // ---- OutputAll itself ----

  /** A goroutine that is not waiting for a token or over can take its next step. */
  predicate CanMove(pc: Pc, free: bool) { !pc.NotStarted? && !pc.Done? && (pc.Acquiring? ==> free) }

  /** Goroutine i's next step, command i coming to run(i). */
  function StepOf(i: nat, pc: Pc, run: nat -> BatchOutput): Action
    requires !pc.NotStarted? && !pc.Done?
  {
    match pc
    case Acquiring => Acquire(i)
    case Running => Finish(i, run(i))
    case Returned(_) => Store(i)
    case Stored => Release(i)
    case Released => Leave(i)
  }

  predicate StepMatches(a: Action, run: nat -> BatchOutput) { a.Finish? ==> a.value == run(a.i) }

  /** Only run(i) is ever to be found with command i. */
  predicate Faithful(s: State, run: nat -> BatchOutput) {
    Shape(s) && forall i :: 0 <= i < |s.pcs| ==> (s.came[i] == [] || s.came[i] == [run(i)])
  }

  /** Whatever the scheduler picks, the call ends, it is one of the interleavings above, and slot i
      is what command i came to. */
  method OutputAll(n: nat, concurrency: int, run: nat -> BatchOutput)
    returns (out: array<Option<BatchOutput>>, ghost actions: seq<Action>, ghost s: State)
    ensures IsRun(n, concurrency, actions, s) && s.finished && s.out == out[..] && fresh(out)
    ensures out.Length == n && forall i :: 0 <= i < n ==> out[i] == Some(run(i)) && s.came[i] == [run(i)]
  {
    var cap := if concurrency < 1 then 1 else concurrency;
    var pcs := seq(n, i => NotStarted);
    out := new Option<BatchOutput>[n](i => None);
    var sem: nat, wg: nat, started: nat := 0, 0, 0;
    s, actions := Init(n, concurrency), [];
    InitInv(n, concurrency);
    hide Sum, IsRun, Faithful, Inv, Left, StepOf, Apply, Enabled, Shape;
    while started < n || wg > 0
      invariant fresh(out) && out.Length == n && started <= n
      invariant s == State(cap, pcs, out[..], s.came, sem, wg, started, false)
      invariant IsRun(n, concurrency, actions, s) && Inv(s) && Faithful(s, run) && |pcs| == n
      decreases Left(s)
    {
      ghost var a := SomebodyCanMove(s);
      if
      case started < n =>
        Ends(s);
        s, actions := Stepped(n, concurrency, actions, s, Launch, run);
        pcs := pcs[started := Acquiring];
        started, wg := started + 1, wg + 1;
      case exists i :: 0 <= i < n && CanMove(pcs[i], sem < cap) =>
        var i :| 0 <= i < n && CanMove(pcs[i], sem < cap);
        ghost var step := StepOf(i, pcs[i], run);
        pcs, sem, wg := Advance(pcs, out, sem, wg, i, run, s);
        s, actions := Stepped(n, concurrency, actions, s, step, run);
    }
    Ends(s);
    s, actions := Stepped(n, concurrency, actions, s, Conclude, run);
    forall i | 0 <= i < n ensures out[i] == Some(run(i)) && s.came[i] == [run(i)] {
      ReturnsAll(n, concurrency, actions, s, i);
    }
  }

  /** What the two steps of the calling goroutine do. */
  lemma Ends(s: State)
    requires Inv(s) && !s.finished
    ensures Shape(s)
    ensures s.started < |s.pcs| ==>
              && Enabled(s, Launch)
              && Apply(s, Launch) == s.(pcs := s.pcs[s.started := Acquiring], started := s.started + 1, wg := s.wg + 1)
    ensures s.started == |s.pcs| && s.wg == 0 ==> Enabled(s, Conclude) && Apply(s, Conclude) == s.(finished := true)
  {
  }

  /** Goroutine i takes its next step. */
  method Advance(pcs: seq<Pc>, out: array<Option<BatchOutput>>, sem: nat, wg: nat, i: nat, run: nat -> BatchOutput,
                 ghost s: State)
    returns (pcs': seq<Pc>, sem': nat, wg': nat)
    requires Inv(s) && s == State(s.cap, pcs, out[..], s.came, sem, wg, s.started, false)
    requires i < |pcs| && CanMove(pcs[i], sem < s.cap)
    modifies out
    ensures Shape(s) && Enabled(s, StepOf(i, pcs[i], run)) && StepMatches(StepOf(i, pcs[i], run), run)
    ensures var t := Apply(s, StepOf(i, pcs[i], run));
            t == State(s.cap, pcs', out[..], t.came, sem', wg', s.started, false)
  {
    hide Inv;
    Counted(s, i);
    pcs', sem', wg' := pcs, sem, wg;
    match pcs[i] {
      case Acquiring =>
        sem' := sem + 1;
        pcs' := pcs[i := Running];
      case Running =>
        pcs' := pcs[i := Returned(run(i))];
      case Returned(value) =>
        out[i] := Some(value);
        pcs' := pcs[i := Stored];
      case Stored =>
        sem' := sem - 1;
        pcs' := pcs[i := Released];
      case Released =>
        wg' := wg - 1;
        pcs' := pcs[i := Done];
    }
  }

  lemma SomebodyCanMove(s: State) returns (a: Action)
    requires Inv(s) && !s.finished
    ensures Enabled(s, a)
    ensures s.started == |s.pcs| && s.wg > 0 ==> exists i :: 0 <= i < |s.pcs| && CanMove(s.pcs[i], s.sem < s.cap)
  {
    a := Next(s, BatchOutput(None, None));
    if s.started == |s.pcs| && s.wg > 0 {
      assert CanMove(s.pcs[a.i], s.sem < s.cap);
    }
  }

  lemma Counted(s: State, i: nat)
    requires Inv(s) && i < |s.pcs|
    ensures Shape(s)
    ensures s.pcs[i].Stored? ==> s.sem > 0
    ensures s.pcs[i].Released? ==> s.wg > 0
  {
    SumUpdate(s.pcs, i, Done, Holds);
    SumUpdate(s.pcs, i, Done, Pending);
  }

  /** One more step of the run. */
  lemma Stepped(n: nat, concurrency: int, actions: seq<Action>, s: State, a: Action, run: nat -> BatchOutput)
    returns (t: State, more: seq<Action>)
    requires IsRun(n, concurrency, actions, s) && Inv(s) && Faithful(s, run) && Enabled(s, a)
    requires StepMatches(a, run)
    ensures t == Apply(s, a) && more == actions + [a]
    ensures IsRun(n, concurrency, more, t) && Inv(t) && Faithful(t, run) && Left(t) < Left(s)
  {
    t, more := Apply(s, a), actions + [a];
    InvKept(s, a);
    EveryStepCounts(s, a);
    assert more[..|more| - 1] == actions;
    if a.Finish? { assert SlotOk(s.pcs[a.i], s.out[a.i], s.came[a.i]); }
  }
}
