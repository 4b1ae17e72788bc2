/** Nobody in a group waits for ever: whoever holds g.mu can always move on and soon lets go of it,
    and a Close past its critical section returns, whatever everybody else does meanwhile. */
module GroupProgress {
  import opened Outcomes
  import opened Job
  import opened GroupMachine
  import opened GroupSafety
  import P = Streaming
  import Safe = StreamingSafety
  import Progress = StreamingProgress
  import Trace = StreamingTrace

  // ---- The lock has a holder that is inside its section ----

  ghost predicate HolderOk(g: Group) {
    g.holder.Some? ==> g.holder.value in g.threads && InSection(g.threads[g.holder.value])
  }

  /** Steps of a thread before it unlocks. */
  function SectionLeft(th: Thread): nat {
    match th
    case StartLocked(_) => 4 case StartAdmitted(_) => 3 case StartSpawned(_, _) => 2 case StartAssigned(_, _) => 1
    case AdoptLocked(_) => 2 case AdoptMoved(_, _, _) => 1
    case CloseLocked => 1
    case _ => 0
  }

  /** The holder's own step: out of the section, or closer to its end. */
  ghost predicate Closer(g: Group, h: Group, t: Tid)
    requires t in g.threads
  {
    || h.holder.None?
    || (h.holder == Some(t) && t in h.threads && InSection(h.threads[t])
        && SectionLeft(h.threads[t]) < SectionLeft(g.threads[t]))
  }

  lemma OwnStepCloser(g: Group, a: Action, t: Tid)
    requires Enabled(g, a) && g.holder == Some(t) && t in g.threads && InSection(g.threads[t])
    requires OfThread(a) && a.t == t
    ensures Closer(g, Apply(g, a), t)
  {
    hide P.Apply, P.Enabled, P.ApplyStop, P.Init, Hit, Targets, Noted;
  }

  lemma InsideHolds(g: Group, t: Tid)
    requires Core(g) && t in g.threads
    ensures InSection(g.threads[t]) ==> g.holder == Some(t)
  {
    hide Core, Hit, Targets;
    Mine(g, t);
  }

  lemma OthersLeaveHolder(g: Group, a: Action)
    requires Core(g) && HolderOk(g) && Enabled(g, a) && g.holder.Some? && (OfThread(a) ==> Some(a.t) != g.holder)
    ensures Apply(g, a).holder == g.holder
  {
    hide P.Apply, P.Enabled, P.ApplyStop, P.Init, Hit, Targets, Noted, Core;
    if OfThread(a) && a.t in g.threads { InsideHolds(g, a.t); }
  }

  lemma FreeLockStep(g: Group, a: Action)
    requires Core(g) && g.holder.None? && Enabled(g, a)
    ensures HolderOk(Apply(g, a))
  {
    hide P.Apply, P.Enabled, P.ApplyStop, P.Init, Hit, Targets, Noted, Core;
    if OfThread(a) && a.t in g.threads { InsideHolds(g, a.t); }
  }

  lemma HolderKept(g: Group, a: Action)
    requires Core(g) && HolderOk(g) && Enabled(g, a)
    ensures HolderOk(Apply(g, a))
  {
    if g.holder.None? {
      FreeLockStep(g, a);
    } else {
      hide Core, Enabled, Apply, InSection;
      var t := g.holder.value;
      if OfThread(a) && a.t == t {
        OwnStepCloser(g, a, t);
      } else {
        OthersLeaveHolder(g, a);
        OtherThreadsStay(g, a, t);
      }
    }
  }

  lemma {:induction false} RunKeepsHolder(g: Group, run: seq<Action>, h: Group)
    requires Inv(g) && HolderOk(g) && IsRun(g, run, h)
    ensures Inv(h) && HolderOk(h)
    decreases |run|
  {
    if run != [] {
      assert Core(g);
      InvKept(g, run[0]);
      HolderKept(g, run[0]);
      hide Inv, Apply, Enabled, HolderOk;
      RunKeepsHolder(Apply(g, run[0]), run[1..], h);
    }
  }

  lemma ReachableHolder(g: Group)
    requires Reachable(g)
    ensures Inv(g) && HolderOk(g)
  {
    var run :| IsRun(New(), run, g);
    NewInv();
    hide Inv;
    RunKeepsHolder(New(), run, g);
  }

  // ---- The lock is always released ----

  lemma {:induction false} Above(s: set<Pid>) returns (m: Pid)
    ensures forall p :: p in s ==> p < m
  {
    if s == {} {
      m := 1;
    } else {
      var p :| p in s;
      var n := Above(s - {p});
      m := if n > p then n else p + 1;
      forall q | q in s ensures q < m { assert q == p || q in s - {p}; }
    }
  }

  /** The kernel always has a pid to give. */
  lemma FreshPid(g: Group) returns (p: Pid)
    ensures p !in g.os.group
  {
    p := Above(g.os.group.Keys);
  }

  /** Whoever holds the lock can take a step: nothing inside the section waits for anybody. */
  lemma HolderCanMove(g: Group, t: Tid) returns (a: Action)
    requires g.holder == Some(t) && t in g.threads && InSection(g.threads[t])
    ensures Enabled(g, a) && OfThread(a) && a.t == t
  {
    var pid := FreshPid(g);
    match g.threads[t] {
      case StartLocked(_) => a := Admit(t, true);
      case StartAdmitted(_) => a := Spawn(t, pid, true);
      case StartSpawned(_, _) => a := Assign(t, true);
      case StartAssigned(_, _) => a := Register(t);
      case AdoptLocked(_) => a := Move(t, false, false);
      case AdoptMoved(_, _, _) => a := Track(t);
      case CloseLocked => a := Mark(t);
    }
  }

  /** In every reachable state in which g.mu is held: its holder can step, each of its steps unlocks
      or comes closer to it, at most four are left, and no step of anybody else interferes. */
  lemma LockAlwaysReleased(g: Group, t: Tid) returns (a: Action)
    requires Reachable(g) && g.holder == Some(t)
    ensures t in g.threads && 1 <= SectionLeft(g.threads[t]) <= 4
    ensures Enabled(g, a) && OfThread(a) && a.t == t
    ensures forall b :: Enabled(g, b) && OfThread(b) && b.t == t ==> Closer(g, Apply(g, b), t)
    ensures forall b :: Enabled(g, b) && (OfThread(b) ==> b.t != t) ==>
              var h := Apply(g, b);
              h.holder == Some(t) && t in h.threads && h.threads[t] == g.threads[t]
  {
    hide Enabled, Apply, InSection, Closer, Inv, SectionLeft;
    ReachableHolder(g);
    CoreOf(g);
    a := HolderCanMove(g, t);
    SectionBounds(g.threads[t]);
    forall b | Enabled(g, b) && OfThread(b) && b.t == t ensures Closer(g, Apply(g, b), t) {
      OwnStepCloser(g, b, t);
    }
    forall b | Enabled(g, b) && (OfThread(b) ==> b.t != t)
      ensures var h := Apply(g, b); h.holder == Some(t) && t in h.threads && h.threads[t] == g.threads[t]
    {
      OthersLeaveHolder(g, b);
      OtherThreadsStay(g, b, t);
    }
  }

  lemma CoreOf(g: Group)
    requires Inv(g)
    ensures Core(g)
  {
  }

  lemma SectionBounds(th: Thread)
    requires InSection(th)
    ensures 1 <= SectionLeft(th) <= 4
  {
  }

  // ---- Close returns ----

  function Rest(all: nat, done: nat): nat { if done <= all then all - done else 0 }

  /** Steps left of a Close past its critical section. */
  function CloseLeft(g: Group, th: Thread): nat {
    match th
    case CloseMarked(s) => |Targets(g.pgids, g.solo)| + |s| + 3
    case CloseKilling(s, targets, next, _, _) => Rest(|targets|, next) + |s| + 2
    case CloseStopping(s, next, _, _) => Rest(|s|, next) + 1
    case _ => 0
  }

  /** What is known of a thread past the mark in a good state. */
  ghost predicate Closing(g: Group, t: Tid) {
    t in g.threads && g.closed && g.closer == Some(t) && PastMark(g.threads[t]) && Progressed(g, g.threads[t])
  }

  lemma PastMarkIsClosing(g: Group, t: Tid)
    requires Inv(g) && t in g.threads && PastMark(g.threads[t])
    ensures Closing(g, t)
  {
    Mine(g, t);
  }

  /** Its next step, `answer` being what kill(2) would say to the next target. */
  function NextClose(th: Thread, t: Tid, answer: Errno): Action {
    if th.CloseMarked? then Snapshot(t)
    else if th.CloseKilling? && th.next < |th.targets| then Deliver(t, answer)
    else StopNext(t)
  }

  lemma CloseCanMove(g: Group, t: Tid, answer: Errno)
    requires Inv(g) && Closing(g, t) && !g.threads[t].CloseReturned?
    requires var th := g.threads[t];
             th.CloseKilling? && th.next < |th.targets| && answer.ESRCH? ==> Hit(g.os, th.targets[th.next]) == {}
    ensures Enabled(g, NextClose(g.threads[t], t, answer))
  {
    hide Inv, Closing, Progressed, Hit, NextClose, Enabled;
    ClosingParts(g, t);
    var th := g.threads[t];
    if th.CloseMarked? {
      MarkedCanMove(g, t, answer);
    } else if th.CloseKilling? {
      KillingCanMove(g, t, answer);
    } else {
      ListedHaveHandles(g);
      StoppingCanMove(g, t, answer);
    }
  }

  lemma ClosingParts(g: Group, t: Tid)
    requires Closing(g, t)
    ensures t in g.threads && PastMark(g.threads[t])
    ensures g.threads[t].CloseKilling? ==> g.threads[t].next <= |g.threads[t].targets|
    ensures g.threads[t].CloseStopping? ==> g.threads[t].snapshot == g.procs
  {
    hide Hit, Targets, FirstError, Dealt, Stopped;
  }

  lemma ListedHaveHandles(g: Group)
    requires Inv(g)
    ensures forall p :: p in g.procs ==> p in g.handles
  {
    hide Core, KillInv, Safe.Inv;
  }

  lemma MarkedCanMove(g: Group, t: Tid, answer: Errno)
    requires t in g.threads && g.threads[t].CloseMarked?
    ensures Enabled(g, NextClose(g.threads[t], t, answer))
  {
  }

  lemma KillingCanMove(g: Group, t: Tid, answer: Errno)
    requires t in g.threads && g.threads[t].CloseKilling? && g.threads[t].next <= |g.threads[t].targets|
    requires var th := g.threads[t];
             th.next < |th.targets| && answer.ESRCH? ==> Hit(g.os, th.targets[th.next]) == {}
    ensures Enabled(g, NextClose(g.threads[t], t, answer))
  {
    hide Hit;
  }

  lemma StoppingCanMove(g: Group, t: Tid, answer: Errno)
    requires t in g.threads && g.threads[t].CloseStopping?
    requires forall p :: p in g.threads[t].snapshot ==> p in g.handles
    ensures Enabled(g, NextClose(g.threads[t], t, answer))
  {
  }

  lemma OwnCloseStep(g: Group, a: Action, t: Tid)
    requires Closing(g, t) && Enabled(g, a) && OfThread(a) && a.t == t
    ensures var h := Apply(g, a);
            && t in h.threads && PastMark(h.threads[t]) && !g.threads[t].CloseReturned?
            && CloseLeft(h, h.threads[t]) == CloseLeft(g, g.threads[t]) - 1
  {
    hide P.Apply, P.Enabled, P.ApplyStop, P.Init, Hit, Noted, FirstError, Dealt, Stopped, Targets;
    PastMarkMoves(g, a);
    match a {
      case Snapshot(_) =>
      case Deliver(_, _) =>
      case StopNext(_) =>
    }
  }

  function OwnSteps(run: seq<Action>, t: Tid): nat {
    if run == [] then 0 else (if OfThread(run[0]) && run[0].t == t then 1 else 0) + OwnSteps(run[1..], t)
  }

  /** One step of anybody: the Close's own ones count down, all others leave it alone. */
  lemma CloseStep(g: Group, a: Action, t: Tid)
    requires Inv(g) && Closing(g, t) && Enabled(g, a)
    ensures var h := Apply(g, a);
            Inv(h) && Closing(h, t) &&
            CloseLeft(h, h.threads[t]) + (if OfThread(a) && a.t == t then 1 else 0) == CloseLeft(g, g.threads[t])
  {
    InvKept(g, a);
    MembersFrozen(g, a);
    if OfThread(a) && a.t == t {
      OwnCloseStep(g, a, t);
    } else {
      OtherThreadsStay(g, a, t);
    }
    hide Apply, Enabled, Inv;
    PastMarkIsClosing(Apply(g, a), t);
  }

  /** However everybody else interferes, a Close past its critical section has exactly CloseLeft steps
      of its own to take, and until it has returned it can take the next one. */
  lemma {:induction false} CloseBounded(g: Group, run: seq<Action>, h: Group, t: Tid)
    requires Inv(g) && Closing(g, t) && IsRun(g, run, h)
    ensures Inv(h) && Closing(h, t)
    ensures OwnSteps(run, t) + CloseLeft(h, h.threads[t]) == CloseLeft(g, g.threads[t])
    ensures !h.threads[t].CloseReturned? ==> Enabled(h, NextClose(h.threads[t], t, Delivered))
    decreases |run|
  {
    if run == [] {
      if !h.threads[t].CloseReturned? { CloseCanMove(h, t, Delivered); }
    } else {
      CloseStep(g, run[0], t);
      hide Inv, Closing, Apply, Enabled, CloseLeft;
      CloseBounded(Apply(g, run[0]), run[1..], h, t);
    }
  }

  /** And left to itself it returns, whatever kill(2) answers: `kernel` holds the answers. */
  lemma {:induction false} CloseFinishes(g: Group, t: Tid, kernel: seq<Errno>) returns (run: seq<Action>, h: Group)
    requires Inv(g) && Closing(g, t) && |kernel| == |Targets(g.pgids, g.solo)|
    requires forall i :: 0 <= i < |kernel| && kernel[i].ESRCH? ==>
               Hit(g.os, Targets(g.pgids, g.solo)[i]) == {}
    requires Answered(g.threads[t], kernel)
    ensures IsRun(g, run, h) && Inv(h) && Closing(h, t) && OwnSteps(run, t) == |run|
    ensures h.threads[t] == CloseReturned(FirstError(kernel), kernel)
    ensures h.pgids == g.pgids && h.solo == g.solo && h.procs == g.procs
    decreases CloseLeft(g, g.threads[t])
  {
    hide Inv, Apply, Enabled, Hit, Targets, Dealt, Stopped, CloseLeft, FirstError, NextClose;
    var th := g.threads[t];
    if th.CloseReturned? {
      run, h := [], g;
      NothingLeft(g);
    } else {
      var e := if th.CloseKilling? && th.next < |kernel| then kernel[th.next] else Delivered;
      var a := NextClose(th, t, e);
      NextIsOwn(th, t, e);
      CloseCanMove(g, t, e);
      CoreOf(g);
      CloseStep(g, a, t);
      MembersFrozen(g, a);
      AnsweredNext(g, a, t, kernel);
      StillNobody(g, a, t, kernel);
      var rest;
      rest, h := CloseFinishes(Apply(g, a), t, kernel);
      run := [a] + rest;
      RunCons(g, a, rest, h);
      assert run[1..] == rest;
    }
  }

  lemma NothingLeft(g: Group)
    ensures IsRun(g, [], g)
  {
  }

  lemma NextIsOwn(th: Thread, t: Tid, e: Errno)
    ensures var a := NextClose(th, t, e);
            OfThread(a) && a.t == t && (a == Snapshot(t) || a == StopNext(t) || a.Deliver?)
  {
  }

  /** The answers so far are the first ones of `kernel`. */
  ghost predicate Answered(th: Thread, kernel: seq<Errno>) {
    match th
    case CloseKilling(_, _, _, _, answers) => answers <= kernel
    case CloseStopping(_, _, _, answers) => answers == kernel
    case CloseReturned(_, answers) => answers == kernel
    case _ => true
  }

  lemma AnsweredNext(g: Group, a: Action, t: Tid, kernel: seq<Errno>)
    requires Closing(g, t) && Enabled(g, a) && !g.threads[t].CloseReturned? && Answered(g.threads[t], kernel)
    requires |kernel| == |Targets(g.pgids, g.solo)|
    requires var th := g.threads[t];
             a == NextClose(th, t, if th.CloseKilling? && th.next < |kernel| then kernel[th.next] else Delivered)
    ensures t in Apply(g, a).threads && Answered(Apply(g, a).threads[t], kernel)
  {
    hide Hit, Noted, FirstError, Dealt, Stopped, Targets, P.ApplyStop;
    var th := g.threads[t];
    if th.CloseKilling? && th.next < |th.targets| {
      assert kernel[..th.next + 1] == kernel[..th.next] + [kernel[th.next]];
    }
  }

  /** A Close only ever takes processes out of reach. */
  lemma StillNobody(g: Group, a: Action, t: Tid, kernel: seq<Errno>)
    requires Closing(g, t) && Enabled(g, a) && (a == Snapshot(t) || a == StopNext(t) || (a.Deliver? && a.t == t))
    requires forall i :: 0 <= i < |kernel| <= |Targets(g.pgids, g.solo)| && kernel[i].ESRCH? ==>
               Hit(g.os, Targets(g.pgids, g.solo)[i]) == {}
    ensures forall i :: 0 <= i < |kernel| <= |Targets(g.pgids, g.solo)| && kernel[i].ESRCH? ==>
              Hit(Apply(g, a).os, Targets(g.pgids, g.solo)[i]) == {}
  {
    hide Noted, FirstError, Dealt, Stopped, P.ApplyStop;
    var all, os := Targets(g.pgids, g.solo), Apply(g, a).os;
    forall i | 0 <= i < |kernel| <= |all| && kernel[i].ESRCH? ensures Hit(os, all[i]) == {} {
      DeliverHits(g.os, os, all[i]);
    }
  }

  // ---- Handles under interference ----

  /** What one step of the group does to one handle: a step of that process, the closing of its stop
      channel, or nothing. */
  lemma StepOfHandle(g: Group, a: Action, pid: Pid)
    requires Core(g) && Enabled(g, a) && pid in g.handles
    ensures pid in Apply(g, a).handles
    ensures var p, q := g.handles[pid], Apply(g, a).handles[pid];
            if a.Handle? && a.pid == pid then
              p.cfg.Resolved() && P.Enabled(p, a.a, pid in g.os.live) && q == P.Apply(p, a.a, pid in g.os.live)
            else q == p || q == p.(ctl := P.ApplyStop(p.ctl))
  {
    if a.Register? {
      Mine(g, a.t);
      RegisterLeaves(g, a.t, pid);
    } else if a.StopNext? {
      StopNextCases(g, a.t);
      hide ApplyStopNext, P.ApplyStop;
    } else if a.Handle? {
      hide P.Apply, P.Enabled;
    } else {
      HandlesSame(g, a);
      hide Apply;
    }
  }

  lemma RegisterLeaves(g: Group, t: Tid, pid: Pid)
    requires Enabled(g, Register(t)) && ThreadOk(g, t, g.threads[t]) && pid in g.handles
    ensures pid in ApplyRegister(g, t).handles && ApplyRegister(g, t).handles[pid] == g.handles[pid]
  {
  }

  /** Steps the goroutines of one process take in a run of the group. */
  function HandleSteps(run: seq<Action>, pid: Pid): nat {
    if run == [] then 0
    else
      (if run[0].Handle? && run[0].pid == pid && P.Internal(run[0].a) then 1 else 0) + HandleSteps(run[1..], pid)
  }

  /** The actions of one process in a run of the group. */
  function ToldTo(run: seq<Action>, pid: Pid): seq<P.Action> {
    if run == [] then []
    else (if run[0].Handle? && run[0].pid == pid then [run[0].a] else []) + ToldTo(run[1..], pid)
  }

  lemma ToldCons(run: seq<Action>, pid: Pid)
    requires run != []
    ensures var mine := if run[0].Handle? && run[0].pid == pid && !run[0].a.SignalStop? then [run[0].a] else [];
            Trace.WithoutStops(ToldTo(run, pid)) == mine + Trace.WithoutStops(ToldTo(run[1..], pid))
  {
    var rest := ToldTo(run[1..], pid);
    if run[0].Handle? && run[0].pid == pid {
      Trace.ConsFacts(run[0].a, rest);
    } else {
      assert [] + rest == rest && [] + Trace.WithoutStops(rest) == Trace.WithoutStops(rest);
    }
  }

  lemma EventCons(p: P.Proc, e: P.Event, rest: seq<P.Event>, q: P.Proc)
    requires p.cfg.Resolved() && P.Enabled(p, e.a, e.alive) && P.IsRun(P.Apply(p, e.a, e.alive), rest, q)
    ensures P.IsRun(p, [e] + rest, q)
    ensures Trace.WithoutStops(Trace.Actions([e] + rest))
         == (if e.a.SignalStop? then [] else [e.a]) + Trace.WithoutStops(Trace.Actions(rest))
    ensures Progress.InternalSteps([e] + rest) == (if P.Internal(e.a) then 1 else 0) + Progress.InternalSteps(rest)
  {
    hide P.Apply, P.Enabled;
    assert ([e] + rest)[1..] == rest;
    assert Trace.Actions([e] + rest)[1..] == Trace.Actions(rest);
  }

  lemma NoEvent(p: P.Proc)
    requires p.cfg.Resolved()
    ensures P.IsRun(p, [], p) && Progress.InternalSteps([]) == 0
    ensures Trace.WithoutStops(Trace.Actions([])) == [] && forall pid :: Trace.WithoutStops(ToldTo([], pid)) == []
  {
  }

  lemma HandleGood(g: Group, pid: Pid)
    requires Inv(g) && pid in g.handles
    ensures Core(g) && Safe.Inv(g.handles[pid]) && g.handles[pid].cfg.Resolved()
  {
    assert Safe.Inv(g.handles[pid]);
    assert Safe.ControlInv(g.handles[pid]);
  }

  /** Closing stop is an action of the process too. */
  lemma StopIsAction(p: P.Proc)
    requires p.cfg.Resolved()
    ensures P.Enabled(p, P.SignalStop, true) && P.Apply(p, P.SignalStop, true) == p.(ctl := P.ApplyStop(p.ctl))
    ensures !P.Internal(P.SignalStop)
  {
  }

  /** The history of one handle in any run of the group is a run of its process. */
  lemma {:induction false} HandleProjection(g: Group, run: seq<Action>, h: Group, pid: Pid)
    returns (events: seq<P.Event>)
    requires Inv(g) && pid in g.handles && IsRun(g, run, h)
    ensures Inv(h) && pid in h.handles && P.IsRun(g.handles[pid], events, h.handles[pid])
    ensures Progress.InternalSteps(events) == HandleSteps(run, pid)
    ensures Trace.WithoutStops(Trace.Actions(events)) == Trace.WithoutStops(ToldTo(run, pid))
    decreases |run|
  {
    hide Inv, Apply, Enabled, P.Apply, P.Enabled, P.IsRun, P.Internal, P.ApplyStop, Progress.InternalSteps;
    hide Trace.WithoutStops, Trace.Actions, ToldTo;
    HandleGood(g, pid);
    var p := g.handles[pid];
    if run == [] {
      events := [];
      NoEvent(p);
    } else {
      var a := run[0];
      var g' := Apply(g, a);
      InvKept(g, a);
      StepOfHandle(g, a, pid);
      ToldCons(run, pid);
      var rest := HandleProjection(g', run[1..], h, pid);
      if a.Handle? && a.pid == pid {
        events := [P.Event(a.a, pid in g.os.live)] + rest;
        EventCons(p, P.Event(a.a, pid in g.os.live), rest, h.handles[pid]);
      } else if g'.handles[pid] == p {
        events := rest;
      } else {
        StopIsAction(p);
        events := [P.Event(P.SignalStop, true)] + rest;
        EventCons(p, P.Event(P.SignalStop, true), rest, h.handles[pid]);
      }
    }
  }

  /** However the group goes on, the goroutines of a torn-down process take at most Work more steps,
      and while done is not closed and the process is dead one of them can take the next. */
  lemma HandleBounded(g: Group, run: seq<Action>, h: Group, pid: Pid)
    requires Inv(g) && pid in g.handles && Progress.TornDown(g.handles[pid]) && IsRun(g, run, h)
    ensures pid in h.handles && Progress.TornDown(h.handles[pid])
    ensures HandleSteps(run, pid) + Progress.Work(h.handles[pid]) <= Progress.Work(g.handles[pid])
    ensures !h.handles[pid].ctl.done && pid !in h.os.live ==>
              exists b :: P.Internal(b) && Enabled(h, Handle(pid, b))
  {
    hide Inv, Apply, P.Apply, P.Enabled, P.IsRun, P.Internal, Progress.TornDown, Progress.Work, Safe.Inv;
    var events := HandleProjection(g, run, h, pid);
    HandleGood(g, pid);
    HandleGood(h, pid);
    Progress.TeardownBounded(g.handles[pid], events, h.handles[pid]);
    if !h.handles[pid].ctl.done && pid !in h.os.live {
      var b :| P.Internal(b) && P.Enabled(h.handles[pid], b, false);
      assert Enabled(h, Handle(pid, b));
    }
  }
}
