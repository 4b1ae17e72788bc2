/** The promises of a closed group, for every interleaving of any number of callers. */
module NoOrphan {
  import opened Outcomes
  import opened Job
  import opened GroupMachine
  import opened GroupSafety
  import GroupProgress
  import P = Streaming
  import Safe = StreamingSafety
  import Progress = StreamingProgress

  /** From the moment closed is set, in whatever happens next, nobody joins the job and nobody is
      registered. */
  lemma {:induction false} FrozenOnceClosed(g: Group, run: seq<Action>, h: Group)
    requires Inv(g) && g.closed && IsRun(g, run, h)
    ensures h.closed && h.closer == g.closer
    ensures h.pgids == g.pgids && h.solo == g.solo && h.procs == g.procs && h.starter == g.starter
    decreases |run|
  {
    if run != [] {
      MembersFrozen(g, run[0]);
      InvKept(g, run[0]);
      hide Inv, Apply, Enabled;
      FrozenOnceClosed(Apply(g, run[0]), run[1..], h);
    }
  }

  /** When the Close that set closed has returned, with or without an error, every child a Start ever
      spawned is in the member list that was signalled, or its Start is on the Assign-failure path,
      which ends in the child being killed and waited for. */
  lemma EveryChildAnsweredFor(g: Group, c: Tid)
    requires Reachable(g) && c in g.threads && g.threads[c].CloseReturned?
    ensures g.closed && g.closer == Some(c)
    ensures forall p :: p in g.starter ==>
              g.starter[p] in g.threads &&
              var th := g.threads[g.starter[p]];
              || p in g.pgids || th == StartUncontained(p) || th == StartKilled(p)
              || (th == StartDisposed(p) && p !in g.os.live)
  {
    ReachableInv(g);
    assert ThreadOk(g, c, g.threads[c]);
    forall p | p in g.starter
      ensures g.starter[p] in g.threads &&
              var th := g.threads[g.starter[p]];
              || p in g.pgids || th == StartUncontained(p) || th == StartKilled(p)
              || (th == StartDisposed(p) && p !in g.os.live)
    {
      assert ThreadOk(g, g.starter[p], g.threads[g.starter[p]]);
    }
  }

  /** The kill(2) of this target neither was delivered nor found nobody. */
  ghost predicate Spared(g: Group, answers: seq<Errno>, target: int) {
    var all := Targets(g.pgids, g.solo);
    exists i :: 0 <= i < |answers| <= |all| && all[i] == target && !Gone(answers[i])
  }

  /** However the deliveries went, that Close tried every member, reports the first real error, and
      spares nobody whose own delivery did not fail: a live process is a member, or in a member's
      process group, only where the kill(2) of that very target was refused. */
  lemma EveryMemberTried(g: Group, c: Tid)
    requires Reachable(g) && c in g.threads && g.threads[c].CloseReturned?
    ensures var th := g.threads[c];
            && |th.answers| == |Targets(g.pgids, g.solo)| && th.err == FirstError(th.answers)
            && (forall q :: q in g.os.live && q in g.solo ==> Spared(g, th.answers, q))
            && (forall q :: q in g.os.live ==> q in g.os.group)
            && (forall q :: q in g.os.live && g.os.group[q] in g.pgids ==> Spared(g, th.answers, -g.os.group[q]))
  {
    ReachableInv(g);
    assert ThreadOk(g, c, g.threads[c]);
    assert Progressed(g, g.threads[c]);
    var answers := g.threads[c].answers;
    forall q | q in g.os.live ensures q in g.os.group {}
    forall q | q in g.os.live && q in g.solo ensures Spared(g, answers, q) {
      TargetsAreTheMembers(g.pgids, g.solo, q);
      SparedByAnswer(g, answers, q, q);
    }
    forall q | q in g.os.live && g.os.group[q] in g.pgids ensures Spared(g, answers, -g.os.group[q]) {
      TargetsAreTheMembers(g.pgids, g.solo, -g.os.group[q]);
      SparedByAnswer(g, answers, q, -g.os.group[q]);
    }
  }

  lemma SparedByAnswer(g: Group, answers: seq<Errno>, q: Pid, target: int)
    requires |answers| == |Targets(g.pgids, g.solo)| && Dealt(g.os, Targets(g.pgids, g.solo), answers)
    requires target in Targets(g.pgids, g.solo) && q in Hit(g.os, target)
    ensures Spared(g, answers, target)
  {
    var all := Targets(g.pgids, g.solo);
    var i :| 0 <= i < |all| && all[i] == target;
    assert q in Hit(g.os, all[i]);
  }

  /** The kill(2) of this target was not permitted. */
  ghost predicate NotPermitted(g: Group, answers: seq<Errno>, target: int) {
    var all := Targets(g.pgids, g.solo);
    exists i :: 0 <= i < |answers| <= |all| && all[i] == target && answers[i] == EPERM
  }

  /** After a Close that returned nil a member, or a process in a member's group, is alive only where
      the kill(2) of its target was not permitted: an answer that Close does not report. */
  lemma NilCloseSparesOnlyEperm(g: Group, c: Tid)
    requires Reachable(g) && c in g.threads && g.threads[c].CloseReturned? && g.threads[c].err.None?
    ensures forall q :: q in g.os.live && q in g.solo ==> NotPermitted(g, g.threads[c].answers, q)
    ensures forall q :: q in g.os.live ==> q in g.os.group
    ensures forall q :: q in g.os.live && g.os.group[q] in g.pgids ==>
              NotPermitted(g, g.threads[c].answers, -g.os.group[q])
  {
    EveryMemberTried(g, c);
    var answers := g.threads[c].answers;
    FirstErrorIsFirst(answers);
    hide Reachable;
    forall q | q in g.os.live && q in g.solo ensures NotPermitted(g, answers, q) {
      BenignButSpared(g, answers, q);
    }
    forall q | q in g.os.live && g.os.group[q] in g.pgids ensures NotPermitted(g, answers, -g.os.group[q]) {
      BenignButSpared(g, answers, -g.os.group[q]);
    }
  }

  lemma BenignButSpared(g: Group, answers: seq<Errno>, target: int)
    requires (forall i :: 0 <= i < |answers| ==> Benign(answers[i])) && Spared(g, answers, target)
    ensures NotPermitted(g, answers, target)
  {
    var all := Targets(g.pgids, g.solo);
    var i :| 0 <= i < |answers| <= |all| && all[i] == target && !Gone(answers[i]);
    assert Benign(answers[i]) && answers[i] == EPERM;
  }

  /** No orphan. In every state after the Close that set closed returned without an error and without
      having been refused permission: no live process is a solo member or sits in a member's process
      group, so every assigned child is dead and so is everything it forked; every child a Start ever
      spawned was a member, or its Start is on the Assign-failure path; and a child is still alive only
      if that Start is about to kill it or waits for it to die. */
  lemma NoOrphans(g: Group, c: Tid)
    requires Reachable(g) && c in g.threads && g.threads[c].CloseReturned?
    requires g.threads[c].err.None? && EPERM !in g.threads[c].answers
    ensures g.closed && g.closer == Some(c)
    ensures forall q :: q in g.os.live ==> q in g.os.group && q !in g.solo && g.os.group[q] !in g.pgids
    ensures forall p :: p in g.pgids ==> p in g.os.group && g.os.group[p] == p && p !in g.os.live
    ensures forall p :: p in g.starter ==>
              g.starter[p] in g.threads &&
              var th := g.threads[g.starter[p]];
              p in g.pgids || th == StartUncontained(p) || th == StartKilled(p) || th == StartDisposed(p)
    ensures forall p :: p in g.starter && p in g.os.live && p !in g.pgids ==>
              g.starter[p] in g.threads && g.threads[g.starter[p]] in {StartUncontained(p), StartKilled(p)}
  {
    NilCloseSparesOnlyEperm(g, c);
    EveryChildAnsweredFor(g, c);
    assert forall target :: !NotPermitted(g, g.threads[c].answers, target);
    forall p | p in g.pgids ensures p in g.os.group && g.os.group[p] == p && p !in g.os.live {
      MembersLead(g, p);
    }
  }

  lemma MembersLead(g: Group, p: Pid)
    requires Reachable(g) && p in g.pgids
    ensures p in g.os.group && g.os.group[p] == p
  {
    ReachableInv(g);
    assert Leads(g.os, p);
  }

  /** No step of any interleaving ever panics: every channel of every handle is closed at most once
      and no drain sends on a closed one. */
  lemma NoPanic(g: Group, pid: Pid)
    requires Reachable(g) && pid in g.handles
    ensures !g.handles[pid].ctl.panicked
    ensures g.handles[pid].ctl.done ==> g.handles[pid].ctl.published.Some?
  {
    ReachableInv(g);
    assert Safe.Inv(g.handles[pid]);
  }

  // ---- Close releases every goroutine ----

  /** The steps of one process are steps of the group. */
  function Lift(pid: Pid, run: seq<P.Event>): (r: seq<Action>)
    ensures |r| == |run|
  {
    seq(|run|, i requires 0 <= i < |run| => Handle(pid, run[i].a))
  }

  lemma {:induction false} LiftedRun(g: Group, pid: Pid, run: seq<P.Event>, q: P.Proc)
    requires pid in g.handles && P.IsRun(g.handles[pid], run, q)
    requires forall e :: e in run ==> e.alive == (pid in g.os.live)
    ensures IsRun(g, Lift(pid, run), g.(handles := g.handles[pid := q]))
    decreases |run|
  {
    hide P.Apply, P.Enabled;
    if run == [] {
      assert g.handles[pid := q] == g.handles;
    } else {
      assert run[0] in run;
      var g' := Apply(g, Handle(pid, run[0].a));
      LiftedRun(g', pid, run[1..], q);
      assert Lift(pid, run)[1..] == Lift(pid, run[1..]);
      assert g'.(handles := g'.handles[pid := q]) == g.(handles := g.handles[pid := q]);
    }
  }

  /** Once the Close that set closed has returned, with whatever error, every registered process has
      its stop channel closed, and when it is dead and no process holds its pipes any more its drains
      and its reaper finish on their own, full Lines channel or not: no more than Work further steps
      lead to done. */
  lemma CloseReleases(g: Group, c: Tid, pid: Pid) returns (run: seq<Action>, h: Group)
    requires Reachable(g) && c in g.threads && g.threads[c].CloseReturned?
    requires pid in g.handles && pid !in g.os.live
    requires !g.handles[pid].stdout.writeOpen && !g.handles[pid].stderr.writeOpen
    ensures Progress.TornDown(g.handles[pid])
    ensures IsRun(g, run, h) && |run| <= Progress.Work(g.handles[pid])
    ensures pid in h.handles && h.handles[pid].ctl.done
  {
    StoppedByClose(g, c, pid);
    hide Inv, Reachable, Safe.Inv;
    var events, q := Progress.TeardownCompletes(g.handles[pid]);
    LiftedRun(g, pid, events, q);
    run, h := Lift(pid, events), g.(handles := g.handles[pid := q]);
  }

  /** And whatever the other callers do meanwhile, each such process takes at most Work steps of its
      own, and cannot come to rest before done. */
  lemma CloseReleasesUnderInterference(g: Group, c: Tid, pid: Pid, run: seq<Action>, h: Group)
    requires Reachable(g) && c in g.threads && g.threads[c].CloseReturned?
    requires pid in g.handles && pid !in h.os.live
    requires !g.handles[pid].stdout.writeOpen && !g.handles[pid].stderr.writeOpen
    requires IsRun(g, run, h)
    ensures pid in h.handles
    ensures GroupProgress.HandleSteps(run, pid) + Progress.Work(h.handles[pid]) <= Progress.Work(g.handles[pid])
    ensures h.handles[pid].ctl.done || exists b :: P.Internal(b) && Enabled(h, Handle(pid, b))
  {
    hide Inv, Reachable, Enabled, Apply, IsRun, Safe.Inv, Progress.Work, P.Internal;
    StoppedByClose(g, c, pid);
    ReachableInv(g);
    GroupProgress.HandleBounded(g, run, h, pid);
  }

  lemma StoppedByClose(g: Group, c: Tid, pid: Pid)
    requires Reachable(g) && c in g.threads && g.threads[c].CloseReturned? && pid in g.handles
    ensures g.handles[pid].ctl.stop && Safe.Inv(g.handles[pid])
  {
    ReachableInv(g);
    assert Progressed(g, g.threads[c]) by { assert ThreadOk(g, c, g.threads[c]); }
    var i :| 0 <= i < |g.procs| && g.procs[i] == pid;
    assert g.handles[g.procs[i]].ctl.stop;
    assert Safe.Inv(g.handles[pid]);
  }

  // ---- Lines of a returned handle ----

  /** For a handle that Start returned, Lines is the merged channel exactly when streaming was asked
      for. */
  lemma ReturnedHandleHasLines(g: Group, t: Tid)
    requires Reachable(g) && t in g.threads && g.threads[t].StartReturned?
    ensures g.threads[t].pid in g.handles
    ensures var p := g.handles[g.threads[t].pid]; p.merge.lines.Some? == p.cfg.streamLines
  {
    ReachableInv(g);
    assert ThreadOk(g, t, g.threads[t]);
    assert Safe.Inv(g.handles[g.threads[t].pid]);
  }

  /** For every handle the group lists, the exact condition: a streamed process lacks its channel if
      and only if its Start has registered it and not yet come to launchDrains. */
  lemma ListedLinesIff(g: Group, pid: Pid)
    requires Reachable(g) && pid in g.procs
    ensures pid in g.handles
    ensures g.handles[pid].cfg.streamLines ==>
              (g.handles[pid].merge.lines.None? <==> g.handles[pid].ctl.starter == P.Registered)
  {
    ReachableInv(g);
    assert Safe.Inv(g.handles[pid]);
  }

  /** So it is not true of every handle the group lists: between registration and launchDrains a
      concurrent Processes already hands out a streamed process whose channel is still nil. */
  lemma RegisteredBeforeLines(cfg: P.Config) returns (g: Group)
    requires cfg.Resolved() && cfg.streamLines
    ensures Reachable(g) && g.procs == [1] && 1 in g.handles
    ensures g.handles[1].cfg.streamLines && g.handles[1].merge.lines.None?
  {
    g := OneStarted(cfg);
  }

  /** A group in which one Start has registered its child, process 1. */
  lemma OneStarted(cfg: P.Config) returns (g: Group)
    requires cfg.Resolved()
    ensures Reachable(g) && g.holder.None? && !g.closed
    ensures g.procs == [1] && g.pgids == [1] && g.solo == [] && g.os == Os({1}, map[1 := 1])
    ensures g.handles == map[1 := P.Init(cfg)] && 1 !in g.threads
  {
    NewReachable();
    hide Reachable;
    g := New();
    g := Stepped(g, Call(0, StartCalled(cfg)));
    g := Stepped(g, Lock(0));
    g := Stepped(g, Admit(0, true));
    g := Stepped(g, Spawn(0, 1, true));
    g := Stepped(g, Assign(0, true));
    g := Stepped(g, Register(0));
  }

  /** The case NoOrphans leaves out is real: a child that may not be signalled, such as a set-user-id
      program, is a member, Close returns nil, and it lives. */
  lemma PermissionDenied(cfg: P.Config) returns (g: Group)
    requires cfg.Resolved()
    ensures Reachable(g) && 1 in g.threads && g.threads[1] == CloseReturned(None, [EPERM])
    ensures 1 in g.starter && 1 in g.pgids && 1 in g.os.live
  {
    hide Reachable, P.Init, P.ApplyStop, P.Apply, P.Enabled, Hit;
    g := OneKilling(cfg);
    StartersOf(g);
    g := Stepped(g, Deliver(1, EPERM));
    g := Stepped(g, StopNext(1));
    g := Stepped(g, StopNext(1));
    g := Stepped(g, StopNext(1));
  }

  /** And one in which a Close is about to kill it. */
  lemma OneKilling(cfg: P.Config) returns (g: Group)
    requires cfg.Resolved()
    ensures Reachable(g) && g.pgids == [1] && g.solo == [] && g.os == Os({1}, map[1 := 1])
    ensures g.handles == map[1 := P.Init(cfg)]
    ensures 1 in g.threads && g.threads[1] == CloseKilling([1], [-1], 0, None, [])
  {
    hide Reachable, P.Init, P.ApplyStop, P.Apply, P.Enabled, Hit;
    g := OneStarted(cfg);
    g := Stepped(g, Call(1, CloseCalled));
    g := Stepped(g, Lock(1));
    g := Stepped(g, Mark(1));
    assert Targets([1], []) == [-1];
    g := Stepped(g, Snapshot(1));
  }

  lemma StartersOf(g: Group)
    requires Reachable(g) && 1 in g.handles
    ensures 1 in g.starter
  {
    ReachableInv(g);
  }

  lemma NewReachable()
    ensures Reachable(New())
  {
    assert IsRun(New(), [], New());
  }

  lemma Stepped(g: Group, a: Action) returns (h: Group)
    requires Reachable(g) && Enabled(g, a)
    ensures h == Apply(g, a) && Reachable(h)
  {
    h := Apply(g, a);
    var run :| IsRun(New(), run, g);
    RunSnoc(New(), run, g, a);
  }
}
