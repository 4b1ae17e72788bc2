/** Group.Signal(SignalKill) (group.go:260-268) under any interference: it takes no lock, so the group may
    grow while it runs. */
module GroupKill {
  import opened Outcomes
  import opened Job
  import opened GroupMachine
  import opened GroupSafety
  import opened GroupProgress
  import P = Streaming

  predicate Killing(th: Thread) { th.KillCalled? || th.KillRunning? || th.KillReturned? }

  /** Every one of them is a target. */
  ghost predicate Covers(targets: seq<int>, pgids: seq<Pid>, solo: seq<Pid>) {
    (forall p :: p in pgids ==> -p in targets) && (forall p :: p in solo ==> p in targets)
  }

  /** No target is anything but a member. */
  ghost predicate OnlyMembers(targets: seq<int>, pgids: seq<Pid>, solo: seq<Pid>) {
    forall x :: x in targets ==> if x < 0 then -x in pgids else x in solo
  }

  /** How far a kill has come that was called when the members were `pgids` and `solo`. */
  ghost predicate KillOk(g: Group, th: Thread, pgids: seq<Pid>, solo: seq<Pid>) {
    match th
    case KillCalled => Covers(Targets(g.pgids, g.solo), pgids, solo)
    case KillRunning(targets, next, err, answers) =>
      && next == |answers| <= |targets| && err == FirstError(answers)
      && Covers(targets, pgids, solo) && OnlyMembers(targets, g.pgids, g.solo) && Dealt(g.os, targets, answers)
    case KillReturned(targets, err, answers) =>
      && |answers| == |targets| && err == FirstError(answers)
      && Covers(targets, pgids, solo) && OnlyMembers(targets, g.pgids, g.solo) && Dealt(g.os, targets, answers)
    case _ => false
  }

  lemma MembersStay(g: Group, a: Action)
    requires Enabled(g, a)
    ensures g.pgids <= Apply(g, a).pgids && g.solo <= Apply(g, a).solo
  {
    hide ApplyLock, ApplyMark, ApplySnapshot, ApplyDeliver, ApplyStopNext, P.Apply, P.Enabled, Hit;
    if a.StopNext? {
      StopNextLists(g, a.t);
    } else if a.Deliver? {
      DeliverLists(g, a.t, a.answer);
    } else if a.Lock? || a.Snapshot? {
      LockLists(g, a.t);
    } else if a.Mark? {
      MarkLists(g, a.t);
    }
  }

  lemma MarkLists(g: Group, t: Tid)
    ensures ApplyMark(g, t).pgids == g.pgids && ApplyMark(g, t).solo == g.solo
  {
  }

  lemma GrownCovers(pgids: seq<Pid>, solo: seq<Pid>, pgids': seq<Pid>, solo': seq<Pid>)
    requires pgids <= pgids' && solo <= solo'
    ensures Covers(Targets(pgids', solo'), pgids, solo)
    ensures OnlyMembers(Targets(pgids', solo'), pgids', solo')
    ensures forall targets :: OnlyMembers(targets, pgids, solo) ==> OnlyMembers(targets, pgids', solo')
  {
    hide Targets;
    forall p | p in pgids ensures -p in Targets(pgids', solo') { TargetsAreTheMembers(pgids', solo', -p); }
    forall p | p in solo ensures p in Targets(pgids', solo') { TargetsAreTheMembers(pgids', solo', p); }
    forall x | x in Targets(pgids', solo') ensures if x < 0 then -x in pgids' else x in solo' {
      TargetsAreTheMembers(pgids', solo', x);
    }
  }

  lemma CoversMore(pgids: seq<Pid>, solo: seq<Pid>, g: Group, h: Group)
    requires Covers(Targets(g.pgids, g.solo), pgids, solo) && g.pgids <= h.pgids && g.solo <= h.solo
    ensures Covers(Targets(h.pgids, h.solo), pgids, solo)
  {
    hide Targets;
    forall p | p in pgids ensures -p in Targets(h.pgids, h.solo) {
      TargetsAreTheMembers(g.pgids, g.solo, -p);
      TargetsAreTheMembers(h.pgids, h.solo, -p);
    }
    forall p | p in solo ensures p in Targets(h.pgids, h.solo) {
      TargetsAreTheMembers(g.pgids, g.solo, p);
      TargetsAreTheMembers(h.pgids, h.solo, p);
    }
  }

  /** What was dealt with stays so, whoever is born or moved meanwhile. */
  lemma DealtStays(g: Group, a: Action, targets: seq<int>, answers: seq<Errno>)
    requires TableOk(g) && Enabled(g, a) && OnlyMembers(targets, g.pgids, g.solo) && Dealt(g.os, targets, answers)
    ensures Dealt(Apply(g, a).os, targets, answers)
  {
    hide Hit, Apply, Enabled;
    var os := Apply(g, a).os;
    forall i | 0 <= i < |answers| <= |targets| && Gone(answers[i]) ensures Hit(os, targets[i]) == {} {
      assert targets[i] in targets;
      StaysDead(g, a, targets[i]);
    }
  }

  lemma BystanderKeepsKilling(g: Group, a: Action, t: Tid, pgids: seq<Pid>, solo: seq<Pid>)
    requires TableOk(g) && Enabled(g, a) && t in g.threads && (OfThread(a) ==> a.t != t)
    requires KillOk(g, g.threads[t], pgids, solo)
    ensures var h := Apply(g, a);
            t in h.threads && h.threads[t] == g.threads[t] && KillOk(h, h.threads[t], pgids, solo)
  {
    hide Apply, Enabled, TableOk, Covers, OnlyMembers, Dealt, Targets;
    var h, th := Apply(g, a), g.threads[t];
    OtherThreadsStay(g, a, t);
    MembersStay(g, a);
    if th.KillCalled? {
      CoversMore(pgids, solo, g, h);
    } else {
      GrownCovers(g.pgids, g.solo, h.pgids, h.solo);
      DealtStays(g, a, th.targets, th.answers);
    }
  }

  lemma OwnKillStep(g: Group, a: Action, t: Tid, pgids: seq<Pid>, solo: seq<Pid>)
    requires Enabled(g, a) && t in g.threads && OfThread(a) && a.t == t
    requires KillOk(g, g.threads[t], pgids, solo)
    ensures var h := Apply(g, a); t in h.threads && KillOk(h, h.threads[t], pgids, solo)
  {
    hide KillOk, Hit, Targets, ApplySnapshot, ApplyDeliver, ApplyStopNext;
    OkIsKilling(g, g.threads[t], pgids, solo);
    KillMoves(g, a);
    if a.Snapshot? {
      KillSnapshot(g, t, pgids, solo);
    } else if a.Deliver? {
      KillDelivers(g, t, a.answer, pgids, solo);
    } else {
      KillEnds(g, t, pgids, solo);
    }
  }

  lemma OkIsKilling(g: Group, th: Thread, pgids: seq<Pid>, solo: seq<Pid>)
    requires KillOk(g, th, pgids, solo)
    ensures Killing(th)
  {
  }

  lemma KillSnapshot(g: Group, t: Tid, pgids: seq<Pid>, solo: seq<Pid>)
    requires Enabled(g, Snapshot(t)) && KillOk(g, g.threads[t], pgids, solo)
    ensures var h := ApplySnapshot(g, t); t in h.threads && KillOk(h, h.threads[t], pgids, solo)
  {
    hide Covers, OnlyMembers, Targets;
    GrownCovers(g.pgids, g.solo, g.pgids, g.solo);
  }

  lemma KillDelivers(g: Group, t: Tid, answer: Errno, pgids: seq<Pid>, solo: seq<Pid>)
    requires Enabled(g, Deliver(t, answer)) && KillOk(g, g.threads[t], pgids, solo)
    ensures var h := ApplyDeliver(g, t, answer); t in h.threads && KillOk(h, h.threads[t], pgids, solo)
  {
    hide Covers, OnlyMembers, Hit, Noted, FirstError, Dealt;
    var th := g.threads[t];
    FirstErrorSnoc(th.answers, answer);
    DeliverDealt(g.os, ApplyDeliver(g, t, answer).os, th.targets, th.answers, answer);
  }

  lemma KillEnds(g: Group, t: Tid, pgids: seq<Pid>, solo: seq<Pid>)
    requires Enabled(g, StopNext(t)) && KillOk(g, g.threads[t], pgids, solo)
    ensures var h := ApplyStopNext(g, t); t in h.threads && KillOk(h, h.threads[t], pgids, solo)
  {
    hide Covers, OnlyMembers, Hit, Dealt, FirstError;
  }

  lemma KillMoves(g: Group, a: Action)
    requires Enabled(g, a) && OfThread(a) && a.t in g.threads && Killing(g.threads[a.t])
    ensures a.Snapshot? || a.Deliver? || a.StopNext?
  {
    hide Hit;
  }

  lemma {:induction false} KillRun(g: Group, run: seq<Action>, h: Group, t: Tid, pgids: seq<Pid>, solo: seq<Pid>)
    requires Inv(g) && IsRun(g, run, h) && t in g.threads && KillOk(g, g.threads[t], pgids, solo)
    ensures Inv(h) && t in h.threads && KillOk(h, h.threads[t], pgids, solo)
    decreases |run|
  {
    hide Inv, Core, TableOk, Apply, Enabled, KillOk;
    if run != [] {
      var a := run[0];
      InvKept(g, a);
      TableOf(g);
      if OfThread(a) && a.t == t {
        OwnKillStep(g, a, t, pgids, solo);
      } else {
        BystanderKeepsKilling(g, a, t, pgids, solo);
      }
      KillRun(Apply(g, a), run[1..], h, t, pgids, solo);
    }
  }

  lemma TableOf(g: Group)
    requires Inv(g)
    ensures TableOk(g)
  {
    hide TableOk;
  }

  /** A kill that was called in g and has returned in h, in whatever company: every member there was at
      the call was tried, and nobody but a member; there is an answer for each target, and the error is
      the first real one; and no process of a target lives, unless that target's own kill(2) neither was
      delivered nor found nobody. */
  lemma KillTriesEverybody(g: Group, run: seq<Action>, h: Group, t: Tid)
    requires Reachable(g) && t in g.threads && g.threads[t].KillCalled? && IsRun(g, run, h)
    requires t in h.threads && h.threads[t].KillReturned?
    ensures var th := h.threads[t];
            && |th.answers| == |th.targets| && th.err == FirstError(th.answers)
            && (forall p :: p in g.pgids ==> -p in th.targets) && (forall p :: p in g.solo ==> p in th.targets)
            && (forall x :: x in th.targets ==> if x < 0 then -x in h.pgids else x in h.solo)
            && forall i :: 0 <= i < |th.targets| && (th.answers[i].Delivered? || th.answers[i].ESRCH?) ==>
                 Hit(h.os, th.targets[i]) == {}
  {
    hide Reachable;
    ReachableInv(g);
    GrownCovers(g.pgids, g.solo, g.pgids, g.solo);
    hide Inv, IsRun, Targets, Hit;
    KillRun(g, run, h, t, g.pgids, g.solo);
  }

  // ---- It returns ----

  /** Steps a kill still takes. */
  function KillLeft(th: Thread): nat {
    match th
    case KillRunning(targets, next, _, _) => (if next <= |targets| then |targets| - next else 0) + 1
    case _ => 0
  }

  /** Past its snapshot, however the group grows, a kill takes exactly as many steps of its own as there
      are targets left, and one, and the next one is always enabled. */
  lemma {:induction false} KillBounded(g: Group, run: seq<Action>, h: Group, t: Tid, pgids: seq<Pid>, solo: seq<Pid>)
    requires Inv(g) && IsRun(g, run, h) && t in g.threads && !g.threads[t].KillCalled?
    requires KillOk(g, g.threads[t], pgids, solo)
    ensures t in h.threads && KillOk(h, h.threads[t], pgids, solo)
    ensures OwnSteps(run, t) + KillLeft(h.threads[t]) == KillLeft(g.threads[t])
    ensures !h.threads[t].KillReturned? ==> Enabled(h, Deliver(t, Delivered)) || Enabled(h, StopNext(t))
    decreases |run|
  {
    hide Inv, Core, TableOk, Apply, Enabled, KillOk, KillLeft;
    if run == [] {
      KillCanMove(h, t, pgids, solo);
    } else {
      var a := run[0];
      InvKept(g, a);
      TableOf(g);
      if OfThread(a) && a.t == t {
        OwnKillStep(g, a, t, pgids, solo);
        KillShrinks(g, a, t, pgids, solo);
      } else {
        BystanderKeepsKilling(g, a, t, pgids, solo);
      }
      KillBounded(Apply(g, a), run[1..], h, t, pgids, solo);
    }
  }

  lemma KillCanMove(h: Group, t: Tid, pgids: seq<Pid>, solo: seq<Pid>)
    requires t in h.threads && KillOk(h, h.threads[t], pgids, solo) && !h.threads[t].KillCalled?
    ensures !h.threads[t].KillReturned? ==> Enabled(h, Deliver(t, Delivered)) || Enabled(h, StopNext(t))
  {
  }

  lemma KillShrinks(g: Group, a: Action, t: Tid, pgids: seq<Pid>, solo: seq<Pid>)
    requires Enabled(g, a) && t in g.threads && OfThread(a) && a.t == t && !g.threads[t].KillCalled?
    requires KillOk(g, g.threads[t], pgids, solo)
    ensures var h := Apply(g, a);
            t in h.threads && !h.threads[t].KillCalled?
            && KillLeft(h.threads[t]) == KillLeft(g.threads[t]) - 1
  {
    KillMoves(g, a);
    hide Hit, Targets, Noted, Covers, OnlyMembers, Dealt, FirstError;
  }

  /** Left to itself from its i-th target on, it returns with all the answers it gets. */
  lemma {:induction false} KillFinishes(g: Group, t: Tid, i: nat, kernel: seq<Errno>)
    returns (run: seq<Action>, h: Group)
    requires t in g.threads && i <= |kernel| == |Targets(g.pgids, g.solo)|
    requires g.threads[t] == KillRunning(Targets(g.pgids, g.solo), i, FirstError(kernel[..i]), kernel[..i])
    requires NobodyBehind(g.os, Targets(g.pgids, g.solo), kernel)
    ensures IsRun(g, run, h) && t in h.threads && h.pgids == g.pgids && h.solo == g.solo && h.procs == g.procs
    ensures h.threads[t] == KillReturned(Targets(g.pgids, g.solo), FirstError(kernel), kernel)
    ensures h.handles == g.handles && h.closed == g.closed && h.holder == g.holder
    decreases |kernel| - i
  {
    hide Targets, FirstError, Noted, Hit, NobodyBehind, IsRun;
    assert kernel[..|kernel|] == kernel;
    if i == |kernel| {
      h := Apply(g, StopNext(t));
      NothingLeft(h);
      run := [StopNext(t)] + [];
      RunCons(g, StopNext(t), [], h);
    } else {
      FirstErrorNext(kernel, i);
      assert kernel[..i + 1] == kernel[..i] + [kernel[i]];
      MayAnswer(g.os, Targets(g.pgids, g.solo), kernel, i);
      var a := Deliver(t, kernel[i]);
      StillNobodyBehind(g, t, kernel[i], kernel);
      var rest;
      rest, h := KillFinishes(Apply(g, a), t, i + 1, kernel);
      run := [a] + rest;
      RunCons(g, a, rest, h);
    }
  }

  /** ESRCH is said only of targets nobody is behind. */
  ghost predicate NobodyBehind(os: Os, targets: seq<int>, kernel: seq<Errno>) {
    forall i :: 0 <= i < |kernel| <= |targets| && kernel[i].ESRCH? ==> Hit(os, targets[i]) == {}
  }

  lemma MayAnswer(os: Os, targets: seq<int>, kernel: seq<Errno>, i: nat)
    requires NobodyBehind(os, targets, kernel) && i < |kernel| <= |targets|
    ensures kernel[i].ESRCH? ==> Hit(os, targets[i]) == {}
  {
  }

  lemma StillNobodyBehind(g: Group, t: Tid, answer: Errno, kernel: seq<Errno>)
    requires Enabled(g, Deliver(t, answer)) && NobodyBehind(g.os, Targets(g.pgids, g.solo), kernel)
    ensures NobodyBehind(ApplyDeliver(g, t, answer).os, Targets(g.pgids, g.solo), kernel)
  {
    hide Targets, Noted;
    var all, os := Targets(g.pgids, g.solo), ApplyDeliver(g, t, answer).os;
    forall i | 0 <= i < |kernel| <= |all| && kernel[i].ESRCH? ensures Hit(os, all[i]) == {} {
      DeliverHits(g.os, os, all[i]);
    }
  }
}
