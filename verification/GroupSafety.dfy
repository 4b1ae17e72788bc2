/** No orphan: what every interleaving of Start, Adopt, Close and kill keeps. */
module GroupSafety {
  import opened Outcomes
  import opened Job
  import opened GroupMachine
  import P = Streaming
  import Safe = StreamingSafety
  import Progress = StreamingProgress

  // ---- The invariant ----

  /** The thread that still answers for a child that is in no member list. */
  predicate Owns(th: Thread, pid: Pid) {
    (th.StartSpawned? || th.StartUncontained? || th.StartKilled? || th.StartDisposed?) && th.pid == pid
  }

  predicate HasChild(th: Thread) {
    th.StartSpawned? || th.StartAssigned? || th.StartUncontained? || th.StartKilled? || th.StartDisposed?
  }

  /** What thread `t` may rely on while it is in state `th`. */
  ghost predicate ThreadOk(g: Group, t: Tid, th: Thread) {
    && (InSection(th) ==> g.holder == Some(t))
    && (Admitted(th) ==> !g.closed)
    && (PastMark(th) ==> g.closer == Some(t))
    && (th.AdoptMoved? && (th.setpgid || th.probe) ==> th.pid in g.os.group)
    && (th.AdoptMoved? && th.setpgid ==> g.os.group[th.pid] == th.pid)
    && (HasChild(th) ==> th.pid in g.starter && g.starter[th.pid] == t && th.pid !in g.handles)
    && (th.StartReturned? ==>
          th.pid in g.handles && g.handles[th.pid].ctl.starter == P.Returned)
    && (th.StartAssigned? ==> th.pid in g.pgids)
    && (th.StartDisposed? ==> th.pid !in g.os.live)
    && (th.StartCalled? || th.StartLocked? || th.StartAdmitted? || th.StartSpawned? || th.StartAssigned? ==>
          th.cfg.Resolved())
  }

  ghost predicate ThreadsOk(g: Group) {
    forall t :: t in g.threads ==> ThreadOk(g, t, g.threads[t])
  }

  ghost predicate TableOk(g: Group) {
    && g.os.live <= g.os.group.Keys
    && (forall p :: p in g.pgids ==> Leads(g.os, p))
    && (forall p :: p in g.solo ==> p in g.os.group)
    && (forall p :: p in g.starter ==> Leads(g.os, p))
    && g.handles.Keys <= g.starter.Keys
  }

  /** A group leader: its process group carries its own pid. */
  predicate Leads(os: Os, p: Pid) { p in os.group && os.group[p] == p }

  ghost predicate CloserOk(g: Group) {
    && (g.closed <==> g.closer.Some?)
    && (g.closer.Some? ==> g.closer.value in g.threads && PastMark(g.threads[g.closer.value]))
  }

  /** Every child a Start ever spawned is a member, or that Start still answers for it. */
  ghost predicate StarterOk(g: Group) {
    forall p :: p in g.starter ==>
      g.starter[p] in g.threads && (p in g.pgids || Owns(g.threads[g.starter[p]], p))
  }

  ghost predicate Core(g: Group) { ThreadsOk(g) && TableOk(g) && CloserOk(g) && StarterOk(g) }

  ghost predicate HandleInv(g: Group) {
    && (forall p :: p in g.procs ==> p in g.handles)
    && (forall p :: p in g.handles ==> p in g.procs && p in g.pgids && p in g.starter)
    && (forall p :: p in g.handles ==> Safe.Inv(g.handles[p]))
  }

  /** Every target tried so far that was delivered to, or not found, reaches no live process any more. */
  ghost predicate Dealt(os: Os, targets: seq<int>, answers: seq<Errno>) {
    forall i :: 0 <= i < |answers| <= |targets| && Gone(answers[i]) ==> Hit(os, targets[i]) == {}
  }

  ghost predicate Stopped(handles: map<Pid, P.Proc>, snapshot: seq<Pid>, n: nat) {
    forall i :: 0 <= i < n <= |snapshot| ==>
      snapshot[i] in handles && handles[snapshot[i]].ctl.stop
  }

  /** How far the Close that set closed has come, and what that means for the members. */
  ghost predicate Progressed(g: Group, th: Thread) {
    var all := Targets(g.pgids, g.solo);
    match th
    case CloseMarked(s) => s == g.procs
    case CloseKilling(s, targets, next, err, answers) =>
      && s == g.procs && targets == all && next == |answers| <= |all|
      && err == FirstError(answers) && Dealt(g.os, all, answers)
    case CloseStopping(s, next, err, answers) =>
      && s == g.procs && |answers| == |all| && err == FirstError(answers) && Dealt(g.os, all, answers)
      && next <= |s| && Stopped(g.handles, s, next)
    case CloseReturned(err, answers) =>
      && |answers| == |all| && err == FirstError(answers) && Dealt(g.os, all, answers)
      && Stopped(g.handles, g.procs, |g.procs|)
    case _ => true
  }

  ghost predicate KillInv(g: Group) {
    g.closer.Some? && g.closer.value in g.threads ==> Progressed(g, g.threads[g.closer.value])
  }

  ghost predicate Inv(g: Group) { Core(g) && HandleInv(g) && KillInv(g) }

  lemma NewInv()
    ensures Inv(New())
  {
  }

  // ---- Core: one lemma an action ----

  /** A step by `actor` (if any) does not invalidate what the other threads rely on. */
  ghost predicate Frame(g: Group, h: Group, actor: Option<Tid>) {
    && (h.holder == g.holder || g.holder.None? || g.holder == actor)
    && (h.closed ==> g.closed || (actor.Some? && g.holder == actor))
    && (h.closer == g.closer || g.closer.None?)
    && (forall p :: p in g.os.group ==> p in h.os.group && (h.os.group[p] == g.os.group[p] || h.os.group[p] == p))
    && (forall p :: p in h.os.live && p !in g.os.live ==> p !in g.os.group)
    && (forall p :: p in g.starter ==> p in h.starter && h.starter[p] == g.starter[p])
    && (forall p :: p in g.pgids ==> p in h.pgids)
    && (h.handles == g.handles || HandlesFrame(g, h, actor))
  }

  ghost predicate HandlesFrame(g: Group, h: Group, actor: Option<Tid>) {
    && (forall p :: p in g.handles ==>
          p in h.handles && (g.handles[p].ctl.starter == P.Returned ==> h.handles[p].ctl.starter == P.Returned))
    && (forall p :: p in h.handles && p !in g.handles ==> p in g.starter && Some(g.starter[p]) == actor)
  }

  lemma OthersOk(g: Group, h: Group, actor: Option<Tid>)
    requires ThreadsOk(g) && TableOk(g) && CloserOk(g) && Frame(g, h, actor)
    ensures forall u :: u in g.threads && Some(u) != actor ==> ThreadOk(h, u, g.threads[u])
  {
    forall u | u in g.threads && Some(u) != actor ensures ThreadOk(h, u, g.threads[u]) {
      var th := g.threads[u];
      assert ThreadOk(g, u, th);
      assert Admitted(th) ==> InSection(th);
    }
  }

  /** The general case: the actor moves to `th`, and the rest of the state is `h`'s. */
  lemma CoreStep(g: Group, h: Group, t: Tid, th: Thread)
    requires Core(g) && h.threads == g.threads[t := th]
    requires Frame(g, h, Some(t)) && ThreadOk(h, t, th) && TableOk(h)
    requires h.closed <==> h.closer.Some?
    requires h.closer.Some? ==>
               (h.closer.value == t && PastMark(th)) || (h.closer == g.closer && h.closer.value != t)
    requires forall p :: p in h.starter && h.starter[p] == t ==> p in h.pgids || Owns(th, p)
    requires forall p :: p in h.starter && h.starter[p] != t ==> p in g.starter
    ensures Core(h)
  {
    OthersOk(g, h, Some(t));
  }

  /** A step that leaves every thread where it is. */
  lemma CoreEnv(g: Group, h: Group)
    requires Core(g) && h == g.(os := h.os, handles := h.handles)
    requires Frame(g, h, None) && TableOk(h)
    ensures Core(h)
  {
    OthersOk(g, h, None);
  }

  /** A thread that starts nothing, holds nothing and touches nothing but its own state. */
  lemma CoreQuiet(g: Group, t: Tid, th: Thread)
    requires Core(g) && ThreadOk(g, t, th)
    requires t in g.threads && HasChild(g.threads[t]) ==>
               g.threads[t].pid in g.pgids || Owns(th, g.threads[t].pid)
    requires g.closer == Some(t) ==> PastMark(th)
    ensures Core(At(g, t, th))
  {
    forall p | p in g.starter && g.starter[p] == t ensures p in g.pgids || Owns(th, p) {
      assert p in g.pgids || Owns(g.threads[t], p);
    }
    CoreStep(g, At(g, t, th), t, th);
  }

  lemma CallCore(g: Group, t: Tid, th: Thread)
    requires Core(g) && Enabled(g, Call(t, th))
    ensures Core(At(g, t, th))
  {
    CoreQuiet(g, t, th);
  }

  lemma Mine(g: Group, t: Tid)
    requires Core(g) && t in g.threads
    ensures ThreadOk(g, t, g.threads[t])
  {
  }

  lemma LockCore(g: Group, t: Tid)
    requires Core(g) && Enabled(g, Lock(t))
    ensures Core(ApplyLock(g, t))
  {
    hide Core, ThreadOk;
    match g.threads[t] {
      case StartCalled(cfg) =>
        assert cfg.Resolved() by { Mine(g, t); CalledResolved(g, t); }
        EnterCore(g, t, StartLocked(cfg));
      case AdoptCalled(pid) => EnterCore(g, t, AdoptLocked(pid));
      case CloseCalled => EnterCore(g, t, CloseLocked);
    }
  }

  lemma CalledResolved(g: Group, t: Tid)
    requires t in g.threads && ThreadOk(g, t, g.threads[t])
    ensures g.threads[t].StartCalled? ==> g.threads[t].cfg.Resolved()
  {
  }

  /** Taking the lock in front of a closed check. */
  lemma EnterCore(g: Group, t: Tid, th: Thread)
    requires Core(g) && g.holder.None? && t in g.threads
    requires Fresh(g.threads[t]) && (th.StartLocked? || th.AdoptLocked? || th.CloseLocked?)
    requires th.StartLocked? ==> th.cfg.Resolved()
    ensures Core(At(g.(holder := Some(t)), t, th))
  {
    hide ThreadsOk;
    Mine(g, t);
    CoreStep(g, At(g.(holder := Some(t)), t, th), t, th);
  }

  /** Leaving the section without having spawned or changed anything. */
  lemma LeaveCore(g: Group, t: Tid, th: Thread)
    requires Core(g) && t in g.threads && InSection(g.threads[t]) && !HasChild(g.threads[t])
    requires th.StartRefused? || th.AdoptRefused? || th.CloseNoop?
    ensures Core(Leave(g, t, th))
  {
    hide ThreadsOk;
    Mine(g, t);
    CoreStep(g, Leave(g, t, th), t, th);
  }

  lemma AdmitCore(g: Group, t: Tid, ok: bool)
    requires Core(g) && Enabled(g, Admit(t, ok))
    ensures Core(ApplyAdmit(g, t, ok))
  {
    hide ThreadsOk;
    Mine(g, t);
    if g.closed || !ok { LeaveCore(g, t, StartRefused); } else { CoreQuiet(g, t, StartAdmitted(g.threads[t].cfg)); }
  }

  lemma SpawnCore(g: Group, t: Tid, pid: Pid, ok: bool)
    requires Core(g) && Enabled(g, Spawn(t, pid, ok))
    ensures Core(ApplySpawn(g, t, pid, ok))
  {
    hide ThreadsOk;
    Mine(g, t);
    if !ok {
      LeaveCore(g, t, StartRefused);
    } else {
      var h := ApplySpawn(g, t, pid, ok);
      CoreStep(g, h, t, h.threads[t]);
    }
  }

  lemma AssignCore(g: Group, t: Tid, ok: bool)
    requires Core(g) && Enabled(g, Assign(t, ok))
    ensures Core(ApplyAssign(g, t, ok))
  {
    hide ThreadsOk;
    Mine(g, t);
    var h := ApplyAssign(g, t, ok);
    CoreStep(g, h, t, h.threads[t]);
  }

  lemma RegisterCore(g: Group, t: Tid)
    requires Core(g) && Enabled(g, Register(t))
    ensures Core(ApplyRegister(g, t))
  {
    hide ThreadsOk;
    Mine(g, t);
    var h := ApplyRegister(g, t);
    CoreStep(g, h, t, h.threads[t]);
  }

  lemma ReturnCore(g: Group, t: Tid)
    requires Core(g) && Enabled(g, Return(t))
    ensures Core(At(g, t, StartReturned(g.threads[t].pid)))
  {
    hide ThreadsOk;
    Mine(g, t);
    CoreQuiet(g, t, StartReturned(g.threads[t].pid));
  }

  lemma ReapChildCore(g: Group, t: Tid)
    requires Core(g) && Enabled(g, ReapChild(t))
    ensures Core(At(g, t, StartDisposed(g.threads[t].pid)))
  {
    hide ThreadsOk;
    Mine(g, t);
    CoreQuiet(g, t, StartDisposed(g.threads[t].pid));
  }

  lemma KillChildCore(g: Group, t: Tid, permitted: bool)
    requires Core(g) && Enabled(g, KillChild(t, permitted))
    ensures Core(Apply(g, KillChild(t, permitted)))
  {
    hide ThreadsOk;
    Mine(g, t);
    var h := Apply(g, KillChild(t, permitted));
    CoreStep(g, h, t, h.threads[t]);
  }

  lemma MoveCore(g: Group, t: Tid, setpgid: bool, probe: bool)
    requires Core(g) && Enabled(g, Move(t, setpgid, probe))
    ensures Core(ApplyMove(g, t, setpgid, probe))
  {
    hide ThreadsOk;
    Mine(g, t);
    if g.closed {
      LeaveCore(g, t, AdoptRefused);
    } else {
      var h := ApplyMove(g, t, setpgid, probe);
      CoreStep(g, h, t, h.threads[t]);
    }
  }

  lemma TrackCore(g: Group, t: Tid)
    requires Core(g) && Enabled(g, Track(t))
    ensures Core(ApplyTrack(g, t))
  {
    hide P.Apply, P.Enabled, P.ApplyStop, P.Init, Targets, Noted;
    hide ThreadsOk;
    Mine(g, t);
    var h := ApplyTrack(g, t);
    CoreStep(g, h, t, h.threads[t]);
  }

  lemma MarkCore(g: Group, t: Tid)
    requires Core(g) && Enabled(g, Mark(t))
    ensures Core(ApplyMark(g, t))
  {
    hide ThreadsOk;
    Mine(g, t);
    if g.closed {
      LeaveCore(g, t, CloseNoop);
    } else {
      var h := ApplyMark(g, t);
      CoreStep(g, h, t, h.threads[t]);
    }
  }

  lemma SnapshotCore(g: Group, t: Tid)
    requires Core(g) && Enabled(g, Snapshot(t))
    ensures Core(ApplySnapshot(g, t))
  {
    hide ThreadsOk;
    Mine(g, t);
    CoreQuiet(g, t, ApplySnapshot(g, t).threads[t]);
  }

  lemma DeliverCore(g: Group, t: Tid, answer: Errno)
    requires Core(g) && Enabled(g, Deliver(t, answer))
    ensures Core(ApplyDeliver(g, t, answer))
  {
    hide Core, Hit, Noted;
    var th := g.threads[t];
    var os := if answer.Delivered? then g.os.(live := g.os.live - Hit(g.os, th.targets[th.next])) else g.os;
    KillingCore(g, t, ApplyDeliver(g, t, answer).threads[t], os);
    assert ApplyDeliver(g, t, answer) == At(g, t, ApplyDeliver(g, t, answer).threads[t]).(os := os);
  }

  /** One step of a broadcast, which may end some processes. */
  lemma KillingCore(g: Group, t: Tid, th: Thread, os: Os)
    requires Core(g) && t in g.threads && os.group == g.os.group && os.live <= g.os.live
    requires (g.threads[t].CloseKilling? && th.CloseKilling?) || (g.threads[t].KillRunning? && th.KillRunning?)
    ensures Core(At(g, t, th).(os := os))
  {
    hide ThreadsOk;
    Mine(g, t);
    CoreStep(g, At(g, t, th).(os := os), t, th);
  }

  lemma StopCore(g: Group, t: Tid)
    requires Core(g) && Enabled(g, StopNext(t))
    ensures Core(ApplyStopNext(g, t))
  {
    hide Core, ApplyStopNext, StopOne;
    StopNextCases(g, t);
    if StopsOne(g.threads[t]) { ReleaseCore(g, t); } else { MoveOnCore(g, t); }
  }

  lemma MoveOnCore(g: Group, t: Tid)
    requires Core(g) && Enabled(g, StopNext(t)) && !StopsOne(g.threads[t])
    ensures Core(At(g, t, MovesOn(g.threads[t])))
  {
    hide ThreadsOk, TableOk, StarterOk, Hit;
    Mine(g, t);
    CoreQuiet(g, t, MovesOn(g.threads[t]));
  }

  lemma ReleaseFrame(handles: map<Pid, P.Proc>, pid: Pid)
    requires pid in handles
    ensures StopOne(handles, pid).Keys == handles.Keys
    ensures forall p :: p in handles ==> StopOne(handles, pid)[p].ctl.starter == handles[p].ctl.starter
  {
  }

  lemma ReleaseCore(g: Group, t: Tid)
    requires Core(g) && Enabled(g, StopNext(t)) && StopsOne(g.threads[t])
    ensures var th := g.threads[t];
            Core(At(g, t, CloseStopping(th.snapshot, th.next + 1, th.err, th.answers))
                   .(handles := StopOne(g.handles, th.snapshot[th.next])))
  {
    hide ThreadsOk, StopOne, Hit;
    Mine(g, t);
    var th := g.threads[t];
    ReleaseFrame(g.handles, th.snapshot[th.next]);
    var next := CloseStopping(th.snapshot, th.next + 1, th.err, th.answers);
    var h := At(g, t, next).(handles := StopOne(g.handles, th.snapshot[th.next]));
    assert forall p :: p in g.handles <==> p in h.handles.Keys;
    CoreStep(g, h, t, next);
  }

  lemma StarterStays(p: P.Proc, a: P.Action, alive: bool)
    requires p.cfg.Resolved() && P.Enabled(p, a, alive) && p.ctl.starter == P.Returned
    ensures P.Apply(p, a, alive).ctl.starter == P.Returned
  {
    hide P.S.Feed, P.S.Texts, P.S.AtEof, P.ApplyRead, P.ApplyEof, P.Emitted, P.Enqueued, P.ApplyReceive, P.ApplyWrite;
  }

  lemma HandleCore(g: Group, pid: Pid, b: P.Action)
    requires Core(g) && Enabled(g, Handle(pid, b))
    ensures Core(Apply(g, Handle(pid, b)))
  {
    var h, alive := Apply(g, Handle(pid, b)), pid in g.os.live;
    assert HandlesFrame(g, h, None) by {
      hide Core, P.Apply, P.Enabled;
      if g.handles[pid].ctl.starter == P.Returned { StarterStays(g.handles[pid], b, alive); }
    }
    hide P.Apply, P.Enabled;
    CoreEnv(g, h);
  }

  lemma TableOf(g: Group)
    requires Core(g)
    ensures TableOk(g)
  {
  }

  lemma BirthCore(g: Group, pid: Pid, group: int)
    requires Core(g) && pid !in g.os.group
    ensures Core(g.(os := Born(g.os, pid, group)))
  {
    hide Core;
    TableOf(g);
    CoreEnv(g, g.(os := Born(g.os, pid, group)));
  }

  lemma DeathCore(g: Group, pid: Pid)
    requires Core(g)
    ensures Core(g.(os := g.os.(live := g.os.live - {pid})))
  {
    hide Core;
    TableOf(g);
    CoreEnv(g, g.(os := g.os.(live := g.os.live - {pid})));
  }

  lemma EnvCore(g: Group, a: Action)
    requires Core(g) && Enabled(g, a) && (a.Fork? || a.Appear? || a.Die?)
    ensures Core(Apply(g, a))
  {
    hide Core;
    match a {
      case Fork(parent, child) => BirthCore(g, child, g.os.group[parent]);
      case Appear(pid, leader) => BirthCore(g, pid, if leader then pid else HOST_GROUP);
      case Die(pid) => DeathCore(g, pid);
    }
  }

  lemma CoreKept(g: Group, a: Action)
    requires Core(g) && Enabled(g, a)
    ensures Core(Apply(g, a))
  {
    hide Core;
    match a {
      case Call(t, th) => CallCore(g, t, th);
      case Lock(t) => LockCore(g, t);
      case Admit(t, ok) => AdmitCore(g, t, ok);
      case Spawn(t, pid, ok) => SpawnCore(g, t, pid, ok);
      case Assign(t, ok) => AssignCore(g, t, ok);
      case Register(t) => RegisterCore(g, t);
      case Return(t) => ReturnCore(g, t);
      case KillChild(t, permitted) => KillChildCore(g, t, permitted);
      case ReapChild(t) => ReapChildCore(g, t);
      case Move(t, setpgid, probe) => MoveCore(g, t, setpgid, probe);
      case Track(t) => TrackCore(g, t);
      case Mark(t) => MarkCore(g, t);
      case Snapshot(t) => SnapshotCore(g, t);
      case Deliver(t, answer) => DeliverCore(g, t, answer);
      case StopNext(t) => StopCore(g, t);
      case Handle(pid, b) => HandleCore(g, pid, b);
      case Fork(parent, child) => EnvCore(g, a);
      case Appear(pid, leader) => EnvCore(g, a);
      case Die(pid) => EnvCore(g, a);
    }
  }

  // ---- Closed groups are frozen ----

  predicate AdmittedStep(a: Action) { a.Spawn? || a.Assign? || a.Register? || a.Track? }

  lemma NoAdmittedStep(g: Group, a: Action)
    requires Core(g) && g.closed && Enabled(g, a)
    ensures !AdmittedStep(a)
  {
    forall t | t in g.threads ensures !Admitted(g.threads[t]) {
      assert ThreadOk(g, t, g.threads[t]);
    }
  }

  /** Everything but the threads, the lock, the handles and the processes. */
  predicate SameLists(g: Group, h: Group) {
    && h.closed == g.closed && h.closer == g.closer
    && h.pgids == g.pgids && h.solo == g.solo && h.procs == g.procs && h.starter == g.starter
  }

  lemma DeliverLists(g: Group, t: Tid, answer: Errno)
    requires Enabled(g, Deliver(t, answer))
    ensures SameLists(g, ApplyDeliver(g, t, answer))
  {
    hide Hit, Noted;
  }

  lemma StopNextLists(g: Group, t: Tid)
    requires Enabled(g, StopNext(t))
    ensures SameLists(g, ApplyStopNext(g, t))
  {
    StopNextCases(g, t);
    hide ApplyStopNext, StopOne, Hit;
  }

  lemma LockLists(g: Group, t: Tid)
    requires t in g.threads
    ensures SameLists(g, ApplyLock(g, t)) && SameLists(g, ApplySnapshot(g, t))
    ensures g.closed ==> SameLists(g, ApplyMark(g, t))
  {
    hide Targets;
  }

  lemma RefusedLists(g: Group, t: Tid)
    requires t in g.threads && g.closed
    ensures g.threads[t].StartLocked? ==> forall ok :: SameLists(g, ApplyAdmit(g, t, ok))
    ensures g.threads[t].AdoptLocked? ==> forall setpgid, probe :: SameLists(g, ApplyMove(g, t, setpgid, probe))
  {
  }

  /** Once closed is set the member lists and the list of handles never change again. */
  lemma MembersFrozen(g: Group, a: Action)
    requires Core(g) && g.closed && Enabled(g, a)
    ensures var h := Apply(g, a);
            && h.closed && h.closer == g.closer
            && h.pgids == g.pgids && h.solo == g.solo && h.procs == g.procs && h.starter == g.starter
  {
    hide Core, ApplyLock, ApplyAdmit, ApplyMove, ApplyMark, ApplySnapshot, ApplyDeliver, ApplyStopNext;
    hide P.Apply, P.Enabled, Hit;
    NoAdmittedStep(g, a);
    if a.Deliver? {
      DeliverLists(g, a.t, a.answer);
    } else if a.StopNext? {
      StopNextLists(g, a.t);
    } else if a.Lock? || a.Snapshot? || a.Mark? {
      LockLists(g, a.t);
    } else if a.Admit? || a.Move? {
      RefusedLists(g, a.t);
    }
  }

  /** A process that comes to life in a closed group is outside every tracked group. */
  lemma DealtKept(g: Group, a: Action, answers: seq<Errno>)
    requires Core(g) && g.closed && Enabled(g, a) && Dealt(g.os, Targets(g.pgids, g.solo), answers)
    ensures Dealt(Apply(g, a).os, Targets(g.pgids, g.solo), answers)
  {
    var all, os := Targets(g.pgids, g.solo), Apply(g, a).os;
    forall i | 0 <= i < |answers| <= |all| && Gone(answers[i]) ensures Hit(os, all[i]) == {} {
      TargetKnown(g, i);
      StaysDead(g, a, all[i]);
    }
  }

  /** A process group with its leader, or a process, that there is or was. */
  predicate Known(os: Os, target: int) { if target < 0 then Leads(os, -target) else target in os.group }

  lemma TargetKnown(g: Group, i: nat)
    requires TableOk(g) && i < |Targets(g.pgids, g.solo)|
    ensures Known(g.os, Targets(g.pgids, g.solo)[i])
  {
    TargetsAreTheMembers(g.pgids, g.solo, Targets(g.pgids, g.solo)[i]);
  }

  /** Where nobody is left nobody comes again, in an open group as in a closed one: pids are not reused,
      and who is born in a process group has a parent in it. */
  lemma StaysDead(g: Group, a: Action, target: int)
    requires TableOk(g) && Enabled(g, a) && Known(g.os, target) && Hit(g.os, target) == {}
    ensures Known(Apply(g, a).os, target) && Hit(Apply(g, a).os, target) == {}
  {
    hide P.Apply, P.Enabled;
    if a.Spawn? {
      hide Hit;
      assert g.os.live <= g.os.group.Keys;
      Newborn(g.os, a.pid, a.pid, target);
    } else if a.Move? {
      Moved(g.os, g.threads[a.t].pid, target);
    } else if a.Fork? {
      hide Hit;
      assert g.os.live <= g.os.group.Keys;
      Newborn(g.os, a.child, g.os.group[a.parent], target);
      GroupHit(g.os, a.parent, target);
    } else if a.Appear? {
      hide Hit;
      assert g.os.live <= g.os.group.Keys;
      Newborn(g.os, a.pid, if a.leader then a.pid else HOST_GROUP, target);
    } else {
      hide Apply, Enabled, TableOk;
      NobodyBorn(g, a);
      FewerHit(g.os, Apply(g, a).os, target);
    }
  }

  /** A process that becomes a leader is alive, so its group was not one where nobody is left. */
  lemma Moved(os: Os, pid: Pid, target: int)
    requires Known(os, target) && Hit(os, target) == {}
    ensures var os' := os.(group := os.group[pid := pid]);
            pid in os.live && pid in os.group ==> Known(os', target) && Hit(os', target) == {}
  {
    var os' := os.(group := os.group[pid := pid]);
    if pid in os.live && pid in os.group {
      assert Hit(os', target) <= Hit(os, target) + {pid};
      assert pid in Hit(os', target) ==> pid in Hit(os, target);
    }
  }

  lemma FewerHit(os: Os, os': Os, target: int)
    requires os'.group == os.group && os'.live <= os.live
    ensures Hit(os', target) <= Hit(os, target)
  {
  }

  /** Nothing but a birth adds a process, and nothing but an admitted Adopt moves one. */
  lemma NobodyBorn(g: Group, a: Action)
    requires Enabled(g, a) && !a.Spawn? && !a.Move? && !a.Fork? && !a.Appear?
    ensures Apply(g, a).os.group == g.os.group && Apply(g, a).os.live <= g.os.live
  {
    hide P.Apply, P.Enabled, P.ApplyStop, P.Init, Targets, Hit, Noted, ApplyStopNext;
    if a.StopNext? {
      StopNextCases(g, a.t);
    }
  }

  lemma GroupHit(os: Os, q: Pid, target: int)
    requires q in os.live && q in os.group
    ensures target < 0 && os.group[q] == -target ==> q in Hit(os, target)
  {
  }

  lemma Newborn(os: Os, child: Pid, group: int, target: int)
    requires Hit(os, target) == {} && child !in os.group && os.live <= os.group.Keys && Known(os, target)
    ensures (target < 0 && group == -target) || Hit(Born(os, child, group), target) == {}
    ensures Known(Born(os, child, group), target)
  {
    if !(target < 0 && group == -target) {
      assert Hit(Born(os, child, group), target) <= Hit(os, target);
    }
  }

  // ---- Handles ----

  lemma StopStays(p: P.Proc, a: P.Action, alive: bool)
    requires p.cfg.Resolved() && P.Enabled(p, a, alive) && p.ctl.stop
    ensures P.Apply(p, a, alive).ctl.stop
  {
  }

  lemma StopKeepsInv(p: P.Proc)
    requires Safe.Inv(p)
    ensures Safe.Inv(p.(ctl := P.ApplyStop(p.ctl)))
    ensures P.ApplyStop(p.ctl).stop
  {
    Safe.InvKept(p, P.SignalStop, true);
    assert Safe.ControlInv(p);
  }

  /** What a step may do to the handles: none is lost, none loses its invariant or its stop. */
  ghost predicate Grown(before: map<Pid, P.Proc>, after: map<Pid, P.Proc>) {
    && before.Keys == after.Keys
    && forall p :: p in before ==> Safe.Inv(after[p]) && (before[p].ctl.stop ==> after[p].ctl.stop)
  }

  ghost predicate AllInv(handles: map<Pid, P.Proc>) { forall p :: p in handles ==> Safe.Inv(handles[p]) }

  lemma GrownAt(handles: map<Pid, P.Proc>, pid: Pid, p: P.Proc)
    requires AllInv(handles) && pid in handles
    requires Safe.Inv(p) && (handles[pid].ctl.stop ==> p.ctl.stop)
    ensures Grown(handles, handles[pid := p])
  {
    hide Safe.Inv;
  }

  lemma HandleStepGrown(g: Group, pid: Pid, b: P.Action)
    requires AllInv(g.handles) && Enabled(g, Handle(pid, b))
    ensures Grown(g.handles, Apply(g, Handle(pid, b)).handles)
  {
    hide Safe.Inv, P.Apply, P.Enabled, Grown;
    var p, alive := g.handles[pid], pid in g.os.live;
    assert Safe.Inv(p);
    hide AllInv;
    Safe.InvKept(p, b, alive);
    if p.ctl.stop { StopStays(p, b, alive); }
    GrownAt(g.handles, pid, P.Apply(p, b, alive));
  }

  function StopOne(handles: map<Pid, P.Proc>, pid: Pid): map<Pid, P.Proc>
    requires pid in handles
  {
    handles[pid := handles[pid].(ctl := P.ApplyStop(handles[pid].ctl))]
  }

  lemma StopOneGrown(handles: map<Pid, P.Proc>, pid: Pid)
    requires AllInv(handles) && pid in handles
    ensures Grown(handles, StopOne(handles, pid))
    ensures pid in StopOne(handles, pid) && StopOne(handles, pid)[pid].ctl.stop
  {
    hide Safe.Inv, P.ApplyStop;
    var p := handles[pid];
    StopKeepsInv(p);
    GrownAt(handles, pid, p.(ctl := P.ApplyStop(p.ctl)));
  }

  predicate StopsOne(th: Thread) { th.CloseStopping? && th.next < |th.snapshot| }

  /** The two kinds of step after a broadcast: release one process, or move on. */
  lemma StopNextCases(g: Group, t: Tid)
    requires Enabled(g, StopNext(t))
    ensures StopsOne(g.threads[t]) ==>
              var th := g.threads[t];
              ApplyStopNext(g, t) == At(g, t, CloseStopping(th.snapshot, th.next + 1, th.err, th.answers))
                                       .(handles := StopOne(g.handles, th.snapshot[th.next]))
    ensures !StopsOne(g.threads[t]) ==> ApplyStopNext(g, t) == At(g, t, MovesOn(g.threads[t]))
  {
  }

  function MovesOn(th: Thread): Thread
    requires th.KillRunning? || th.CloseKilling? || th.CloseStopping?
  {
    if th.KillRunning? then KillReturned(th.targets, th.err, th.answers)
    else if th.CloseKilling? then CloseStopping(th.snapshot, 0, th.err, th.answers)
    else CloseReturned(th.err, th.answers)
  }

  lemma StopNextGrown(g: Group, t: Tid)
    requires AllInv(g.handles) && Enabled(g, StopNext(t))
    ensures Grown(g.handles, ApplyStopNext(g, t).handles)
  {
    hide ApplyStopNext, StopOne, Safe.Inv;
    StopNextCases(g, t);
    var th := g.threads[t];
    if StopsOne(th) { StopOneGrown(g.handles, th.snapshot[th.next]); }
  }

  predicate OfThread(a: Action) { !(a.Handle? || a.Fork? || a.Appear? || a.Die?) }

  /** One thread moves, and no handle. */
  predicate OnlyMoves(g: Group, h: Group, t: Tid) {
    t in h.threads && h.threads == g.threads[t := h.threads[t]] && h.handles == g.handles
  }

  lemma DeliverMoves(g: Group, t: Tid, answer: Errno)
    requires Enabled(g, Deliver(t, answer))
    ensures OnlyMoves(g, ApplyDeliver(g, t, answer), t)
  {
    hide Hit, Noted;
  }

  lemma AdoptMoves(g: Group, t: Tid)
    requires t in g.threads
    ensures g.threads[t].AdoptMoved? ==> OnlyMoves(g, ApplyTrack(g, t), t)
    ensures g.threads[t].AdoptLocked? ==> forall setpgid, probe :: OnlyMoves(g, ApplyMove(g, t, setpgid, probe), t)
  {
  }

  lemma StartMoves(g: Group, t: Tid)
    requires t in g.threads
    ensures g.threads[t].StartLocked? ==> forall ok :: OnlyMoves(g, ApplyAdmit(g, t, ok), t)
    ensures g.threads[t].StartAdmitted? ==> forall pid, ok :: OnlyMoves(g, ApplySpawn(g, t, pid, ok), t)
    ensures g.threads[t].StartSpawned? ==> forall ok :: OnlyMoves(g, ApplyAssign(g, t, ok), t)
  {
  }

  lemma LockMoves(g: Group, t: Tid)
    requires t in g.threads
    ensures OnlyMoves(g, ApplyLock(g, t), t) && OnlyMoves(g, ApplyMark(g, t), t) && OnlyMoves(g, ApplySnapshot(g, t), t)
  {
    hide Targets;
  }

  lemma OthersMove(g: Group, a: Action)
    requires Enabled(g, a) && OfThread(a) && !a.StopNext? && !a.Register?
    ensures OnlyMoves(g, Apply(g, a), a.t)
  {
    hide ApplyLock, ApplyAdmit, ApplySpawn, ApplyAssign, ApplyMove, ApplyTrack, ApplyMark, ApplySnapshot;
    hide ApplyDeliver, Hit;
    if a.Deliver? {
      DeliverMoves(g, a.t, a.answer);
    } else if a.Lock? || a.Mark? || a.Snapshot? {
      LockMoves(g, a.t);
    } else if a.Move? || a.Track? {
      AdoptMoves(g, a.t);
    } else if a.Admit? || a.Spawn? || a.Assign? {
      StartMoves(g, a.t);
    }
  }

  lemma HandlesSame(g: Group, a: Action)
    requires Enabled(g, a) && !a.Handle? && !a.StopNext? && !a.Register?
    ensures Apply(g, a).handles == g.handles
  {
    if OfThread(a) {
      hide Apply, Enabled;
      OthersMove(g, a);
    }
  }

  ghost predicate ListsOnlyGrow(g: Group, h: Group) {
    h.procs == g.procs && g.pgids <= h.pgids && g.starter.Keys <= h.starter.Keys
  }

  lemma ListsGrowAdmitted(g: Group, a: Action)
    requires Enabled(g, a) && (AdmittedStep(a) || a.Lock? || a.Admit? || a.Move? || a.Mark?) && !a.Register?
    ensures ListsOnlyGrow(g, Apply(g, a))
  {
  }

  lemma ListsGrow(g: Group, a: Action)
    requires Enabled(g, a) && !a.Register?
    ensures ListsOnlyGrow(g, Apply(g, a))
  {
    if AdmittedStep(a) || a.Lock? || a.Admit? || a.Move? || a.Mark? { ListsGrowAdmitted(g, a); }
  }

  lemma HandlesGrown(g: Group, a: Action)
    requires AllInv(g.handles) && Enabled(g, a) && !a.Register?
    ensures Grown(g.handles, Apply(g, a).handles)
  {
    if a.Handle? {
      HandleStepGrown(g, a.pid, a.a);
    } else if a.StopNext? {
      StopNextGrown(g, a.t);
    } else {
      HandlesSame(g, a);
      hide Apply, Enabled, Safe.Inv;
    }
  }

  lemma HandleKept(g: Group, a: Action)
    requires Core(g) && HandleInv(g) && Enabled(g, a)
    ensures HandleInv(Apply(g, a))
  {
    var h := Apply(g, a);
    if a.Register? {
      RegisterHandles(g, a.t);
    } else {
      hide Apply, Enabled, Core, Safe.Inv;
      HandlesGrown(g, a);
      ListsGrow(g, a);
      HandleInvGrows(g, h);
    }
  }

  lemma HandleInvGrows(g: Group, h: Group)
    requires HandleInv(g) && Grown(g.handles, h.handles) && ListsOnlyGrow(g, h)
    ensures HandleInv(h)
  {
    hide Safe.Inv;
    assert forall p :: p in g.handles ==> p in g.starter.Keys;
  }

  lemma RegisterHandles(g: Group, t: Tid)
    requires Core(g) && HandleInv(g) && Enabled(g, Register(t))
    ensures HandleInv(ApplyRegister(g, t))
  {
    assert ThreadOk(g, t, g.threads[t]);
    Safe.InitInv(g.threads[t].cfg);
    hide Safe.Inv, P.Init, Core, ThreadOk;
  }

  // ---- Close ----

  lemma StoppedKept(before: map<Pid, P.Proc>, after: map<Pid, P.Proc>, snapshot: seq<Pid>, n: nat)
    requires Grown(before, after) && Stopped(before, snapshot, n)
    ensures Stopped(after, snapshot, n)
  {
    hide Safe.Inv;
  }

  lemma InvParts(g: Group)
    requires Inv(g)
    ensures Core(g) && AllInv(g.handles)
    ensures g.closer.Some? && g.closer.value in g.threads ==> Progressed(g, g.threads[g.closer.value])
  {
    hide Core, Progressed, Safe.Inv;
  }

  /** Steps of everyone but the Close in charge. */
  lemma BystanderKeepsKill(g: Group, a: Action, h: Group)
    requires Inv(g) && Enabled(g, a) && h == Apply(g, a) && g.closed && g.closer.Some? && !a.Register?
    requires g.closer.value in g.threads && PastMark(g.threads[g.closer.value])
    requires g.closer.value in h.threads && h.threads[g.closer.value] == g.threads[g.closer.value]
    ensures KillInv(h)
  {
    hide Apply, Enabled, Inv, Core, AllInv, Grown, Stopped, Dealt, Targets, FirstError;
    InvParts(g);
    var th := g.threads[g.closer.value];
    MembersFrozen(g, a);
    HandlesGrown(g, a);
    if !th.CloseMarked? { DealtKept(g, a, th.answers); }
    if th.CloseStopping? { StoppedKept(g.handles, h.handles, th.snapshot, th.next); }
    if th.CloseReturned? { StoppedKept(g.handles, h.handles, g.procs, |g.procs|); }
  }

  lemma MarkKeepsKill(g: Group, t: Tid)
    requires Inv(g) && Enabled(g, Mark(t)) && !g.closed
    ensures KillInv(ApplyMark(g, t))
  {
  }

  lemma SnapshotKeepsKill(g: Group, t: Tid)
    requires Inv(g) && Enabled(g, Snapshot(t)) && g.closer == Some(t)
    ensures KillInv(ApplySnapshot(g, t))
  {
    hide HandleInv, Targets, Hit, Stopped;
  }

  lemma CloserPastMark(g: Group)
    requires Core(g) && g.closer.Some?
    ensures g.closer.value in g.threads && PastMark(g.threads[g.closer.value])
  {
  }

  lemma DeliverKeepsKill(g: Group, t: Tid, answer: Errno)
    requires Inv(g) && Enabled(g, Deliver(t, answer)) && g.closer == Some(t)
    ensures KillInv(ApplyDeliver(g, t, answer))
  {
    hide Core, HandleInv, Targets, Hit, Stopped, Dealt, FirstError;
    CloserPastMark(g);
    var th := g.threads[t];
    FirstErrorSnoc(th.answers, answer);
    DeliverDealt(g.os, ApplyDeliver(g, t, answer).os, th.targets, th.answers, answer);
  }

  lemma FirstErrorSnoc(answers: seq<Errno>, e: Errno)
    ensures FirstError(answers + [e]) == Noted(FirstError(answers), e)
  {
    assert (answers + [e])[..|answers|] == answers;
  }

  /** One more target is dealt with when the signal was delivered, or when there was nobody to deliver
      it to; any other answer says nothing about it and takes nothing back. */
  lemma DeliverDealt(os: Os, os': Os, targets: seq<int>, answers: seq<Errno>, answer: Errno)
    requires |answers| < |targets| && Dealt(os, targets, answers) && os'.group == os.group
    requires os'.live == if answer.Delivered? then os.live - Hit(os, targets[|answers|]) else os.live
    requires answer.ESRCH? ==> Hit(os, targets[|answers|]) == {}
    ensures Dealt(os', targets, answers + [answer])
  {
    hide Hit;
    var more := answers + [answer];
    forall i | 0 <= i < |more| && Gone(more[i]) ensures Hit(os', targets[i]) == {} {
      assert i < |answers| ==> more[i] == answers[i];
      DeliverHits(os, os', targets[i]);
    }
  }

  lemma DeliverHits(os: Os, os': Os, target: int)
    requires os'.group == os.group && os'.live <= os.live
    ensures Hit(os', target) <= Hit(os, target)
    ensures os'.live == os.live - Hit(os, target) ==> Hit(os', target) == {}
  {
  }

  lemma StopNextKeepsKill(g: Group, t: Tid)
    requires Inv(g) && Enabled(g, StopNext(t)) && g.closer == Some(t)
    ensures KillInv(ApplyStopNext(g, t))
  {
    var th := g.threads[t];
    assert Progressed(g, th) && PastMark(th) && AllInv(g.handles);
    StopNextCases(g, t);
    hide Inv, ApplyStopNext;
    if StopsOne(th) { ReleaseKeepsProgress(g, t); } else { MoveOnKeepsProgress(g, t); }
  }

  lemma MoveOnKeepsProgress(g: Group, t: Tid)
    requires g.closer == Some(t) && t in g.threads && Enabled(g, StopNext(t))
    requires Progressed(g, g.threads[t]) && PastMark(g.threads[t]) && !StopsOne(g.threads[t])
    ensures KillInv(At(g, t, MovesOn(g.threads[t])))
  {
    assert Stopped(g.handles, g.procs, 0);
    hide Targets, Hit, Dealt, Stopped;
  }

  lemma ReleaseKeepsProgress(g: Group, t: Tid)
    requires g.closer == Some(t) && t in g.threads && Enabled(g, StopNext(t))
    requires Progressed(g, g.threads[t]) && StopsOne(g.threads[t]) && AllInv(g.handles)
    ensures var th := g.threads[t];
            KillInv(At(g, t, CloseStopping(th.snapshot, th.next + 1, th.err, th.answers))
                      .(handles := StopOne(g.handles, th.snapshot[th.next])))
  {
    hide Targets, Hit, Dealt, Stopped, StopOne, Grown, AllInv;
    var th := g.threads[t];
    var pid := th.snapshot[th.next];
    StopOneGrown(g.handles, pid);
    StoppedKept(g.handles, StopOne(g.handles, pid), th.snapshot, th.next);
    StoppedNext(StopOne(g.handles, pid), th.snapshot, th.next);
  }

  lemma StoppedNext(handles: map<Pid, P.Proc>, snapshot: seq<Pid>, n: nat)
    requires n < |snapshot| && Stopped(handles, snapshot, n)
    requires snapshot[n] in handles && handles[snapshot[n]].ctl.stop
    ensures Stopped(handles, snapshot, n + 1)
  {
  }

  predicate InCharge(g: Group, a: Action) {
    (a.Snapshot? || a.Deliver? || a.StopNext?) && g.closer == Some(a.t)
  }

  lemma OtherThreadsStay(g: Group, a: Action, u: Tid)
    requires Enabled(g, a) && u in g.threads && (OfThread(a) ==> a.t != u)
    ensures u in Apply(g, a).threads && Apply(g, a).threads[u] == g.threads[u]
  {
    if OfThread(a) && !a.StopNext? && !a.Register? {
      hide Apply, Enabled;
      OthersMove(g, a);
    } else {
      hide P.Apply, P.Enabled, P.ApplyStop, P.Init, ApplyDeliver;
    }
  }

  lemma PastMarkMoves(g: Group, a: Action)
    requires Enabled(g, a) && OfThread(a) && a.t in g.threads && PastMark(g.threads[a.t])
    ensures a.Snapshot? || a.Deliver? || a.StopNext?
  {
    hide P.Enabled, Hit;
  }

  lemma BystanderLeavesCloser(g: Group, a: Action, h: Group)
    requires Core(g) && Enabled(g, a) && h == Apply(g, a) && g.closer.Some? && !InCharge(g, a)
    ensures g.closer.value in h.threads && h.threads[g.closer.value] == g.threads[g.closer.value]
  {
    hide Enabled, Apply, ThreadsOk, TableOk, StarterOk;
    var u := g.closer.value;
    if OfThread(a) && a.t == u { PastMarkMoves(g, a); }
    OtherThreadsStay(g, a, u);
  }

  lemma KillKept(g: Group, a: Action)
    requires Inv(g) && Enabled(g, a)
    ensures KillInv(Apply(g, a))
  {
    if g.closer.None? {
      if a.Mark? { MarkKeepsKill(g, a.t); } else { CloserStaysNone(g, a); }
    } else if InCharge(g, a) {
      hide Inv;
      if a.Snapshot? {
        SnapshotKeepsKill(g, a.t);
      } else if a.Deliver? {
        DeliverKeepsKill(g, a.t, a.answer);
      } else {
        StopNextKeepsKill(g, a.t);
      }
    } else {
      NoAdmittedStep(g, a);
      CloserPastMark(g);
      BystanderLeavesCloser(g, a, Apply(g, a));
      hide Inv, Core;
      BystanderKeepsKill(g, a, Apply(g, a));
    }
  }

  lemma CloserStaysNone(g: Group, a: Action)
    requires Enabled(g, a) && g.closer.None? && !a.Mark?
    ensures Apply(g, a).closer.None?
  {
    hide P.Apply, P.Enabled, P.ApplyStop, P.Init, Targets, Hit, Noted;
    hide ApplyLock, ApplySnapshot, ApplyDeliver, ApplyStopNext;
    if a.Deliver? {
      DeliverLists(g, a.t, a.answer);
    } else if a.StopNext? {
      StopNextLists(g, a.t);
    } else if a.Lock? || a.Snapshot? {
      LockLists(g, a.t);
    }
  }

  lemma InvKept(g: Group, a: Action)
    requires Inv(g) && Enabled(g, a)
    ensures Inv(Apply(g, a))
  {
    CoreKept(g, a);
    HandleKept(g, a);
    KillKept(g, a);
    hide Core, HandleInv, KillInv, Apply, Enabled;
  }

  lemma {:induction false} RunKeepsInv(g: Group, run: seq<Action>, h: Group)
    requires Inv(g) && IsRun(g, run, h)
    ensures Inv(h)
    decreases |run|
  {
    if run != [] {
      InvKept(g, run[0]);
      hide Inv, Apply, Enabled;
      RunKeepsInv(Apply(g, run[0]), run[1..], h);
    }
  }

  lemma ReachableInv(g: Group)
    requires Reachable(g)
    ensures Inv(g)
  {
    var run :| IsRun(New(), run, g);
    NewInv();
    hide Inv;
    RunKeepsInv(New(), run, g);
  }

  // ---- Runs, one step longer ----

  lemma {:induction false} RunSnoc(g0: Group, run: seq<Action>, g: Group, a: Action)
    requires IsRun(g0, run, g) && Enabled(g, a)
    ensures IsRun(g0, run + [a], Apply(g, a))
    decreases |run|
  {
    hide Apply, Enabled;
    if run == [] {
      assert [a][1..] == [];
      assert run + [a] == [a];
    } else {
      RunSnoc(Apply(g0, run[0]), run[1..], g, a);
      assert (run + [a])[1..] == run[1..] + [a];
    }
  }

  lemma RunCons(g: Group, a: Action, rest: seq<Action>, h: Group)
    requires Enabled(g, a) && IsRun(Apply(g, a), rest, h)
    ensures IsRun(g, [a] + rest, h)
  {
    hide Apply, Enabled;
    assert ([a] + rest)[1..] == rest;
  }
}
