/** A process group under any number of concurrent callers (group.go over job_unix.go): one step
    per atomic section, with g.mu explicit, on top of the operating system's process table and one
    Streaming machine per registered handle. */
module GroupMachine {
  import opened Outcomes
  import opened Job
  import P = Streaming
  import Safe = StreamingSafety

  type Tid = nat

  /** `group` knows every process there ever was; pids are not reused. */
  datatype Os = Os(live: set<Pid>, group: map<Pid, int>)

  /** The caller's own process group, which no tracked group is. */
  const HOST_GROUP := 0

  datatype Thread =
    // Start
    | StartCalled(cfg: P.Config)
    | StartLocked(cfg: P.Config)
    | StartAdmitted(cfg: P.Config)                // open seen; Configure and the pipes done
    | StartSpawned(cfg: P.Config, pid: Pid)
    | StartAssigned(cfg: P.Config, pid: Pid)
    | StartLaunching(pid: Pid)                    // registered and unlocked
    | StartReturned(pid: Pid)
    | StartUncontained(pid: Pid)                  // Assign failed; unlocked, child not yet killed
    | StartKilled(pid: Pid)                       // the kill was sent; waiting
    | StartDisposed(pid: Pid)                     // killed, waited for, error returned
    | StartRefused                                // error returned, nothing was spawned
    // Adopt
    | AdoptCalled(pid: Pid)
    | AdoptLocked(pid: Pid)
    | AdoptMoved(pid: Pid, setpgid: bool, probe: bool)
    | AdoptReturned(pid: Pid)
    | AdoptRefused
    // Close
    | CloseCalled
    | CloseLocked
    | CloseNoop                                   // another Close was first
    | CloseMarked(snapshot: seq<Pid>)             // closed set, unlocked
    // `answers` is history: what kill(2) answered for each target tried so far
    | CloseKilling(snapshot: seq<Pid>, targets: seq<int>, next: nat, err: Option<int>, answers: seq<Errno>)
    | CloseStopping(snapshot: seq<Pid>, next: nat, err: Option<int>, answers: seq<Errno>)
    | CloseReturned(err: Option<int>, answers: seq<Errno>)
    // Group.Signal(SignalKill)
    | KillCalled
    | KillRunning(targets: seq<int>, next: nat, err: Option<int>, answers: seq<Errno>)
    | KillReturned(targets: seq<int>, err: Option<int>, answers: seq<Errno>)

  datatype Group = Group(
    holder: Option<Tid>,           // who holds g.mu
    closed: bool,
    procs: seq<Pid>,
    pgids: seq<Pid>,
    solo: seq<Pid>,
    os: Os,
    handles: map<Pid, P.Proc>,
    threads: map<Tid, Thread>,
    starter: map<Pid, Tid>,        // every child a Start ever spawned, and that Start
    closer: Option<Tid>)           // the Close that set closed

  function New(): Group {
    Group(None, false, [], [], [], Os({}, map[]), map[], map[], map[], None)
  }

  predicate Fresh(th: Thread) {
    th.StartCalled? || th.AdoptCalled? || th.CloseCalled? || th.KillCalled?
  }

  /** Threads between Lock and Unlock of g.mu. */
  predicate InSection(th: Thread) {
    || th.StartLocked? || th.StartAdmitted? || th.StartSpawned? || th.StartAssigned?
    || th.AdoptLocked? || th.AdoptMoved? || th.CloseLocked?
  }

  /** Threads that saw the group open and still hold the lock. */
  predicate Admitted(th: Thread) {
    th.StartAdmitted? || th.StartSpawned? || th.StartAssigned? || th.AdoptMoved?
  }

  predicate PastMark(th: Thread) {
    th.CloseMarked? || th.CloseKilling? || th.CloseStopping? || th.CloseReturned?
  }

  datatype Action =
    | Call(t: Tid, th: Thread)
    | Lock(t: Tid)
    | Admit(t: Tid, ok: bool)            // check closed; Configure; preparePipes
    | Spawn(t: Tid, pid: Pid, ok: bool)
    | Assign(t: Tid, ok: bool)
    | Register(t: Tid)                   // append to procs, unlock
    | Return(t: Tid)
    | KillChild(t: Tid, permitted: bool)
    | ReapChild(t: Tid)
    | Move(t: Tid, setpgid: bool, probe: bool)
    | Track(t: Tid)
    | Mark(t: Tid)                       // Close's critical section
    | Snapshot(t: Tid)                   // job.Kill copies its lists
    | Deliver(t: Tid, answer: Errno)
    | StopNext(t: Tid)
    | Handle(pid: Pid, a: P.Action)      // any step of a registered process
    | Fork(parent: Pid, child: Pid)
    | Appear(pid: Pid, leader: bool)     // a process from outside, fit for Adopt
    | Die(pid: Pid)

  /** The live processes a kill(2) target reaches. */
  function Hit(os: Os, target: int): set<Pid> {
    set q | q in os.live && q in os.group && (if target < 0 then os.group[q] == -target else q == target) :: q
  }

  predicate Unknown(g: Group, pid: Pid) { pid !in g.os.group }

  predicate Enabled(g: Group, a: Action) {
    match a
    case Call(t, th) => t !in g.threads && Fresh(th) && (th.StartCalled? ==> th.cfg.Resolved())
    case Lock(t) =>
      && g.holder.None? && t in g.threads
      && (g.threads[t].StartCalled? || g.threads[t].AdoptCalled? || g.threads[t].CloseCalled?)
    case Admit(t, ok) => t in g.threads && g.threads[t].StartLocked?
    case Spawn(t, pid, ok) => t in g.threads && g.threads[t].StartAdmitted? && Unknown(g, pid)
    case Assign(t, ok) => t in g.threads && g.threads[t].StartSpawned?
    case Register(t) => t in g.threads && g.threads[t].StartAssigned?
    case Return(t) =>
      && t in g.threads && g.threads[t].StartLaunching? && g.threads[t].pid in g.handles
      && g.handles[g.threads[t].pid].ctl.starter == P.Returned
    case KillChild(t, permitted) => t in g.threads && g.threads[t].StartUncontained?
    case ReapChild(t) => t in g.threads && g.threads[t].StartKilled? && g.threads[t].pid !in g.os.live
    case Move(t, setpgid, probe) =>
      && t in g.threads && g.threads[t].AdoptLocked?
      // setpgid and the signal-0 probe succeed only on a live process
      && (setpgid || probe ==> g.threads[t].pid in g.os.live)
    case Track(t) => t in g.threads && g.threads[t].AdoptMoved?
    case Mark(t) => t in g.threads && g.threads[t].CloseLocked?
    case Snapshot(t) => t in g.threads && (g.threads[t].CloseMarked? || g.threads[t].KillCalled?)
    case Deliver(t, answer) =>
      && t in g.threads
      && (g.threads[t].CloseKilling? || g.threads[t].KillRunning?)
      && g.threads[t].next < |g.threads[t].targets|
      // only ESRCH says that there is nobody
      && (answer.ESRCH? ==> Hit(g.os, g.threads[t].targets[g.threads[t].next]) == {})
    case StopNext(t) =>
      && t in g.threads
      && (g.threads[t].CloseStopping?
          || ((g.threads[t].CloseKilling? || g.threads[t].KillRunning?) && g.threads[t].next == |g.threads[t].targets|))
      && (g.threads[t].CloseStopping? && g.threads[t].next < |g.threads[t].snapshot| ==>
            g.threads[t].snapshot[g.threads[t].next] in g.handles)
    case Handle(pid, b) =>
      pid in g.handles && g.handles[pid].cfg.Resolved() && P.Enabled(g.handles[pid], b, pid in g.os.live)
    case Fork(parent, child) => parent in g.os.live && parent in g.os.group && Unknown(g, child)
    case Appear(pid, leader) => Unknown(g, pid)
    case Die(pid) => pid in g.os.live
  }

  function At(g: Group, t: Tid, th: Thread): Group { g.(threads := g.threads[t := th]) }

  /** Unlock and go to `th`. */
  function Leave(g: Group, t: Tid, th: Thread): Group { At(g, t, th).(holder := None) }

  function Born(os: Os, pid: Pid, group: int): Os { Os(os.live + {pid}, os.group[pid := group]) }

  function ApplyLock(g: Group, t: Tid): Group
    requires t in g.threads
  {
    var h := g.(holder := Some(t));
    match g.threads[t]
    case StartCalled(cfg) => At(h, t, StartLocked(cfg))
    case AdoptCalled(pid) => At(h, t, AdoptLocked(pid))
    case _ => At(h, t, CloseLocked)
  }

  function ApplyAdmit(g: Group, t: Tid, ok: bool): Group
    requires t in g.threads && g.threads[t].StartLocked?
  {
    if g.closed || !ok then Leave(g, t, StartRefused) else At(g, t, StartAdmitted(g.threads[t].cfg))
  }

  /** With Setpgid the child leads a group of its own. */
  function ApplySpawn(g: Group, t: Tid, pid: Pid, ok: bool): Group
    requires t in g.threads && g.threads[t].StartAdmitted?
  {
    if !ok then Leave(g, t, StartRefused)
    else At(g, t, StartSpawned(g.threads[t].cfg, pid)).(os := Born(g.os, pid, pid), starter := g.starter[pid := t])
  }

  function ApplyAssign(g: Group, t: Tid, ok: bool): Group
    requires t in g.threads && g.threads[t].StartSpawned?
  {
    var th := g.threads[t];
    if !ok then Leave(g, t, StartUncontained(th.pid))
    else At(g, t, StartAssigned(th.cfg, th.pid)).(pgids := g.pgids + [th.pid])
  }

  function ApplyRegister(g: Group, t: Tid): Group
    requires t in g.threads && g.threads[t].StartAssigned?
  {
    var th := g.threads[t];
    Leave(g, t, StartLaunching(th.pid))
      .(procs := g.procs + [th.pid], handles := g.handles[th.pid := P.Init(th.cfg)])
  }

  function ApplyMove(g: Group, t: Tid, setpgid: bool, probe: bool): Group
    requires t in g.threads && g.threads[t].AdoptLocked?
  {
    var pid := g.threads[t].pid;
    if g.closed then Leave(g, t, AdoptRefused)
    else if setpgid then At(g, t, AdoptMoved(pid, true, probe)).(os := g.os.(group := g.os.group[pid := pid]))
    else At(g, t, AdoptMoved(pid, false, probe))
  }

  function ApplyTrack(g: Group, t: Tid): Group
    requires t in g.threads && g.threads[t].AdoptMoved?
  {
    var th := g.threads[t];
    var h := Leave(g, t, AdoptReturned(th.pid));
    if th.setpgid then h.(pgids := g.pgids + [th.pid])
    else if th.probe then h.(solo := g.solo + [th.pid])
    else h
  }

  function ApplyMark(g: Group, t: Tid): Group {
    if g.closed then Leave(g, t, CloseNoop)
    else Leave(g, t, CloseMarked(g.procs)).(closed := true, closer := Some(t))
  }

  function ApplySnapshot(g: Group, t: Tid): Group
    requires t in g.threads
  {
    var targets := Targets(g.pgids, g.solo);
    if g.threads[t].CloseMarked? then At(g, t, CloseKilling(g.threads[t].snapshot, targets, 0, None, []))
    else At(g, t, KillRunning(targets, 0, None, []))
  }

  function ApplyDeliver(g: Group, t: Tid, answer: Errno): Group
    requires Enabled(g, Deliver(t, answer))
  {
    var th := g.threads[t];
    var err := Noted(th.err, answer);
    var h := At(g, t, if th.CloseKilling? then
                        CloseKilling(th.snapshot, th.targets, th.next + 1, err, th.answers + [answer])
                      else KillRunning(th.targets, th.next + 1, err, th.answers + [answer]));
    // a delivered SIGKILL ends its targets
    if answer.Delivered? then h.(os := g.os.(live := g.os.live - Hit(g.os, th.targets[th.next]))) else h
  }

  /** The end of a broadcast, and then Close's loop over its snapshot. */
  function ApplyStopNext(g: Group, t: Tid): Group
    requires Enabled(g, StopNext(t))
  {
    var th := g.threads[t];
    if th.KillRunning? then At(g, t, KillReturned(th.targets, th.err, th.answers))
    else if th.CloseKilling? then At(g, t, CloseStopping(th.snapshot, 0, th.err, th.answers))
    else if th.next >= |th.snapshot| then At(g, t, CloseReturned(th.err, th.answers))
    else
      var pid := th.snapshot[th.next];
      var p := g.handles[pid];
      At(g, t, CloseStopping(th.snapshot, th.next + 1, th.err, th.answers))
        .(handles := g.handles[pid := p.(ctl := P.ApplyStop(p.ctl))])
  }

  function Apply(g: Group, a: Action): Group
    requires Enabled(g, a)
  {
    match a
    case Call(t, th) => At(g, t, th)
    case Lock(t) => ApplyLock(g, t)
    case Admit(t, ok) => ApplyAdmit(g, t, ok)
    case Spawn(t, pid, ok) => ApplySpawn(g, t, pid, ok)
    case Assign(t, ok) => ApplyAssign(g, t, ok)
    case Register(t) => ApplyRegister(g, t)
    case Return(t) => At(g, t, StartReturned(g.threads[t].pid))
    case KillChild(t, permitted) =>
      At(g, t, StartKilled(g.threads[t].pid))
        .(os := if permitted then g.os.(live := g.os.live - {g.threads[t].pid}) else g.os)
    case ReapChild(t) => At(g, t, StartDisposed(g.threads[t].pid))
    case Move(t, setpgid, probe) => ApplyMove(g, t, setpgid, probe)
    case Track(t) => ApplyTrack(g, t)
    case Mark(t) => ApplyMark(g, t)
    case Snapshot(t) => ApplySnapshot(g, t)
    case Deliver(t, answer) => ApplyDeliver(g, t, answer)
    case StopNext(t) => ApplyStopNext(g, t)
    case Handle(pid, b) =>
      g.(handles := g.handles[pid := P.Apply(g.handles[pid], b, pid in g.os.live)])
    case Fork(parent, child) => g.(os := Born(g.os, child, g.os.group[parent]))
    case Appear(pid, leader) => g.(os := Born(g.os, pid, if leader then pid else HOST_GROUP))
    case Die(pid) => g.(os := g.os.(live := g.os.live - {pid}))
  }

  ghost predicate IsRun(g: Group, run: seq<Action>, h: Group)
    decreases |run|
  {
    if run == [] then h == g else Enabled(g, run[0]) && IsRun(Apply(g, run[0]), run[1..], h)
  }

  ghost predicate Reachable(g: Group) { exists run :: IsRun(New(), run, g) }
}
