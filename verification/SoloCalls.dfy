/** The calls of Groups are runs of GroupMachine: a Start, an Adopt or a Close that nobody interferes
    with, taken through the machine from a state in which the lock is free, ends where the contract
    of the method says; only the pipes of a failing Start have no counterpart there. */
module SoloCalls {
  import opened Outcomes
  import opened Job
  import opened GroupMachine
  import opened GroupSafety
  import opened GroupProgress
  import opened GroupKill
  import G = Groups
  import P = Streaming

  lemma Go(g0: Group, run: seq<Action>, g: Group, a: Action) returns (more: seq<Action>, h: Group)
    requires IsRun(g0, run, g) && Enabled(g, a)
    ensures more == run + [a] && h == Apply(g, a) && IsRun(g0, more, h)
  {
    hide Apply, Enabled;
    more, h := run + [a], Apply(g, a);
    RunSnoc(g0, run, g, a);
  }

  lemma {:induction false} SoloStart(g: Group, t: Tid, cfg: P.Config, env: G.StartEnv)
    returns (run: seq<Action>, h: Group)
    requires g.holder.None? && t !in g.threads && cfg.Resolved()
    requires env.spawned.Some? ==> env.spawned.value !in g.os.group
    ensures IsRun(g, run, h) && h.holder.None? && h.closed == g.closed && h.solo == g.solo && t in h.threads
    ensures match G.StartVerdict(g.closed, env)
            case None =>
              var pid := env.spawned.value;
              && h.procs == g.procs + [pid] && h.pgids == g.pgids + [pid] && h.threads[t] == StartLaunching(pid)
              && h.handles == g.handles[pid := P.Init(cfg)] && pid in h.os.live
            case Some(why) =>
              && h.procs == g.procs && h.pgids == g.pgids && h.handles == g.handles
              && if why == G.AssignFailed then
                   h.threads[t] == StartDisposed(env.spawned.value) && env.spawned.value !in h.os.live
                 else h.threads[t] == StartRefused && h.os == g.os
  {
    hide IsRun, P.Init, P.Apply, P.Enabled, P.ApplyStop, Hit, Targets, Noted;
    run, h := Called(g, t, StartCalled(cfg));
    run, h := Go(g, run, h, Lock(t));
    run, h := Go(g, run, h, Admit(t, env.configure && env.pipes));
    if !g.closed && env.configure && env.pipes {
      if env.spawned.None? {
        var any := FreshPid(h);
        run, h := Go(g, run, h, Spawn(t, any, false));
      } else {
        run, h := SoloSpawned(g, t, run, h, env.spawned.value, env.contained);
      }
    }
  }

  /** From the spawn on. */
  lemma {:induction false} SoloSpawned(g0: Group, t: Tid, soFar: seq<Action>, g: Group, pid: Pid, contained: bool)
    returns (run: seq<Action>, h: Group)
    requires IsRun(g0, soFar, g) && t in g.threads && g.threads[t].StartAdmitted? && pid !in g.os.group
    ensures IsRun(g0, run, h) && h.holder.None? && h.closed == g.closed && h.solo == g.solo && t in h.threads
    ensures if contained then
              && h.procs == g.procs + [pid] && h.pgids == g.pgids + [pid] && h.threads[t] == StartLaunching(pid)
              && h.handles == g.handles[pid := P.Init(g.threads[t].cfg)] && pid in h.os.live
            else
              && h.procs == g.procs && h.pgids == g.pgids && h.handles == g.handles
              && h.threads[t] == StartDisposed(pid) && pid !in h.os.live
  {
    hide IsRun, P.Init, P.Apply, P.Enabled, P.ApplyStop, Hit, Targets, Noted;
    run, h := Go(g0, soFar, g, Spawn(t, pid, true));
    run, h := Go(g0, run, h, Assign(t, contained));
    if contained {
      run, h := Go(g0, run, h, Register(t));
    } else {
      run, h := SoloDisposed(g0, t, run, h, pid);
    }
  }

  /** The way out when Assign has failed. */
  lemma SoloDisposed(g0: Group, t: Tid, soFar: seq<Action>, g: Group, pid: Pid)
    returns (run: seq<Action>, h: Group)
    requires IsRun(g0, soFar, g) && t in g.threads && g.threads[t] == StartUncontained(pid) && g.holder.None?
    ensures IsRun(g0, run, h) && h.holder.None? && h.closed == g.closed && h.solo == g.solo && t in h.threads
    ensures h.procs == g.procs && h.pgids == g.pgids && h.handles == g.handles
    ensures h.threads[t] == StartDisposed(pid) && pid !in h.os.live
  {
    hide IsRun, P.Init, P.Apply, P.Enabled, P.ApplyStop, Hit, Targets, Noted;
    run, h := Go(g0, soFar, g, KillChild(t, true));
    run, h := Go(g0, run, h, ReapChild(t));
  }

  lemma Called(g: Group, t: Tid, th: Thread) returns (run: seq<Action>, h: Group)
    requires Enabled(g, Call(t, th))
    ensures IsRun(g, run, h) && h == At(g, t, th)
  {
    NothingLeft(g);
    run, h := Go(g, [], g, Call(t, th));
  }

  lemma {:induction false} SoloAdopt(g: Group, t: Tid, pid: Pid, setpgid: bool, probe: bool)
    returns (run: seq<Action>, h: Group)
    requires g.holder.None? && t !in g.threads && (setpgid || probe ==> pid in g.os.live)
    ensures IsRun(g, run, h) && h.holder.None? && t in h.threads && h.procs == g.procs
    ensures h.threads[t] == if g.closed then AdoptRefused else AdoptReturned(pid)
    ensures h.pgids == if !g.closed && setpgid then g.pgids + [pid] else g.pgids
    ensures h.solo == if !g.closed && !setpgid && probe then g.solo + [pid] else g.solo
  {
    hide IsRun, P.Init, P.Apply, P.Enabled, P.ApplyStop, Hit, Targets, Noted;
    run, h := Called(g, t, AdoptCalled(pid));
    run, h := Go(g, run, h, Lock(t));
    run, h := Go(g, run, h, Move(t, setpgid, probe));
    if !g.closed { run, h := Go(g, run, h, Track(t)); }
  }

  /** `kernel` holds the answers of kill(2), ESRCH being said only of targets nobody is behind. */
  lemma {:induction false} SoloClose(g: Group, t: Tid, kernel: seq<Errno>) returns (run: seq<Action>, h: Group)
    requires Inv(g) && g.holder.None? && t !in g.threads && |kernel| == |Targets(g.pgids, g.solo)|
    requires forall i :: 0 <= i < |kernel| && kernel[i].ESRCH? ==>
               Hit(g.os, Targets(g.pgids, g.solo)[i]) == {}
    ensures IsRun(g, run, h) && h.closed && t in h.threads
    ensures h.pgids == g.pgids && h.solo == g.solo && h.procs == g.procs
    ensures if g.closed then h.threads[t] == CloseNoop && h.handles == g.handles && h.os == g.os
            else h.threads[t] == CloseReturned(FirstError(kernel), kernel)
                 && forall p :: p in h.procs ==> p in h.handles && h.handles[p].ctl.stop
  {
    hide IsRun, Inv, Hit, Targets, FirstError;
    run, h := Called(g, t, CloseCalled);
    run, h := Go(g, run, h, Lock(t));
    run, h := Go(g, run, h, Mark(t));
    if !g.closed {
      Marked(g, h, t, run);
      var rest, last := CloseFinishes(h, t, kernel);
      RunsJoin(g, run, h, rest, last);
      AllStopped(last, t);
      run, h := run + rest, last;
    }
  }

  /** A kill takes no lock, and leaves the group as it is. */
  lemma SoloKill(g: Group, t: Tid, kernel: seq<Errno>) returns (run: seq<Action>, h: Group)
    requires t !in g.threads && |kernel| == |Targets(g.pgids, g.solo)|
    requires forall i :: 0 <= i < |kernel| && kernel[i].ESRCH? ==>
               Hit(g.os, Targets(g.pgids, g.solo)[i]) == {}
    ensures IsRun(g, run, h) && t in h.threads
    ensures h.threads[t] == KillReturned(Targets(g.pgids, g.solo), FirstError(kernel), kernel)
    ensures h.pgids == g.pgids && h.solo == g.solo && h.procs == g.procs && h.handles == g.handles
    ensures h.closed == g.closed && h.holder == g.holder
  {
    hide IsRun, Hit, Targets, FirstError;
    run, h := Called(g, t, KillCalled);
    run, h := Go(g, run, h, Snapshot(t));
    NoErrorYet(kernel);
    var rest, last := KillFinishes(h, t, 0, kernel);
    RunsJoin(g, run, h, rest, last);
    run, h := run + rest, last;
  }

  lemma Marked(g: Group, h: Group, t: Tid, run: seq<Action>)
    requires Inv(g) && IsRun(g, run, h) && t in h.threads && h.threads[t].CloseMarked?
    ensures Inv(h) && Closing(h, t)
  {
    RunKeepsInv(g, run, h);
    PastMarkIsClosing(h, t);
  }

  lemma AllStopped(h: Group, t: Tid)
    requires Closing(h, t) && h.threads[t].CloseReturned?
    ensures forall p :: p in h.procs ==> p in h.handles && h.handles[p].ctl.stop
  {
    assert Stopped(h.handles, h.procs, |h.procs|);
    forall p | p in h.procs ensures p in h.handles && h.handles[p].ctl.stop {
      var i :| 0 <= i < |h.procs| && h.procs[i] == p;
      assert h.handles[h.procs[i]].ctl.stop;
    }
  }

  lemma {:induction false} RunsJoin(g: Group, run: seq<Action>, h: Group, rest: seq<Action>, last: Group)
    requires IsRun(g, run, h) && IsRun(h, rest, last)
    ensures IsRun(g, run + rest, last)
    decreases |run|
  {
    hide Apply, Enabled;
    if run == [] {
      assert run + rest == rest;
    } else {
      RunsJoin(Apply(g, run[0]), run[1..], h, rest, last);
      assert (run + rest)[1..] == run[1..] + rest;
    }
  }
}
