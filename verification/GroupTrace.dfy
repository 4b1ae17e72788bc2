/** The handles of a group are started processes: what holds of every run of one holds of each of them. */
module GroupTrace {
  import opened Outcomes
  import opened Job
  import opened GroupMachine
  import opened GroupSafety
  import opened GroupProgress
  import P = Streaming
  import Safe = StreamingSafety
  import Trace = StreamingTrace

  /** A handle comes into being as a freshly registered process, by the action of no process. */
  lemma HandleIsBorn(g: Group, a: Action, pid: Pid) returns (cfg: P.Config)
    requires Core(g) && Enabled(g, a) && pid !in g.handles && pid in Apply(g, a).handles
    ensures cfg.Resolved() && Apply(g, a).handles[pid] == P.Init(cfg)
    ensures !(a.Handle? && a.pid == pid)
  {
    hide Apply, Core, P.Init;
    OnlyRegisterBears(g, a, pid);
    Mine(g, a.t);
    cfg := g.threads[a.t].cfg;
    Registered(g, a.t, pid);
  }

  lemma OnlyRegisterBears(g: Group, a: Action, pid: Pid)
    requires Enabled(g, a) && pid !in g.handles && pid in Apply(g, a).handles
    ensures a.Register? && a.t in g.threads && g.threads[a.t].StartAssigned?
  {
    hide P.Init;
    if !a.Register? { NobodyIsBorn(g, a, pid); }
  }

  lemma Registered(g: Group, t: Tid, pid: Pid)
    requires Enabled(g, Register(t)) && pid !in g.handles && pid in Apply(g, Register(t)).handles
    ensures Apply(g, Register(t)).handles[pid] == P.Init(g.threads[t].cfg)
  {
    hide P.Init;
  }

  lemma NobodyIsBorn(g: Group, a: Action, pid: Pid)
    requires Enabled(g, a) && !a.Register? && pid !in g.handles
    ensures pid !in Apply(g, a).handles
  {
    if a.Handle? {
      hide P.Apply, P.Enabled;
    } else if a.StopNext? {
      StopNextCases(g, a.t);
      hide ApplyStopNext, P.ApplyStop;
    } else {
      hide Apply, Enabled;
      HandlesSame(g, a);
    }
  }

  lemma {:induction false} HistoryFrom(g0: Group, run: seq<Action>, g: Group, pid: Pid)
    returns (cfg: P.Config, events: seq<P.Event>)
    requires Inv(g0) && IsRun(g0, run, g) && pid !in g0.handles && pid in g.handles
    ensures cfg.Resolved() && P.IsRun(P.Init(cfg), events, g.handles[pid])
    ensures Trace.WithoutStops(Trace.Actions(events)) == Trace.WithoutStops(ToldTo(run, pid))
    decreases |run|
  {
    hide Inv, Apply, Enabled, P.Init, P.IsRun, Trace.WithoutStops, Trace.Actions, ToldTo;
    var a := run[0];
    var g' := Apply(g0, a);
    InvKept(g0, a);
    CoreOf(g0);
    ToldCons(run, pid);
    if pid in g'.handles {
      cfg := HandleIsBorn(g0, a, pid);
      events := HandleProjection(g', run[1..], g, pid);
    } else {
      NotYetThere(g0, a, pid);
      cfg, events := HistoryFrom(g', run[1..], g, pid);
    }
  }

  lemma CoreOf(g: Group)
    requires Inv(g)
    ensures Core(g)
  {
    hide Core;
  }

  lemma NotYetThere(g: Group, a: Action, pid: Pid)
    requires Enabled(g, a) && pid !in g.handles
    ensures !(a.Handle? && a.pid == pid)
  {
  }

  /** So every handle of a reachable group is a reachable process, and its actions are those the group's
      run has for it, the closing of stop aside. */
  lemma HandleHistory(run: seq<Action>, g: Group, pid: Pid) returns (cfg: P.Config, events: seq<P.Event>)
    requires IsRun(New(), run, g) && pid in g.handles
    ensures cfg.Resolved() && P.IsRun(P.Init(cfg), events, g.handles[pid]) && P.Reachable(g.handles[pid])
    ensures Trace.WithoutStops(Trace.Actions(events)) == Trace.WithoutStops(ToldTo(run, pid))
  {
    NewInv();
    cfg, events := HistoryFrom(New(), run, g, pid);
  }

  /** In every run of a group, a process that is done was waited for exactly once, and what its handle
      publishes is what that Wait left behind. */
  lemma HandlePublishesFound(run: seq<Action>, g: Group, pid: Pid) returns (k: nat)
    requires IsRun(New(), run, g) && pid in g.handles && g.handles[pid].ctl.done
    ensures k < |run| && WaitsFor(run[k], pid)
    ensures forall j :: 0 <= j < |run| && WaitsFor(run[j], pid) ==> j == k
    ensures g.handles[pid].ctl.published == Some(match run[k].a.w
                                                 case State(o) => P.Ended(o)
                                                 case Error => P.ReapFailed
                                                 case Neither => P.Ended(Exited(0)))
  {
    hide IsRun, P.IsRun, Trace.Actions, Trace.WithoutStops, Trace.WaitResults, P.Reachable, ToldTo, WaitsFor;
    var cfg, events := HandleHistory(run, g, pid);
    Trace.PublishedTells(cfg, events, g.handles[pid]);
    Trace.StopsFindNothing(Trace.Actions(events));
    Trace.StopsFindNothing(ToldTo(run, pid));
    k := WaitedOnce(run, pid);
  }

  predicate WaitsFor(a: Action, pid: Pid) { a.Handle? && a.pid == pid && a.a.WaitDone? }

  lemma {:induction false} WaitedOnce(run: seq<Action>, pid: Pid) returns (k: nat)
    requires |Trace.WaitResults(ToldTo(run, pid))| == 1
    ensures k < |run| && WaitsFor(run[k], pid) && run[k].a.w == Trace.WaitResults(ToldTo(run, pid))[0]
    ensures forall j :: 0 <= j < |run| && WaitsFor(run[j], pid) ==> j == k
  {
    FoundCons(run, pid);
    if WaitsFor(run[0], pid) {
      k := 0;
      NeverWaited(run[1..], pid);
      assert forall j :: 0 < j < |run| ==> run[j] == run[1..][j - 1];
    } else {
      var i := WaitedOnce(run[1..], pid);
      k := i + 1;
      assert forall j :: 0 < j < |run| ==> run[j] == run[1..][j - 1];
    }
  }

  lemma {:induction false} NeverWaited(run: seq<Action>, pid: Pid)
    requires Trace.WaitResults(ToldTo(run, pid)) == []
    ensures forall j :: 0 <= j < |run| ==> !WaitsFor(run[j], pid)
  {
    if run != [] {
      FoundCons(run, pid);
      NeverWaited(run[1..], pid);
      assert forall j :: 0 < j < |run| ==> run[j] == run[1..][j - 1];
    }
  }

  lemma FoundCons(run: seq<Action>, pid: Pid)
    ensures run == [] ==> Trace.WaitResults(ToldTo(run, pid)) == []
    ensures run != [] ==>
              var mine := if WaitsFor(run[0], pid) then [run[0].a.w] else [];
              Trace.WaitResults(ToldTo(run, pid)) == mine + Trace.WaitResults(ToldTo(run[1..], pid))
  {
    if run != [] {
      var rest := ToldTo(run[1..], pid);
      if run[0].Handle? && run[0].pid == pid {
        Trace.ConsFacts(run[0].a, rest);
      } else {
        assert [] + rest == rest && [] + Trace.WaitResults(rest) == Trace.WaitResults(rest);
      }
    }
  }
}
