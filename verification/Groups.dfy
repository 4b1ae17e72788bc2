/** Group and RunningProcess as the objects they are (group.go, running.go), each call taken by
    itself; GroupMachine has the same calls under interference. */
module Groups {
  import opened Outcomes
  import opened Job
  import P = Streaming

  const SIGKILL := 9

  /** What happens once in the life of a handle, for everybody to see. */
  datatype Mark = StopClosed | OutcomeWritten | LinesClosed | DoneClosed

  ghost predicate Once(marks: seq<Mark>) { forall m :: multiset(marks)[m] <= 1 }

  lemma OnceMore(marks: seq<Mark>, m: Mark)
    ensures Once(marks) && m !in marks ==> Once(marks + [m])
    ensures forall x :: x in marks + [m] <==> x in marks || x == m
  {
  }

  class RunningProcess {
    const pid: Pid
    var stop: bool                            // p.stop is closed
    var stopOnce: bool
    var lines: Option<bool>                   // nil, or whether it is closed
    var published: Option<P.Published>
    var done: bool
    ghost var marks: seq<Mark>                // in the order in which they were made

    /** Nothing is closed or written twice, and the flags say what was. */
    ghost predicate Valid()
      reads this
    {
      && Once(marks)
      && (stop <==> StopClosed in marks) && stop == stopOnce
      && (published.Some? <==> OutcomeWritten in marks)
      && (lines == Some(true) <==> LinesClosed in marks)
      && (done <==> DoneClosed in marks)
      && (done || lines == Some(true) ==> published.Some?)
    }

    constructor (pid: Pid)
      ensures Valid() && this.pid == pid && marks == [] && lines.None?
    {
      this.pid := pid;
      stop, stopOnce, lines, published, done, marks := false, false, None, None, false, [];
    }

    /** However often it is called, stop is closed once. */
    method SignalStop()
      requires Valid()
      modifies this`stop, this`stopOnce, this`marks
      ensures Valid() && stop
      ensures marks == old(marks) + if old(stop) then [] else [StopClosed]
    {
      hide Once;
      if !stopOnce {
        OnceMore(marks, StopClosed);
        stopOnce := true;
        stop := true;
        marks := marks + [StopClosed];
      }
    }

    /** reap after the drains are done: `w` is what cmd.Wait left behind. The outcome is written, then
        the line channel closed if there is one, then done. */
    method Reap(w: P.WaitResult)
      requires Valid() && published.None?
      modifies this`published, this`lines, this`done, this`marks
      ensures Valid() && done && lines == if old(lines).Some? then Some(true) else None
      ensures published == Some(match w
                                case State(o) => P.Ended(o)
                                case Error => P.ReapFailed
                                case Neither => P.Ended(Exited(0)))
      ensures marks == old(marks) + [OutcomeWritten] + (if lines.Some? then [LinesClosed] else []) + [DoneClosed]
    {
      hide Once;
      match w {
        case State(o) => published := Some(P.Ended(o));
        case Error => published := Some(P.ReapFailed);
        case Neither => published := Some(P.Ended(Exited(0)));
      }
      OnceMore(marks, OutcomeWritten);
      marks := marks + [OutcomeWritten];
      if lines.Some? {
        lines := Some(true);
        OnceMore(marks, LinesClosed);
        marks := marks + [LinesClosed];
      } else {
        assert marks + [] == marks;
      }
      done := true;
      OnceMore(marks, DoneClosed);
      marks := marks + [DoneClosed];
    }
  }

  /** The operating system's answers to one Start. */
  datatype StartEnv = StartEnv(configure: bool, pipes: bool, spawned: Option<Pid>, contained: bool)

  datatype StartError = GroupClosed | ConfigureFailed | PipesFailed | SpawnFailed | AssignFailed

  datatype Started = Running(p: RunningProcess) | Refused(why: StartError)

  /** What a failing Start cleans up behind itself, in order. */
  datatype Disposal = Killed(pid: Pid) | Waited(pid: Pid) | PipesClosed

  function StartVerdict(closed: bool, env: StartEnv): Option<StartError> {
    if closed then Some(GroupClosed)
    else if !env.configure then Some(ConfigureFailed)
    else if !env.pipes then Some(PipesFailed)
    else if env.spawned.None? then Some(SpawnFailed)
    else if !env.contained then Some(AssignFailed)
    else None
  }

  /** Close's loop over its snapshot. */
  method StopAll(snapshot: seq<RunningProcess>)
    requires forall p :: p in snapshot ==> p.Valid()
    modifies snapshot
    ensures forall p :: p in snapshot ==> p.Valid() && p.stop
    ensures forall p :: p in snapshot ==> p.marks == old(p.marks) + if old(p.stop) then [] else [StopClosed]
  {
    hide RunningProcess.Valid;
    for i := 0 to |snapshot|
      invariant forall j :: 0 <= j < |snapshot| ==> snapshot[j].Valid()
      invariant forall j :: 0 <= j < |snapshot| ==>
                  && (old(snapshot[j].stop) || j < i ==> snapshot[j].stop)
                  && snapshot[j].marks == old(snapshot[j].marks)
                                          + if old(snapshot[j].stop) || !snapshot[j].stop then [] else [StopClosed]
    {
      assert forall j :: 0 <= j < |snapshot| ==> snapshot[j] in snapshot;
      snapshot[i].SignalStop();
    }
  }

  class Group {
    const job: PgroupJob
    var procs: seq<RunningProcess>
    var closed: bool

    ghost predicate Valid()
      reads this, procs
    {
      forall p :: p in procs ==> p.Valid()
    }

    constructor (job: PgroupJob)
      ensures Valid() && this.job == job && procs == [] && !closed
    {
      this.job := job;
      procs, closed := [], false;
    }

    /** Either a registered member, or an error that leaves no member and no live child behind. */
    method Start(env: StartEnv) returns (r: Started, disposed: seq<Disposal>)
      requires Valid()
      modifies this`procs, job`pgids
      ensures Valid()
      ensures r == Refused(GroupClosed) <==> closed
      ensures r == Refused(ConfigureFailed) <==> !closed && !env.configure
      ensures r == Refused(PipesFailed) <==> !closed && env.configure && !env.pipes
      ensures r == Refused(SpawnFailed) <==> !closed && env.configure && env.pipes && env.spawned.None?
      ensures r == Refused(AssignFailed) <==>
                !closed && env.configure && env.pipes && env.spawned.Some? && !env.contained
      ensures r.Refused? ==>
                && procs == old(procs) && job.pgids == old(job.pgids)
                && disposed == match r.why
                               case SpawnFailed => [PipesClosed]
                               case AssignFailed => [Killed(env.spawned.value), Waited(env.spawned.value), PipesClosed]
                               case _ => []
      ensures r.Running? ==>
                && env.spawned.Some? && fresh(r.p) && r.p.pid == env.spawned.value
                && r.p.Valid() && r.p.marks == [] && r.p.lines.None?
                && procs == old(procs) + [r.p] && job.pgids == old(job.pgids) + [env.spawned.value]
                && disposed == []
      ensures StartVerdict(closed, env) == if r.Refused? then Some(r.why) else None
    {
      disposed := [];
      if closed {
        return Refused(GroupClosed), disposed;
      }
      if !env.configure {
        return Refused(ConfigureFailed), disposed;
      }
      if !env.pipes {
        return Refused(PipesFailed), disposed;
      }
      if env.spawned.None? {
        return Refused(SpawnFailed), [PipesClosed];
      }
      var pid := env.spawned.value;
      if !env.contained {
        disposed := [Killed(pid), Waited(pid), PipesClosed];
        return Refused(AssignFailed), disposed;
      }
      var ok := job.Assign(Some(pid));
      var p := new RunningProcess(pid);
      procs := procs + [p];
      r := Running(p);
    }

    /** Adopt is refused on a closed group; otherwise the job decides how the process is tracked. */
    method Adopt(pid: Pid, setpgid: bool, probe: bool) returns (ok: bool)
      modifies job
      ensures ok == !closed
      ensures job.pgids == if !closed && setpgid then old(job.pgids) + [pid] else old(job.pgids)
      ensures job.solo == if !closed && !setpgid && probe then old(job.solo) + [pid] else old(job.solo)
    {
      if closed {
        return false;
      }
      job.Adopt(pid, setpgid, probe);
      ok := true;
    }

    /** The first Close kills every member and releases every process; any other does nothing. */
    method Close(kernel: seq<Errno>) returns (err: Option<int>, sent: seq<(int, int)>)
      requires Valid() && |kernel| == |job.pgids| + |job.solo|
      modifies this`closed, procs
      ensures Valid() && closed
      ensures old(closed) ==> err == None && sent == [] && forall p :: p in procs ==> unchanged(p)
      ensures !old(closed) ==>
                && err == FirstError(kernel)
                && |sent| == |kernel|
                && (forall i :: 0 <= i < |job.pgids| ==> sent[i] == (-(job.pgids[i] as int), 9))
                && (forall i :: 0 <= i < |job.solo| ==> sent[|job.pgids| + i] == (job.solo[i], 9))
                && (forall p :: p in procs ==>
                     p.stop && p.marks == old(p.marks) + if old(p.stop) then [] else [StopClosed])
    {
      if closed {
        return None, [];
      }
      closed := true;
      var snapshot := procs;
      err, sent := job.Signal(SIGKILL, kernel);
      StopAll(snapshot);
    }

    /** The handles that have not been reaped, in order of registration: `at` is where they stand. */
    method Processes() returns (live: seq<RunningProcess>, ghost at: seq<nat>)
      ensures |at| == |live| && forall k :: 0 <= k < |at| ==> at[k] < |procs| && procs[at[k]] == live[k]
      ensures forall j, k :: 0 <= j < k < |at| ==> at[j] < at[k]
      ensures forall i :: 0 <= i < |procs| ==> (i in at <==> !procs[i].done)
    {
      live, at := [], [];
      for i := 0 to |procs|
        invariant |at| == |live| && forall k :: 0 <= k < |at| ==> at[k] < i && procs[at[k]] == live[k]
        invariant forall j, k :: 0 <= j < k < |at| ==> at[j] < at[k]
        invariant forall j :: 0 <= j < i ==> (j in at <==> !procs[j].done)
      {
        if !procs[i].done {
          live := live + [procs[i]];
          at := at + [i];
        }
      }
    }
  }
}
