/** The POSIX process-group job (internal/sys/job_unix.go): the member lists behind containment
    and the broadcast that reaches every one of them. */
module Job {
  import opened Outcomes

  type Pid = p: int | p > 0 witness 1

  /** What kill(2) answered. */
  datatype Errno = Delivered | ESRCH | EPERM | Other(code: int)

  /** What deliver does not report. */
  predicate Benign(e: Errno) { e.Delivered? || e.ESRCH? || e.EPERM? }

  /** What really leaves nobody behind the target: EPERM is also said of a live process that the
      caller may not signal. */
  predicate Gone(e: Errno) { e.Delivered? || e.ESRCH? }

  function GroupTarget(g: int): int { -g }

  /** Groups are signalled by negative target, solo processes by pid. */
  function Targets(pgids: seq<Pid>, solo: seq<Pid>): (ts: seq<int>)
    ensures |ts| == |pgids| + |solo|
  {
    seq(|pgids|, i requires 0 <= i < |pgids| => GroupTarget(pgids[i])) + solo
  }

  /** The error deliver keeps: the first answer that is not benign. */
  function Noted(firstErr: Option<int>, e: Errno): Option<int> {
    if e.Other? && firstErr.None? then Some(e.code) else firstErr
  }

  function FirstError(answers: seq<Errno>): Option<int> {
    if answers == [] then None
    else Noted(FirstError(answers[..|answers| - 1]), answers[|answers| - 1])
  }

  /** Every tracked group and every solo process is a target, and nothing else is. */
  lemma TargetsAreTheMembers(pgids: seq<Pid>, solo: seq<Pid>, t: int)
    ensures t in Targets(pgids, solo) <==> if t < 0 then -t in pgids else t in solo
  {
    var ts := Targets(pgids, solo);
    if t in ts {
      var i :| 0 <= i < |ts| && ts[i] == t;
      if i < |pgids| { assert pgids[i] == -t; } else { assert solo[i - |pgids|] == t; }
    }
    if t < 0 && -t in pgids {
      var i :| 0 <= i < |pgids| && pgids[i] == -t;
      assert ts[i] == t;
    }
    if t >= 0 && t in solo {
      var i :| 0 <= i < |solo| && solo[i] == t;
      assert ts[|pgids| + i] == t;
    }
  }

  /** The broadcast reports nothing exactly when every answer was benign, and otherwise the first
      answer that was not. */
  lemma {:induction false} FirstErrorIsFirst(answers: seq<Errno>)
    ensures FirstError(answers).None? <==> forall i :: 0 <= i < |answers| ==> Benign(answers[i])
    ensures FirstError(answers).Some? ==> exists i ::
              && 0 <= i < |answers| && answers[i] == Other(FirstError(answers).value)
              && forall j :: 0 <= j < i ==> Benign(answers[j])
  {
    if answers != [] {
      var n := |answers| - 1;
      var init := answers[..n];
      FirstErrorIsFirst(init);
      assert forall i :: 0 <= i < n ==> init[i] == answers[i];
      assert answers[n].Other? || Benign(answers[n]);
      if FirstError(init).Some? {
        var i :| 0 <= i < n && init[i] == Other(FirstError(init).value) && forall j :: 0 <= j < i ==> Benign(init[j]);
        assert answers[i] == Other(FirstError(answers).value);
        assert forall j :: 0 <= j < i ==> Benign(answers[j]);
      }
    }
  }

  lemma TargetsAt(pgids: seq<Pid>, solo: seq<Pid>)
    ensures forall i :: 0 <= i < |pgids| ==> Targets(pgids, solo)[i] == GroupTarget(pgids[i])
    ensures forall i :: 0 <= i < |solo| ==> Targets(pgids, solo)[|pgids| + i] == solo[i]
  {
  }

  lemma FirstErrorNext(answers: seq<Errno>, i: nat)
    requires i < |answers|
    ensures FirstError(answers[..i + 1]) == Noted(FirstError(answers[..i]), answers[i])
  {
    assert answers[..i + 1][..i] == answers[..i];
  }

  lemma NoErrorYet(answers: seq<Errno>)
    ensures FirstError(answers[..0]) == None && answers[..|answers|] == answers
  {
  }

  class PgroupJob {
    var pgids: seq<Pid>
    var solo: seq<Pid>

    constructor ()
      ensures pgids == [] && solo == []
    {
      pgids, solo := [], [];
    }

    /** `process` is the started process, if there is one. */
    method Assign(process: Option<Pid>) returns (ok: bool)
      modifies this`pgids
      ensures ok == process.Some?
      ensures pgids == if process.Some? then old(pgids) + [process.value] else old(pgids)
    {
      if process.None? {
        return false;
      }
      pgids := pgids + [process.value];
      ok := true;
    }

    /** `setpgid` and `probe` are the answers of setpgid(pid, pid) and kill(pid, 0). */
    method Adopt(pid: Pid, setpgid: bool, probe: bool)
      modifies this
      ensures pgids == if setpgid then old(pgids) + [pid] else old(pgids)
      ensures solo == if !setpgid && probe then old(solo) + [pid] else old(solo)
    {
      if setpgid {
        pgids := pgids + [pid];
      } else if probe {
        TrackSolo(pid);
      }
    }

    method TrackSolo(pid: Pid)
      modifies this`solo
      ensures solo == old(solo) + [pid]
    {
      solo := solo + [pid];
    }

    /** Signal, and with SIGKILL also Kill: every member is tried, in order, whatever the earlier
        answers were. `kernel` holds the answers; `sent` the kill(2) calls that were made. */
    method Signal(sig: int, kernel: seq<Errno>) returns (firstErr: Option<int>, sent: seq<(int, int)>)
      requires |kernel| == |pgids| + |solo|
      ensures firstErr == FirstError(kernel)
      ensures |sent| == |pgids| + |solo|
      ensures forall i :: 0 <= i < |pgids| ==> sent[i] == (-(pgids[i] as int), sig)
      ensures forall i :: 0 <= i < |solo| ==> sent[|pgids| + i] == (solo[i], sig)
    {
      hide Targets, FirstError, Noted;
      var groups, singles := pgids, solo;
      TargetsAt(groups, singles);
      ghost var ts := Targets(groups, singles);
      NoErrorYet(kernel);
      firstErr, sent := None, [];
      for i := 0 to |groups|
        invariant |sent| == i && forall j :: 0 <= j < i ==> sent[j] == (ts[j], sig)
        invariant firstErr == FirstError(kernel[..i])
      {
        sent := sent + [(GroupTarget(groups[i]), sig)];
        firstErr := Deliver(kernel[i], firstErr);
        FirstErrorNext(kernel, i);
      }
      var n := |groups|;
      for i := 0 to |singles|
        invariant |sent| == n + i && forall j :: 0 <= j < n + i ==> sent[j] == (ts[j], sig)
        invariant firstErr == FirstError(kernel[..n + i])
      {
        assert ts[n + i] == singles[i];
        sent := sent + [(singles[i], sig)];
        firstErr := Deliver(kernel[n + i], firstErr);
        FirstErrorNext(kernel, n + i);
      }
    }

    method Deliver(answer: Errno, firstErr: Option<int>) returns (r: Option<int>)
      ensures r == Noted(firstErr, answer)
    {
      r := firstErr;
      if !(answer.Delivered? || answer.ESRCH? || answer.EPERM?) {
        if firstErr.None? {
          r := Some(answer.code);
        }
      }
    }
  }
}
