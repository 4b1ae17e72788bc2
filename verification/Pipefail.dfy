/** Folding the stages of a finished chain into one result (pipeline.go:291-382). */
module Pipefail {
  import opened Bytes
  import opened Outcomes

  datatype Stage = Stage(
    program: Bytes,
    args: seq<Bytes>,
    outcome: Outcome,
    stderr: Bytes,
    okCodes: seq<int>,
    unchecked: bool)
  {
    /** clean */
    predicate Clean() { Accepts(okCodes, outcome) }

    /** What can fail the chain. */
    predicate Failed() { !unchecked && !Clean() }
  }

  const SIGPIPE := 13

  predicate IsSigpipe(o: Outcome) { o == Signalled(Some(SIGPIPE)) }

  /** A failure that is not just the victim of a stage downstream. */
  predicate Culprit(s: Stage) { s.Failed() && !IsSigpipe(s.outcome) }

  /** The first stage at or after `from` with the property, or the length. */
  function FirstFailed(stages: seq<Stage>, from: nat): (i: nat)
    requires from <= |stages|
    ensures from <= i <= |stages|
    ensures i < |stages| ==> stages[i].Failed()
    ensures forall j :: from <= j < i ==> !stages[j].Failed()
    decreases |stages| - from
  {
    if from == |stages| || stages[from].Failed() then from else FirstFailed(stages, from + 1)
  }

  function FirstCulprit(stages: seq<Stage>, from: nat): (i: nat)
    requires from <= |stages|
    ensures from <= i <= |stages|
    ensures i < |stages| ==> Culprit(stages[i])
    ensures forall j :: from <= j < i ==> !Culprit(stages[j])
    decreases |stages| - from
  {
    if from == |stages| || Culprit(stages[from]) then from else FirstCulprit(stages, from + 1)
  }

  /** The stage the chain is attributed to. */
  function Speaker(stages: seq<Stage>): (i: nat)
    requires stages != []
    ensures i < |stages|
  {
    if FirstCulprit(stages, 0) < |stages| then FirstCulprit(stages, 0)
    else if FirstFailed(stages, 0) < |stages| then FirstFailed(stages, 0)
    else |stages| - 1
  }

  /** An unchecked last stage that exited is forgiven by widening its ok-codes, never its code. */
  function Attributed(stages: seq<Stage>, lastStdout: Bytes, mechanism: Mechanism, duration: int): Result
    requires stages != []
  {
    var s := stages[Speaker(stages)];
    var forgiven :=
      if FirstFailed(stages, 0) == |stages| && s.unchecked && s.outcome.Exited? && !s.Clean()
      then [s.outcome.code] else [];
    Result(s.program, s.args, s.outcome, lastStdout, s.stderr, duration, s.okCodes + forgiven, mechanism)
  }

  /** For a checked stage, everything but exit 0 and the ok-codes of its own is a failure; the stage
      the result speaks of is the leftmost failure that is not a kill by SIGPIPE, else the leftmost
      failure, else the last stage. */
  ghost predicate Speaks(stages: seq<Stage>, i: nat)
    requires i < |stages|
  {
    var failed := (s: Stage) =>
      !s.unchecked && !(s.outcome.Exited? && (s.outcome.code == 0 || s.outcome.code in s.okCodes));
    var piped := (s: Stage) => s.outcome == Signalled(Some(13));
    var culprit := (s: Stage) => failed(s) && !piped(s);
    || (culprit(stages[i]) && forall j :: 0 <= j < i ==> !culprit(stages[j]))
    || ((forall j :: 0 <= j < |stages| ==> !culprit(stages[j]))
        && failed(stages[i]) && forall j :: 0 <= j < i ==> !failed(stages[j]))
    || ((forall j :: 0 <= j < |stages| ==> !failed(stages[j])) && i == |stages| - 1)
  }

  /** A result speaks of stage i: its command, outcome and stderr, and its ok-codes, widened by its own
      exit code when it is unchecked. */
  ghost predicate SpeaksOf(r: Result, stages: seq<Stage>, i: nat)
    requires i < |stages|
  {
    && Speaks(stages, i)
    && r.program == stages[i].program && r.args == stages[i].args
    && r.outcome == stages[i].outcome && r.stderr == stages[i].stderr
    && r.okCodes == stages[i].okCodes
                    + if stages[i].unchecked && r.outcome.Exited?
                         && r.outcome.code != 0 && r.outcome.code !in stages[i].okCodes
                      then [r.outcome.code] else []
  }

  method Pipefail(stages: seq<Stage>, lastStdout: Bytes, mechanism: Mechanism, duration: int) returns (r: Result)
    requires stages != []
    ensures r == Attributed(stages, lastStdout, mechanism, duration)
    ensures exists i :: 0 <= i < |stages| && SpeaksOf(r, stages, i)
    ensures r.stdout == lastStdout && r.mechanism == mechanism && r.duration == duration
  {
    AttributedSpeaks(stages, lastStdout, mechanism, duration);
    var last := stages[|stages| - 1];
    var failures: seq<Stage> := [];
    ghost var at: seq<nat> := [];
    assert Locates(stages[..0], failures, at);
    for i := 0 to |stages|
      invariant Locates(stages[..i], failures, at)
    {
      hide Locates;
      var s := stages[i];
      LocatesNext(stages, i, failures, at);
      if !s.unchecked && !s.Clean() {
        failures := failures + [s];
        at := at + [i];
      }
    }
    assert stages[..|stages|] == stages;
    if |failures| > 0 {
      hide Locates;
      var blamed := failures[0];
      var k := 0;
      while k < |failures|
        invariant k <= |failures| && blamed == failures[0]
        invariant forall j :: 0 <= j < k ==> IsSigpipe(failures[j].outcome)
      {
        if !IsSigpipe(failures[k].outcome) {
          blamed := failures[k];
          break;
        }
        k := k + 1;
      }
      BlamedSpeaks(stages, failures, at, k);
      assert blamed.okCodes + [] == blamed.okCodes;
      return Result(blamed.program, blamed.args, blamed.outcome, lastStdout, blamed.stderr, duration,
                    blamed.okCodes, mechanism);
    }
    NobodyFailed(stages, at);
    var okCodes := last.okCodes;
    assert okCodes + [] == okCodes;
    if last.unchecked {
      if last.outcome.Exited? && !last.Clean() {
        okCodes := last.okCodes + [last.outcome.code];
      }
    }
    r := Result(last.program, last.args, last.outcome, lastStdout, last.stderr, duration, okCodes, mechanism);
  }

  lemma LocatesNext(stages: seq<Stage>, i: nat, failures: seq<Stage>, at: seq<nat>)
    requires i < |stages| && Locates(stages[..i], failures, at)
    ensures if stages[i].Failed() then Locates(stages[..i + 1], failures + [stages[i]], at + [i])
            else Locates(stages[..i + 1], failures, at)
  {
    var init, more := stages[..i], stages[..i + 1];
    assert forall j :: 0 <= j < i ==> more[j] == init[j];
    if stages[i].Failed() {
      var at' := at + [i];
      forall j | 0 <= j < |more| && more[j].Failed() ensures j in at' {
        if j < i { assert init[j].Failed() && j in at; } else { assert at'[|at|] == j; }
      }
    }
  }

  lemma NobodyFailed(stages: seq<Stage>, at: seq<nat>)
    requires Locates(stages, [], at)
    ensures FirstFailed(stages, 0) == |stages| && FirstCulprit(stages, 0) == |stages|
  {
  }

  /** `at` lists, in order, exactly the positions of the failures. */
  ghost predicate Locates(stages: seq<Stage>, failures: seq<Stage>, at: seq<nat>) {
    && |at| == |failures|
    && (forall j :: 0 <= j < |at| ==> at[j] < |stages| && failures[j] == stages[at[j]] && failures[j].Failed())
    && (forall j, l :: 0 <= j < l < |at| ==> at[j] < at[l])
    && (forall j :: 0 <= j < |stages| && stages[j].Failed() ==> j in at)
  }

  lemma BlamedSpeaks(stages: seq<Stage>, failures: seq<Stage>, at: seq<nat>, k: nat)
    requires stages != [] && Locates(stages, failures, at) && k <= |failures| && failures != []
    requires forall j :: 0 <= j < k ==> IsSigpipe(failures[j].outcome)
    requires k < |failures| ==> !IsSigpipe(failures[k].outcome)
    ensures stages[Speaker(stages)] == if k < |failures| then failures[k] else failures[0]
    ensures FirstFailed(stages, 0) < |stages|
  {
    var f, c := FirstFailed(stages, 0), FirstCulprit(stages, 0);
    assert stages[at[0]].Failed();
    var x :| 0 <= x < |at| && at[x] == f;
    assert x == 0;
    if k < |failures| {
      assert Culprit(stages[at[k]]);
    }
    if c < |stages| {
      var y :| 0 <= y < |at| && at[y] == c;
      assert Culprit(failures[y]);
      assert y == k;
    }
  }

  // ---- What the fold means ----

  lemma ExactlyOneSpeaks(stages: seq<Stage>, i: nat)
    requires i < |stages|
    ensures Speaks(stages, i) <==> i == Speaker(stages)
  {
    assert forall j :: 0 <= j < |stages| && stages[j].Failed() ==> FirstFailed(stages, 0) <= j;
    assert forall j :: 0 <= j < |stages| && Culprit(stages[j]) ==> FirstCulprit(stages, 0) <= j;
  }

  lemma AttributedSpeaks(stages: seq<Stage>, lastStdout: Bytes, mechanism: Mechanism, duration: int)
    requires stages != []
    ensures var r := Attributed(stages, lastStdout, mechanism, duration);
            && (exists i :: 0 <= i < |stages| && SpeaksOf(r, stages, i))
            && r.stdout == lastStdout && r.mechanism == mechanism && r.duration == duration
  {
    ExactlyOneSpeaks(stages, Speaker(stages));
    hide Speaks;
    assert SpeaksOf(Attributed(stages, lastStdout, mechanism, duration), stages, Speaker(stages));
  }

  /** For every chain, in exit codes: the result is exit 0 or an exit code in its ok-codes exactly when
      every checked stage exited with 0 or an ok-code of its own, and the last stage did so too or is
      unchecked and exited. */
  lemma SuccessMeansNoCheckedFailure(stages: seq<Stage>, lastStdout: Bytes, mechanism: Mechanism, duration: int)
    requires stages != []
    ensures var r := Attributed(stages, lastStdout, mechanism, duration);
            var last := stages[|stages| - 1];
            var well := (s: Stage) => s.outcome.Exited? && (s.outcome.code == 0 || s.outcome.code in s.okCodes);
            && (r.Success() <==> r.outcome.Exited? && (r.outcome.code == 0 || r.outcome.code in r.okCodes))
            && (r.Success() <==>
                 && (forall i :: 0 <= i < |stages| && !stages[i].unchecked ==> well(stages[i]))
                 && (well(last) || (last.unchecked && last.outcome.Exited?)))
  {
    var r := Attributed(stages, lastStdout, mechanism, duration);
    var f := FirstFailed(stages, 0);
    if f < |stages| {
      var s := stages[Speaker(stages)];
      assert s.Failed() && r.okCodes == s.okCodes;
    } else {
      assert forall i :: 0 <= i < |stages| ==> !stages[i].Failed();
    }
  }

  /** Stages that cannot fail the chain are invisible unless they are last. */
  lemma InsertInvisible(a: seq<Stage>, s: Stage, b: seq<Stage>, lastStdout: Bytes, mechanism: Mechanism, duration: int)
    requires b != [] && (s.Clean() || s.unchecked)
    ensures Attributed(a + [s] + b, lastStdout, mechanism, duration)
         == Attributed(a + b, lastStdout, mechanism, duration)
  {
    var long, short := a + [s] + b, a + b;
    FirstsShift(a, s, b);
    var i := Speaker(short);
    assert long[if i < |a| then i else i + 1] == short[i];
  }

  lemma FirstsShift(a: seq<Stage>, s: Stage, b: seq<Stage>)
    requires !s.Failed()
    ensures var f := FirstFailed(a + b, 0); FirstFailed(a + [s] + b, 0) == if f < |a| then f else f + 1
    ensures var c := FirstCulprit(a + b, 0); FirstCulprit(a + [s] + b, 0) == if c < |a| then c else c + 1
  {
    var long, short := a + [s] + b, a + b;
    assert forall k :: 0 <= k < |long| && k != |a| ==> long[k] == short[if k < |a| then k else k - 1];
    assert forall k :: 0 <= k < |short| ==> short[k] == long[if k < |a| then k else k + 1];
    assert long[|a|] == s;
  }
}
