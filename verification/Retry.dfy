/** The retry loop (command.go:280-311), and the retry loop over a replayed cassette. */
module Retry {
  import opened Bytes
  import opened Outcomes
  import Utf8
  import Cassette

  datatype Err = Exit(error: ExitError) | CancelErr(cause: Bytes) | OtherErr(cause: Bytes)

  /** What one call of the runner comes back with. */
  datatype Attempt = Finished(result: Result) | Broken(error: Err)

  /** retryIf None is the nil classifier. */
  datatype Policy = Policy(maxAttempts: int, retryIf: Option<Err -> bool>)

  datatype Verdict = Done(value: Value) | Gave(error: Err)

  /** A verb applied to one attempt. */
  function Judge(verb: Verb, a: Attempt): Verdict {
    match a
    case Broken(e) => Gave(e)
    case Finished(res) =>
      match Extract(verb, res)
      case Got(v) => Done(v)
      case Failed(e) => Gave(Exit(e))
  }

  function MaxAttempts(policy: Option<Policy>): (n: nat)
    ensures n >= 1
  {
    if policy.Some? && policy.value.maxAttempts > 1 then policy.value.maxAttempts else 1
  }

  /** The policy would try again after this error, budget aside. */
  predicate Retryable(policy: Option<Policy>, e: Err) {
    !e.CancelErr? && policy.Some? && policy.value.retryIf.Some? && policy.value.retryIf.value(e)
  }

  /** A command with its policy and verb, and the environment: what each attempt comes back with, and
      whether the sleep after it runs its course. */
  datatype Setup = Setup(policy: Option<Policy>, verb: Verb, runner: nat -> Attempt, elapses: nat -> bool)
  {
    predicate Final(t: nat) {
      var v := Judge(verb, runner(t));
      v.Done? || !Retryable(policy, v.error) || t >= MaxAttempts(policy)
    }

    /** A run of the loop: attempts 1 to `tries` are made, the last being the first final one or the
        first whose sleep is cut short. */
    ghost predicate Runs(v: Verdict, tries: nat) {
      && 1 <= tries <= MaxAttempts(policy)
      && (forall t: nat :: 1 <= t < tries ==> !Final(t) && elapses(t))
      && if Final(tries) then v == Judge(verb, runner(tries)) else !elapses(tries) && v == Gave(CancelErr([]))
    }
  }

  /** What an attempt is worth to a verb, in exit codes. */
  ghost predicate Worth(verb: Verb, a: Attempt, v: Verdict) {
    match a
    case Broken(e) => v == Gave(e)
    case Finished(res) =>
      && (v.Gave? ==> v.error.Exit?)
      && Extracts(verb, res, if v.Done? then Got(v.value) else Failed(v.error.error))
  }

  lemma JudgedInCodes(verb: Verb, a: Attempt)
    ensures Worth(verb, a, Judge(verb, a))
  {
    if a.Finished? { ExtractInCodes(verb, a.result); }
  }

  /** The verdict is what the last attempt is worth, unless the sleep after it was cut short. */
  method RetryRun(s: Setup) returns (v: Verdict, tries: nat)
    ensures s.Runs(v, tries)
    ensures Worth(s.verb, s.runner(tries), v) || (v == Gave(CancelErr([])) && !s.elapses(tries))
  {
    var maxAttempts := 1;
    if s.policy.Some? && s.policy.value.maxAttempts > 1 {
      maxAttempts := s.policy.value.maxAttempts;
    }
    tries := 1;
    while true
      invariant 1 <= tries <= maxAttempts
      invariant forall t: nat :: 1 <= t < tries ==> !s.Final(t) && s.elapses(t)
      decreases maxAttempts - tries
    {
      v := Judge(s.verb, s.runner(tries));
      JudgedInCodes(s.verb, s.runner(tries));
      if v.Done? {
        return;
      }
      if v.error.CancelErr? {
        return;
      }
      if s.policy.None? || tries >= maxAttempts
         || s.policy.value.retryIf.None? || !s.policy.value.retryIf.value(v.error)
      {
        return;
      }
      if !s.elapses(tries) {
        v := Gave(CancelErr([]));
        return;
      }
      tries := tries + 1;
    }
  }

  /** The environment leaves no choice. */
  lemma RunUnique(s: Setup, v: Verdict, tries: nat, v': Verdict, tries': nat)
    requires s.Runs(v, tries) && s.Runs(v', tries')
    ensures v == v' && tries == tries'
  {
    assert s.Final(tries) || !s.elapses(tries);
    assert s.Final(tries') || !s.elapses(tries');
  }

  /** The number of attempts is the least of the budget, the first success, the first failure that is
      not retryable, a cancelled one above all, and the first sleep cut short; unless it was that, the
      last attempt decides. */
  lemma TriesLeast(s: Setup, v: Verdict, tries: nat)
    requires s.Runs(v, tries)
    ensures var most := if s.policy.Some? && s.policy.value.maxAttempts > 1 then s.policy.value.maxAttempts else 1;
            var again := (w: Verdict) =>
              && w.Gave? && !w.error.CancelErr?
              && s.policy.Some? && s.policy.value.retryIf.Some? && s.policy.value.retryIf.value(w.error);
            && 1 <= tries <= most
            && (forall t: nat :: 1 <= t < tries ==> again(Judge(s.verb, s.runner(t))) && s.elapses(t))
            && (|| (v == Judge(s.verb, s.runner(tries)) && (tries == most || !again(v)))
                || (v == Gave(CancelErr([])) && !s.elapses(tries)
                    && tries < most && again(Judge(s.verb, s.runner(tries)))))
  {
    hide Judge;
    forall t: nat | 1 <= t < tries
      ensures var w := Judge(s.verb, s.runner(t)); w.Gave? && Retryable(s.policy, w.error)
    {
      assert !s.Final(t);
    }
  }

  // ---- Retrying against a recording ----

  ghost predicate SameErr(a: Err, b: Err) {
    a == b || (a.Exit? && b.Exit? && a.error == b.error.(mechanism := a.error.mechanism))
  }

  ghost predicate SameVerdict(a: Verdict, b: Verdict) {
    a == b || (a.Gave? && b.Gave? && SameErr(a.error, b.error))
  }

  /** A classifier that does not look at the mechanism. */
  ghost predicate Blind(policy: Option<Policy>) {
    policy.Some? && policy.value.retryIf.Some? ==>
      forall a, b :: SameErr(a, b) ==> policy.value.retryIf.value(a) == policy.value.retryIf.value(b)
  }

  /** A result the inner runner may give for this command, and a cassette can keep whole. */
  ghost predicate Recordable(inv: Cassette.Invocation, res: Result) {
    && res.program == inv.program && res.args == inv.args && res.okCodes == inv.okCodes
    && res.outcome != Signalled(None) && Utf8.Valid(res.stdout) && Utf8.Valid(res.stderr) && CR !in res.stderr
  }

  function AttemptOf(r: Cassette.Reply): Attempt {
    if r.Ran? then Finished(r.result) else Broken(OtherErr([]))
  }

  /** The attempts made while recording. */
  function Calls(inv: Cassette.Invocation, results: nat -> Result, tries: nat): (calls: seq<Cassette.Call>)
    ensures |calls| == tries && forall i :: 0 <= i < tries ==> calls[i] == Cassette.Call(inv, results(i + 1))
  {
    seq(tries, i requires 0 <= i < tries => Cassette.Call(inv, results(i + 1)))
  }

  /** Attempt t of the same command against a fresh replay. */
  function Replayed(inv: Cassette.Invocation, log: seq<Cassette.Entry>, t: nat): Attempt {
    AttemptOf(Cassette.AnswerTo(log, Repeated(inv, if t == 0 then 0 else t - 1), inv))
  }

  /** The lookups of n attempts. */
  function Repeated(inv: Cassette.Invocation, n: nat): (keys: seq<Bytes>)
    ensures |keys| == n && forall i :: 0 <= i < n ==> keys[i] == inv.Key()
  {
    seq(n, i => inv.Key())
  }

  lemma SameJudgement(verb: Verb, a: Result, b: Result)
    requires a.program == b.program && a.outcome == b.outcome && a.stdout == b.stdout && a.stderr == b.stderr
    requires a.okCodes == b.okCodes
    ensures SameVerdict(Judge(verb, Finished(a)), Judge(verb, Finished(b)))
  {
  }

  lemma RecordableParts(inv: Cassette.Invocation, res: Result)
    requires Recordable(inv, res)
    ensures res.program == inv.program && res.args == inv.args && res.okCodes == inv.okCodes
    ensures res.outcome != Signalled(None) && Utf8.Valid(res.stdout) && Utf8.Valid(res.stderr) && CR !in res.stderr
  {
  }

  lemma AttemptReplayed(inv: Cassette.Invocation, results: nat -> Result, tries: nat, t: nat, verb: Verb)
    requires inv.IsText() && 1 <= t <= tries
    requires forall i: nat :: 1 <= i <= tries ==> Recordable(inv, results(i))
    ensures var log := Cassette.SavedLog(Cassette.Recording(Calls(inv, results, tries)));
            SameVerdict(Judge(verb, Finished(results(t))), Judge(verb, Replayed(inv, log, t)))
  {
    hide *;
    var calls := Calls(inv, results, tries);
    var log := Cassette.SavedLog(Cassette.Recording(calls));
    forall j | 0 <= j < tries ensures calls[j].inv == inv && calls[j].result.outcome != Signalled(None) {
      RecordableParts(inv, results(j + 1));
    }
    AllOfOne(inv, calls);
    RecordableParts(inv, results(t));
    assert calls[t - 1] == Cassette.Call(inv, results(t));
    Cassette.ReplayEqualsRecording(calls, t - 1);
    KeysOfOne(inv, calls, t - 1);
    ReplayedIs(inv, log, t);
    var r := Cassette.AnswerTo(log, Cassette.Keys(calls)[..t - 1], inv);
    SameJudgement(verb, results(t), r.result);
  }

  lemma AllOfOne(inv: Cassette.Invocation, calls: seq<Cassette.Call>)
    requires inv.IsText()
    requires forall j :: 0 <= j < |calls| ==> calls[j].inv == inv && calls[j].result.outcome != Signalled(None)
    ensures Cassette.AllText(calls) && Cassette.Numbered(calls)
  {
    hide inv.IsText;
  }

  lemma KeysOfOne(inv: Cassette.Invocation, calls: seq<Cassette.Call>, n: nat)
    requires n <= |calls| && forall j :: 0 <= j < |calls| ==> calls[j].inv == inv
    ensures Cassette.Keys(calls)[..n] == Repeated(inv, n)
  {
    hide inv.Key;
  }

  lemma ReplayedIs(inv: Cassette.Invocation, log: seq<Cassette.Entry>, t: nat)
    requires t >= 1 && Cassette.AnswerTo(log, Repeated(inv, t - 1), inv).Ran?
    ensures Replayed(inv, log, t) == Finished(Cassette.AnswerTo(log, Repeated(inv, t - 1), inv).result)
  {
    hide Cassette.AnswerTo, Repeated;
  }

  lemma SameFinal(s: Setup, r: Setup, t: nat)
    requires s.policy == r.policy && s.verb == r.verb && Blind(s.policy)
    requires SameVerdict(Judge(s.verb, s.runner(t)), Judge(r.verb, r.runner(t)))
    ensures s.Final(t) == r.Final(t)
  {
    hide Judge;
  }

  /** Retrying against a fresh replay of what the attempts recorded makes as many attempts and ends in
      the same value or the same error, up to the mechanism. */
  lemma RetryOverReplay(s: Setup, r: Setup, inv: Cassette.Invocation, results: nat -> Result,
                        v: Verdict, tries: nat, v': Verdict, tries': nat)
    requires inv.IsText() && Blind(s.policy)
    requires (forall t: nat :: s.runner(t) == Finished(results(t))) && s.Runs(v, tries)
    requires forall i: nat :: 1 <= i <= tries ==> Recordable(inv, results(i))
    requires r.policy == s.policy && r.verb == s.verb && r.elapses == s.elapses && r.Runs(v', tries')
    requires forall t: nat ::
               r.runner(t) == Replayed(inv, Cassette.SavedLog(Cassette.Recording(Calls(inv, results, tries))), t)
    ensures tries' == tries && SameVerdict(v, v')
  {
    hide Judge, Recordable, Replayed, SameVerdict;
    forall t: nat | 1 <= t <= tries
      ensures s.Final(t) == r.Final(t) && SameVerdict(Judge(s.verb, s.runner(t)), Judge(r.verb, r.runner(t)))
    {
      AttemptReplayed(inv, results, tries, t, s.verb);
      SameFinal(s, r, t);
    }
    hide s.Final;
    var w := if r.Final(tries) then Judge(r.verb, r.runner(tries)) else Gave(CancelErr([]));
    assert r.Runs(w, tries);
    RunUnique(r, v', tries', w, tries);
    SameItself(v);
  }

  lemma SameItself(v: Verdict)
    ensures SameVerdict(v, v)
  {
  }
}
