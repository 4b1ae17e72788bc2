/** How a run ended and what was captured (result.go): the values every other component
    reads, the success test, the three success-requiring verbs and newline folding. */
module Outcomes {
  import opened Bytes

  datatype Option<+T> = None | Some(value: T)

  /** signal == None is a signal kill with no known number. */
  datatype Outcome = Exited(code: int) | Signalled(signal: Option<int>) | TimedOut

  datatype Mechanism = Unknown | JobObject | CgroupV2 | ProcessGroup

  datatype Result = Result(
    program: Bytes,
    args: seq<Bytes>,
    outcome: Outcome,
    stdout: Bytes,
    stderr: Bytes,
    duration: int,
    okCodes: seq<int>,
    mechanism: Mechanism)
  {
    predicate Success() { Accepts(okCodes, outcome) }

    function ToExitError(): ExitError {
      ExitError(program, outcome, Normalize(stdout), stderr, mechanism)
    }
  }

  datatype ExitError = ExitError(
    program: Bytes,
    outcome: Outcome,
    stdout: Bytes,
    stderr: Bytes,
    mechanism: Mechanism)

  predicate Accepts(okCodes: seq<int>, o: Outcome) {
    o.Exited? && (o.code == 0 || o.code in okCodes)
  }

  // ---- The success-requiring verbs ----

  datatype Verb = Run | ExitCode | Probe

  datatype Value = Text(text: Bytes) | Code(code: int) | Answer(yes: bool)

  datatype Extracted = Got(value: Value) | Failed(error: ExitError)

  /** resultRun, resultExitCode and resultProbe. */
  function Extract(verb: Verb, res: Result): Extracted {
    match verb
    case Run =>
      if res.Success() then Got(Text(TrimRight(Normalize(res.stdout)))) else Failed(res.ToExitError())
    case ExitCode =>
      if res.outcome.Exited? then Got(Code(res.outcome.code)) else Failed(res.ToExitError())
    case Probe =>
      if res.outcome == Exited(0) then Got(Answer(true))
      else if res.outcome == Exited(1) then Got(Answer(false))
      else Failed(res.ToExitError())
  }

  /** strings.TrimRight(s, " \t\r\n"). */
  function TrimRight(s: Bytes): Bytes {
    if s != [] && s[|s| - 1] in {32, 9, 13, 10} then TrimRight(s[..|s| - 1]) else s
  }

  // ---- Newline folding ----

  /** strings.ReplaceAll(s, "\r\n", "\n"). */
  function FoldCrLf(s: Bytes): Bytes {
    if |s| >= 2 && s[0] == CR && s[1] == NL then [NL] + FoldCrLf(s[2..])
    else if s == [] then []
    else [s[0]] + FoldCrLf(s[1..])
  }

  /** strings.ReplaceAll(s, "\r", "\n"). */
  function FoldCr(s: Bytes): Bytes {
    if s == [] then [] else [if s[0] == CR then NL else s[0]] + FoldCr(s[1..])
  }

  /** normalizeNewlines, the fast exit included. */
  function Normalize(s: Bytes): Bytes {
    if CR !in s then s else FoldCr(FoldCrLf(s))
  }

  /** The same folding read off in one pass: every CRLF, lone CR and LF is one line end. */
  function OnePass(s: Bytes): Bytes {
    if s == [] then []
    else if s[0] != CR then [s[0]] + OnePass(s[1..])
    else if |s| >= 2 && s[1] == NL then [NL] + OnePass(s[2..])
    else [NL] + OnePass(s[1..])
  }

  lemma {:induction false} FoldsAreOnePass(s: Bytes)
    ensures FoldCr(FoldCrLf(s)) == OnePass(s)
    decreases |s|
  {
    if s != [] {
      if |s| >= 2 && s[0] == CR && s[1] == NL {
        FoldsAreOnePass(s[2..]);
        assert FoldCrLf(s)[1..] == FoldCrLf(s[2..]);
      } else {
        FoldsAreOnePass(s[1..]);
        assert FoldCrLf(s)[1..] == FoldCrLf(s[1..]);
      }
    }
  }

  lemma {:induction false} OnePassWithoutCr(s: Bytes)
    requires CR !in s
    ensures OnePass(s) == s
  {
    if s != [] { OnePassWithoutCr(s[1..]); }
  }

  lemma {:induction false} OnePassRemovesCr(s: Bytes)
    ensures CR !in OnePass(s)
    decreases |s|
  {
    if s != [] {
      if s[0] == CR && |s| >= 2 && s[1] == NL { OnePassRemovesCr(s[2..]); } else { OnePassRemovesCr(s[1..]); }
    }
  }

  /** The two ReplaceAll passes behind their fast exit are one left-to-right pass; they leave no
      carriage return, change nothing exactly when there was none, and are idempotent. */
  lemma NormalizeLaws(s: Bytes)
    ensures Normalize(s) == OnePass(s)
    ensures CR !in Normalize(s)
    ensures Normalize(s) == s <==> CR !in s
    ensures Normalize(Normalize(s)) == Normalize(s)
  {
    FoldsAreOnePass(s);
    OnePassRemovesCr(s);
    if CR !in s { OnePassWithoutCr(s); }
  }

  lemma {:induction false} OnePassBehind(a: Bytes, b: Bytes)
    requires CR !in a
    ensures OnePass(a + b) == a + OnePass(b)
  {
    if a == [] {
      assert a + b == b;
    } else {
      OnePassBehind(a[1..], b);
      assert (a + b)[1..] == a[1..] + b;
    }
  }

  /** What the folding is: up to the first carriage return everything stays; that one becomes a line
      feed, together with a line feed right behind it; and so on behind them. */
  lemma NormalizeAtCr(a: Bytes, b: Bytes)
    requires CR !in a
    ensures Normalize(a) == a
    ensures Normalize(a + [CR, NL] + b) == a + [NL] + Normalize(b)
    ensures b == [] || b[0] != NL ==> Normalize(a + [CR] + b) == a + [NL] + Normalize(b)
  {
    hide OnePass;
    NormalizeLaws(a);
    NormalizeLaws(b);
    NormalizeLaws(a + [CR, NL] + b);
    NormalizeLaws(a + [CR] + b);
    assert a + [CR, NL] + b == a + ([CR, NL] + b) && a + [CR] + b == a + ([CR] + b);
    OnePassBehind(a, [CR, NL] + b);
    OnePassBehind(a, [CR] + b);
    OnePassAtCr(b);
  }

  lemma OnePassAtCr(b: Bytes)
    ensures OnePass([CR, NL] + b) == [NL] + OnePass(b)
    ensures b == [] || b[0] != NL ==> OnePass([CR] + b) == [NL] + OnePass(b)
  {
    assert ([CR, NL] + b)[2..] == b && ([CR] + b)[1..] == b;
  }

  // ---- What the verbs make of a result ----

  /** `t` is `s` without its trailing blanks. */
  ghost predicate WithoutBlanks(t: Bytes, s: Bytes) {
    && t <= s && (t == [] || t[|t| - 1] !in {' ' as int, '\t' as int, '\r' as int, '\n' as int})
    && forall i :: |t| <= i < |s| ==> s[i] in {' ' as int, '\t' as int, '\r' as int, '\n' as int}
  }

  lemma {:induction false} TrimRightIs(s: Bytes)
    ensures WithoutBlanks(TrimRight(s), s)
  {
    if s != [] && s[|s| - 1] in {32, 9, 13, 10} {
      TrimRightIs(s[..|s| - 1]);
    }
  }

  /** In exit codes: Run takes 0 and the ok-codes and gives the trimmed text, ExitCode takes any code,
      Probe answers 0 with yes and 1 with no; whatever else there is comes back as the error. */
  ghost predicate Extracts(verb: Verb, res: Result, x: Extracted) {
    var codes := match verb
      case Run => res.outcome.Exited? && (res.outcome.code == 0 || res.outcome.code in res.okCodes)
      case ExitCode => res.outcome.Exited?
      case Probe => res.outcome == Exited(0) || res.outcome == Exited(1);
    if codes then
      x.Got? && match verb
                case Run => x.value.Text? && WithoutBlanks(x.value.text, Normalize(res.stdout))
                case ExitCode => x.value == Code(res.outcome.code)
                case Probe => x.value == Answer(res.outcome.code == 0)
    else
      x == Failed(ExitError(res.program, res.outcome, Normalize(res.stdout), res.stderr, res.mechanism))
  }

  lemma ExtractInCodes(verb: Verb, res: Result)
    ensures Extracts(verb, res, Extract(verb, res))
  {
    TrimRightIs(Normalize(res.stdout));
  }
}
