/** WaitForLine (probe.go:22-79): a reader of the line channel against a producer that runs between
    any two of its receives, with a timer and a context that may end at any moment. */
module Probe {
  import opened Bytes

  /** The channel of lines, with what has ever been sent on it and what was received from it. */
  class LineChannel {
    var buffer: seq<Bytes>
    var closed: bool
    ghost var history: seq<Bytes>
    ghost var consumed: seq<Bytes>

    ghost predicate Valid()
      reads this
    {
      history == consumed + buffer
    }

    constructor ()
      ensures Valid() && history == [] && !closed
    {
      buffer, closed, history, consumed := [], false, [], [];
    }

    /** The producer's turn; nothing is sent once the channel is closed. */
    method Produce(turn: Turn)
      requires Valid()
      modifies this
      ensures Valid() && old(history) <= history && consumed == old(consumed) && old(buffer) <= buffer
      ensures old(closed) ==> closed && buffer == old(buffer) && history == old(history)
      ensures !old(closed) ==> buffer == old(buffer) + turn.arrivals && closed == turn.closes
    {
      if !closed {
        buffer := buffer + turn.arrivals;
        history := history + turn.arrivals;
        closed := turn.closes;
      }
    }

    /** A receive that does not block. */
    method Receive() returns (r: Receipt)
      requires Valid()
      modifies this`buffer, this`consumed
      ensures Valid()
      ensures if old(buffer) != [] then r == Got(old(buffer)[0]) && buffer == old(buffer)[1..]
              else r == (if closed then Closed else Empty) && buffer == []
      ensures consumed == old(consumed) + if r.Got? then [r.line] else []
    {
      if buffer == [] {
        return if closed then Closed else Empty;
      }
      r := Got(buffer[0]);
      consumed := consumed + [buffer[0]];
      buffer := buffer[1..];
    }

    /** The select statement: line, timer or context. */
    method SelectOne(turn: Turn) returns (x: Select)
      requires Valid()
      modifies this`buffer, this`consumed
      ensures Valid() && Chooses(x, turn, old(buffer), 0, closed)
      ensures consumed == old(consumed) + if x.Took? then [x.line] else []
      ensures buffer == if x.Took? && old(buffer) != [] then old(buffer)[1..] else old(buffer)
    {
      if (buffer != [] || closed) && (turn.pick.Line? || !(turn.timerFired || turn.cancelled)) {
        var receipt := Receive();
        return if receipt.Got? then Took(receipt.line) else SawEnd;
      } else if turn.timerFired && (turn.pick.Timer? || !turn.cancelled) {
        return TimerRead;
      } else if turn.cancelled {
        return ContextRead;
      }
      x := Blocked;
    }
  }

  datatype Receipt = Got(line: Bytes) | Closed | Empty

  /** Which ready case the select takes. */
  datatype Pick = Line | Timer | Context

  /** What happens before one receive, and what the select finds. */
  datatype Turn = Turn(arrivals: seq<Bytes>, closes: bool, timerFired: bool, cancelled: bool, pick: Pick)

  datatype Outcome = NotEnabled | Found(line: Bytes) | NotReady | Cancelled | Waiting

  /** The first line with the property, or the length. */
  function FirstMatch(lines: seq<Bytes>, matches: Bytes -> bool): (i: nat)
    ensures i <= |lines|
    ensures i < |lines| ==> matches(lines[i])
    ensures forall j :: 0 <= j < i ==> !matches(lines[j])
  {
    if lines == [] || matches(lines[0]) then 0 else 1 + FirstMatch(lines[1..], matches)
  }

  /** Sending more never moves a first match. */
  lemma FirstMatchStable(lines: seq<Bytes>, more: seq<Bytes>, matches: Bytes -> bool)
    requires lines <= more
    ensures FirstMatch(lines, matches) <= FirstMatch(more, matches)
    ensures FirstMatch(lines, matches) < |lines| ==> FirstMatch(more, matches) == FirstMatch(lines, matches)
  {
    assert forall k :: 0 <= k < |lines| ==> more[k] == lines[k];
  }

  /** Where nothing matches, searching goes on behind it. */
  lemma FirstMatchBehind(before: seq<Bytes>, rest: seq<Bytes>, matches: Bytes -> bool)
    requires FirstMatch(before, matches) == |before|
    ensures FirstMatch(before + rest, matches) == |before| + FirstMatch(rest, matches)
  {
    var all := before + rest;
    assert forall k :: 0 <= k < |before| ==> all[k] == before[k];
    assert forall k :: 0 <= k < |rest| ==> all[|before| + k] == rest[k];
    assert forall k :: |before| <= k < |all| ==> all[k] == rest[k - |before|];
  }

  /** What a call that has received `taken`, of a stream whose unread part is now `stream`, may say. */
  ghost predicate Explains(r: Outcome, taken: nat, stream: seq<Bytes>, matches: Bytes -> bool) {
    match r
    case Found(line) => 0 < taken <= |stream| && FirstMatch(stream, matches) == taken - 1 && line == stream[taken - 1]
    case NotEnabled => taken == 0
    case _ => taken <= FirstMatch(stream, matches)
  }

  /** A call that received `taken` lines left the channel like this. */
  twostate predicate Received(lines: LineChannel, taken: nat)
    reads lines
  {
    && lines.Valid() && old(lines.history) <= lines.history
    && old(lines.consumed) <= lines.consumed && |lines.consumed| == |old(lines.consumed)| + taken
  }

  /** The stream as it stands, from where the reader stood before. */
  twostate function Stream(lines: LineChannel): seq<Bytes>
    requires old(lines.consumed) <= lines.consumed && lines.Valid()
    reads lines
  {
    lines.history[|old(lines.consumed)|..]
  }

  // ---- The environment, and what the selects make of it ----

  /** A stretch of the environment: what the channel held when it began, and the turns from then on. */
  datatype Phase = Phase(ready: seq<Bytes>, closed: bool, turns: nat -> Turn, from: nat) {
    /** The channel is closed after n turns. */
    predicate ClosedBy(n: nat) { if n == 0 then closed else ClosedBy(n - 1) || At(n - 1).closes }

    /** Everything that was in the channel by then, taken or not: nothing arrives once it is closed. */
    function Sent(n: nat): (sent: seq<Bytes>)
      ensures ready <= sent
    {
      if n == 0 then ready else Sent(n - 1) + if ClosedBy(n - 1) then [] else At(n - 1).arrivals
    }

    function At(s: nat): Turn { turns(from + s) }

    /** The rest of it, once n turns are over and what was ready has been taken. */
    function After(n: nat): Phase { Phase(Sent(n)[|ready|..], ClosedBy(n), turns, from + n) }
  }

  /** What one select comes to. */
  datatype Select = Took(line: Bytes) | SawEnd | TimerRead | ContextRead | Blocked

  function Taken(log: seq<Select>): nat {
    if log == [] then 0 else Taken(log[..|log| - 1]) + if log[|log| - 1].Took? then 1 else 0
  }

  /** A select with the channel holding `sent`, `n` of it taken: the case picked is the one taken if it is
      ready, else one that is; it blocks when none is. The channel is ready as long as a line is left,
      and at its end. */
  ghost predicate Chooses(x: Select, turn: Turn, sent: seq<Bytes>, n: nat, closed: bool) {
    var channel := (n < |sent| || closed) && (turn.pick.Line? || !(turn.timerFired || turn.cancelled));
    && (x.Took? <==> channel && n < |sent|)
    && (x.Took? && n < |sent| ==> x.line == sent[n])
    && (x.SawEnd? <==> channel && n >= |sent|)
    && (x.TimerRead? <==> !channel && turn.timerFired && (turn.pick.Timer? || !turn.cancelled))
    && (x.ContextRead? <==> !channel && turn.cancelled && !(turn.timerFired && turn.pick.Timer?))
    && (x.Blocked? <==> !channel && !turn.timerFired && !turn.cancelled)
  }

  predicate GoesOn(x: Select, matches: Bytes -> bool) { x.Blocked? || (x.Took? && !matches(x.line)) }

  /** `log` is the record of the selects of a phase: each chooses as above, all but the last go on, and
      the last one decides; without a decision there were as many as were followed. */
  ghost predicate Followed(r: Outcome, log: seq<Select>, p: Phase, horizon: nat, matches: Bytes -> bool) {
    && |log| <= horizon
    && Chosen(log, p)
    && (forall s :: 0 <= s < |log| - 1 ==> GoesOn(log[s], matches))
    && if log == [] || GoesOn(log[|log| - 1], matches) then r == Waiting && |log| == horizon
       else match log[|log| - 1]
            case Took(line) => r == Found(line)
            case SawEnd => r == NotReady
            case TimerRead => r == NotReady
            case _ => r == Cancelled
  }

  ghost predicate Chosen(log: seq<Select>, p: Phase) {
    forall s :: 0 <= s < |log| ==>
      Chooses(log[s], p.At(s), p.Sent(s + 1), Taken(log[..s]), p.ClosedBy(s + 1))
  }

  lemma TakenSnoc(log: seq<Select>, x: Select)
    ensures Taken(log + [x]) == Taken(log) + if x.Took? then 1 else 0
    ensures forall s :: 0 <= s <= |log| ==> (log + [x])[..s] == log[..s]
  {
    assert (log + [x])[..|log|] == log;
  }

  lemma {:induction false} SentGrows(p: Phase, m: nat, n: nat)
    requires m <= n
    ensures p.Sent(m) <= p.Sent(n)
    ensures p.ClosedBy(m) ==> p.Sent(m) == p.Sent(n) && p.ClosedBy(n)
    decreases n
  {
    if m < n {
      SentGrows(p, m, n - 1);
      assert p.Sent(n - 1) + [] == p.Sent(n - 1);
    }
  }

  lemma NextTaken(log: seq<Select>, s: nat)
    requires s < |log|
    ensures Taken(log[..0]) == 0 && Taken(log[..s + 1]) == Taken(log[..s]) + if log[s].Took? then 1 else 0
  {
    assert log[..s + 1][..s] == log[..s];
  }

  lemma ChoiceAt(log: seq<Select>, p: Phase, s: nat)
    requires Chosen(log, p) && s < |log|
    ensures Chooses(log[s], p.At(s), p.Sent(s + 1), Taken(log[..s]), p.ClosedBy(s + 1))
  {
  }

  ghost predicate NoMatch(lines: seq<Bytes>, n: nat, matches: Bytes -> bool) {
    n <= |lines| && forall j :: 0 <= j < n ==> !matches(lines[j])
  }

  lemma NoMatchIn(a: seq<Bytes>, b: seq<Bytes>, n: nat, matches: Bytes -> bool)
    requires a <= b && NoMatch(a, n, matches)
    ensures NoMatch(b, n, matches)
  {
  }

  lemma OneMoreTaken(x: Select, turn: Turn, sent: seq<Bytes>, n: nat, closed: bool, matches: Bytes -> bool)
    requires Chooses(x, turn, sent, n, closed) && GoesOn(x, matches) && NoMatch(sent, n, matches)
    ensures NoMatch(sent, n + if x.Took? then 1 else 0, matches)
  {
  }

  /** The lines taken are the first ones sent, and while the selects go on none of them matches. */
  lemma {:induction false} TakenInOrder(log: seq<Select>, p: Phase, matches: Bytes -> bool, s: nat)
    requires Chosen(log, p) && s <= |log| && forall i :: 0 <= i < s ==> GoesOn(log[i], matches)
    ensures NoMatch(p.Sent(s), Taken(log[..s]), matches)
  {
    hide Chosen, Chooses, NoMatch, GoesOn, p.Sent, p.ClosedBy, Taken;
    if s == 0 {
      NothingTaken(log, p, matches);
    } else {
      var e := s - 1;
      TakenInOrder(log, p, matches, e);
      SentGrows(p, e, s);
      NoMatchIn(p.Sent(e), p.Sent(s), Taken(log[..e]), matches);
      ChoiceAt(log, p, e);
      OneMoreTaken(log[e], p.At(e), p.Sent(s), Taken(log[..e]), p.ClosedBy(s), matches);
      NextTaken(log, e);
    }
  }

  lemma NothingTaken(log: seq<Select>, p: Phase, matches: Bytes -> bool)
    ensures NoMatch(p.Sent(0), Taken(log[..0]), matches)
  {
  }

  /** The k-th line is the first match. */
  ghost predicate FirstIs(lines: seq<Bytes>, k: nat, matches: Bytes -> bool) {
    NoMatch(lines, k, matches) && k < |lines| && matches(lines[k])
  }

  /** The first match is the k-th line and in the channel by select s0; neither timer nor context is ready
      before that, nor at the next k + 1 selects, unless the line is what is picked there. */
  ghost predicate Arrives(p: Phase, matches: Bytes -> bool, k: nat, s0: nat) {
    && FirstIs(p.Sent(s0 + 1), k, matches)
    && (forall s :: 0 <= s < s0 ==> Quiet(p.At(s)))
    && (forall s :: s0 <= s <= s0 + k ==> Quiet(p.At(s)) || p.At(s).pick.Line?)
  }

  predicate Quiet(turn: Turn) { !turn.timerFired && !turn.cancelled }

  lemma NotPast(log: seq<Select>, p: Phase, matches: Bytes -> bool, k: nat, s0: nat, s: nat)
    requires Chosen(log, p) && s <= |log| && forall i :: 0 <= i < s ==> GoesOn(log[i], matches)
    requires FirstIs(p.Sent(s0 + 1), k, matches)
    ensures Taken(log[..s]) <= k
  {
    hide Chosen, NoMatch, GoesOn, p.Sent, p.ClosedBy, Taken, FirstIs;
    TakenInOrder(log, p, matches, s);
    if s <= s0 + 1 { SentGrows(p, s, s0 + 1); } else { SentGrows(p, s0 + 1, s); }
    Compared(p.Sent(s), p.Sent(s0 + 1), Taken(log[..s]), k, matches);
  }

  lemma Compared(a: seq<Bytes>, b: seq<Bytes>, n: nat, k: nat, matches: Bytes -> bool)
    requires (a <= b || b <= a) && NoMatch(a, n, matches) && FirstIs(b, k, matches)
    ensures n <= k
  {
  }

  /** From s0 on every select takes a line. */
  lemma {:induction false} EverySelectTakes(log: seq<Select>, p: Phase, matches: Bytes -> bool, k: nat, s0: nat, s: nat)
    requires Chosen(log, p) && s <= |log| && forall i :: 0 <= i < s ==> GoesOn(log[i], matches)
    requires Arrives(p, matches, k, s0) && s <= s0 + k + 1
    ensures Taken(log[..s]) >= s - s0
  {
    hide Chosen, Chooses, NoMatch, GoesOn, p.Sent, p.ClosedBy, Taken, Quiet;
    if s > s0 {
      var e := s - 1;
      EverySelectTakes(log, p, matches, k, s0, e);
      NotPast(log, p, matches, k, s0, e);
      SentGrows(p, s0 + 1, s);
      ChoiceAt(log, p, e);
      assert Quiet(p.At(e)) || p.At(e).pick.Line?;
      MustTake(log[e], p.At(e), p.Sent(s), Taken(log[..e]), p.ClosedBy(s));
      NextTaken(log, e);
    }
  }

  lemma MustTake(x: Select, turn: Turn, sent: seq<Bytes>, n: nat, closed: bool)
    requires Chooses(x, turn, sent, n, closed) && n < |sent| && (Quiet(turn) || turn.pick.Line?)
    ensures x.Took?
  {
  }

  /** A select that decides, by then, has found the match. */
  lemma DecidesRight(log: seq<Select>, p: Phase, matches: Bytes -> bool, k: nat, s0: nat, e: nat)
    requires Chosen(log, p) && e < |log| && forall i :: 0 <= i < e ==> GoesOn(log[i], matches)
    requires Arrives(p, matches, k, s0) && e <= s0 + k && !GoesOn(log[e], matches)
    ensures log[e] == Took(p.Sent(s0 + 1)[k])
  {
    hide Chosen, Chooses, NoMatch, GoesOn, p.Sent, p.ClosedBy, Taken, Quiet;
    NotPast(log, p, matches, k, s0, e);
    if e < s0 { SentGrows(p, e + 1, s0 + 1); } else { SentGrows(p, s0 + 1, e + 1); }
    ChoiceAt(log, p, e);
    assert Quiet(p.At(e)) || (p.At(e).pick.Line? && s0 <= e);
    DecidesOnMatch(log[e], p.At(e), p.Sent(e + 1), Taken(log[..e]), p.ClosedBy(e + 1),
                   p.Sent(s0 + 1), k, matches);
  }

  lemma DecidesOnMatch(x: Select, turn: Turn, sent: seq<Bytes>, n: nat, closed: bool,
                       stream: seq<Bytes>, k: nat, matches: Bytes -> bool)
    requires Chooses(x, turn, sent, n, closed) && !GoesOn(x, matches) && FirstIs(stream, k, matches) && n <= k
    requires (sent <= stream && (closed ==> sent == stream)) || stream <= sent
    requires Quiet(turn) || (turn.pick.Line? && stream <= sent)
    ensures x == Took(stream[k])
  {
  }

  /** Liveness of the selects: such a match is found. */
  lemma MatchIsFound(r: Outcome, log: seq<Select>, p: Phase, horizon: nat, matches: Bytes -> bool, k: nat, s0: nat)
    requires Followed(r, log, p, horizon, matches) && Arrives(p, matches, k, s0) && s0 + k + 1 <= horizon
    ensures r == Found(p.Sent(s0 + 1)[k])
  {
    hide Chosen, NoMatch, GoesOn, p.Sent, p.ClosedBy, Taken;
    var s := s0 + k + 1;
    if s <= |log| && forall i :: 0 <= i < s ==> GoesOn(log[i], matches) {
      NotPast(log, p, matches, k, s0, s);
      EverySelectTakes(log, p, matches, k, s0, s);
    } else {
      DecidesRight(log, p, matches, k, s0, |log| - 1);
    }
  }

  /** Without a verdict every select followed took a line that does not match, or had nothing at all to
      take: no line left, no end, neither timer nor context ready. */
  lemma WaitingMeans(log: seq<Select>, p: Phase, horizon: nat, matches: Bytes -> bool)
    requires Followed(Waiting, log, p, horizon, matches)
    ensures |log| == horizon
    ensures forall s :: 0 <= s < horizon ==>
              || (log[s].Took? && !matches(log[s].line))
              || (Quiet(p.At(s)) && Taken(log[..s]) >= |p.Sent(s + 1)| && !p.ClosedBy(s + 1))
  {
    hide Chosen, p.Sent, p.ClosedBy, Taken;
    forall s | 0 <= s < horizon
      ensures || (log[s].Took? && !matches(log[s].line))
              || (Quiet(p.At(s)) && Taken(log[..s]) >= |p.Sent(s + 1)| && !p.ClosedBy(s + 1))
    {
      ChoiceAt(log, p, s);
      assert GoesOn(log[s], matches);
    }
  }

  lemma {:induction false} AfterGoesOn(p: Phase, n: nat, m: nat)
    ensures p.Sent(n + m) == p.ready + p.After(n).Sent(m) && p.ClosedBy(n + m) == p.After(n).ClosedBy(m)
    decreases m
  {
    if m > 0 {
      AfterGoesOn(p, n, m - 1);
      assert p.At(n + m - 1) == p.After(n).At(m - 1);
    }
  }

  /** `turns` drives the environment; the second phase is followed for `horizon` selects, `log` being their
      record. What was buffered at entry is seen whatever the timer and the context do, and bounds the
      first phase. A first match that comes later is found, too, if neither timer nor context is ready
      in the second phase before it has come, nor at the selects that reach it unless the line is what
      is picked there. */
  method WaitForLine(lines: LineChannel?, matches: Bytes -> bool, turns: nat -> Turn, horizon: nat)
    returns (r: Outcome, ghost taken: nat, ghost firstPhase: nat, ghost log: seq<Select>)
    requires lines != null ==> lines.Valid()
    modifies lines
    ensures lines == null <==> r == NotEnabled
    ensures lines != null ==> Received(lines, taken) && Explains(r, taken, Stream(lines), matches)
    ensures lines != null ==>
              var ready := FirstMatch(old(lines.buffer), matches);
              && firstPhase <= taken
              && (if ready < |old(lines.buffer)|
                  then r == Found(old(lines.buffer)[ready]) && firstPhase == taken == ready + 1
                  else firstPhase == |old(lines.buffer)|)
    ensures r == NotReady ==>
              || (lines.closed && lines.buffer == [])
              || exists t :: 0 <= t < |old(lines.buffer)| + horizon && turns(t).timerFired
    ensures r == Cancelled ==> exists t :: 0 <= t < |old(lines.buffer)| + horizon && turns(t).cancelled
    ensures lines != null && FirstMatch(old(lines.buffer), matches) == |old(lines.buffer)| ==>
              var n := |old(lines.buffer)|;
              var whole := Phase(old(lines.buffer), old(lines.closed), turns, 0);
              && Followed(r, log, whole.After(n), horizon, matches)
              && forall k: nat, s0: nat :: Arrives(whole.After(n), matches, k, s0) && s0 + k + 1 <= horizon ==>
                   n + k < |whole.Sent(n + (s0 + 1))| && r == Found(whole.Sent(n + (s0 + 1))[n + k])
  {
    hide FirstMatch, Explains, Followed, Arrives, Tracks, Phase.Sent, Phase.ClosedBy, Phase.After;
    taken, firstPhase, log := 0, 0, [];
    if lines == null {
      return NotEnabled, 0, 0, [];
    }
    ghost var c0, b0 := lines.consumed, lines.buffer;
    var whole := Phase(lines.buffer, lines.closed, turns, 0);
    var t := |lines.buffer|;
    r, firstPhase := ScanBuffered(lines, matches, turns);
    taken := firstPhase;
    if r.Found? {
      FoundAtOnce(b0, lines.history[|c0|..], matches);
      return;
    }
    r, taken, log := AwaitRest(lines, matches, t, horizon, c0, whole);
  }

  /** The second phase, seen from the beginning. */
  method AwaitRest(lines: LineChannel, matches: Bytes -> bool, t: nat, horizon: nat, ghost c0: seq<Bytes>, whole: Phase)
    returns (r: Outcome, ghost taken: nat, ghost log: seq<Select>)
    requires t == |whole.ready| && whole.from == 0 && FirstMatch(whole.ready, matches) == t
    requires Tracks(lines, c0, whole, t, t) && c0 + whole.ready <= lines.history
    modifies lines
    ensures lines.Valid() && old(lines.history) <= lines.history && c0 <= old(lines.consumed) <= lines.consumed
    ensures |lines.consumed| == |c0| + taken && t <= taken
    ensures r != NotEnabled && Explains(r, taken, lines.history[|c0|..], matches)
    ensures r == NotReady ==>
              (lines.closed && lines.buffer == []) || exists i :: 0 <= i < t + horizon && whole.turns(i).timerFired
    ensures r == Cancelled ==> exists i :: 0 <= i < t + horizon && whole.turns(i).cancelled
    ensures Followed(r, log, whole.After(t), horizon, matches)
    ensures forall k: nat, s0: nat :: Arrives(whole.After(t), matches, k, s0) && s0 + k + 1 <= horizon ==>
              t + k < |whole.Sent(t + (s0 + 1))| && r == Found(whole.Sent(t + (s0 + 1))[t + k])
  {
    hide FirstMatch, Explains, Followed, Arrives, Tracks, Phase.Sent, Phase.ClosedBy, Phase.After;
    ghost var b0, c1 := whole.ready, lines.consumed;
    Tracked(lines, c0, whole, t, t);
    AllConsumed(c0, b0, c1, lines.history);
    AfterIs(whole, t);
    r, taken, log := AwaitLine(lines, matches, whole.turns, t, horizon);
    LaterMatchIsFound(r, log, whole, t, horizon, matches);
    Rejoined(c0, b0, c1, lines.history);
    FoundLater(r, taken, b0, lines.history[|c1|..], matches);
    taken := t + taken;
  }

  lemma AfterIs(p: Phase, n: nat)
    ensures p.After(n) == Phase(p.Sent(n)[|p.ready|..], p.ClosedBy(n), p.turns, p.from + n)
  {
  }

  lemma AllConsumed(before: seq<Bytes>, ready: seq<Bytes>, after: seq<Bytes>, history: seq<Bytes>)
    requires before + ready <= history && after <= history && |after| == |before| + |ready|
    ensures after == before + ready
  {
  }

  lemma Rejoined(before: seq<Bytes>, ready: seq<Bytes>, after: seq<Bytes>, history: seq<Bytes>)
    requires after == before + ready && after <= history
    ensures history[|before|..] == ready + history[|after|..]
  {
  }

  lemma LaterMatchIsFound(r: Outcome, log: seq<Select>, whole: Phase, n: nat, horizon: nat, matches: Bytes -> bool)
    requires Followed(r, log, whole.After(n), horizon, matches) && n == |whole.ready|
    ensures forall k: nat, s0: nat :: Arrives(whole.After(n), matches, k, s0) && s0 + k + 1 <= horizon ==>
              n + k < |whole.Sent(n + (s0 + 1))| && r == Found(whole.Sent(n + (s0 + 1))[n + k])
  {
    hide Followed, Arrives, whole.Sent, whole.ClosedBy, whole.After;
    forall k: nat, s0: nat | Arrives(whole.After(n), matches, k, s0) && s0 + k + 1 <= horizon
      ensures n + k < |whole.Sent(n + (s0 + 1))| && r == Found(whole.Sent(n + (s0 + 1))[n + k])
    {
      LaterMatch(r, log, whole, n, horizon, matches, k, s0);
    }
  }

  lemma LaterMatch(r: Outcome, log: seq<Select>, whole: Phase, n: nat, horizon: nat, matches: Bytes -> bool,
                   k: nat, s0: nat)
    requires Followed(r, log, whole.After(n), horizon, matches) && n == |whole.ready|
    requires Arrives(whole.After(n), matches, k, s0) && s0 + k + 1 <= horizon
    ensures n + k < |whole.Sent(n + (s0 + 1))| && r == Found(whole.Sent(n + (s0 + 1))[n + k])
  {
    hide Followed, Arrives, whole.Sent, whole.ClosedBy, whole.After;
    ArrivesIn(whole.After(n), matches, k, s0);
    MatchIsFound(r, log, whole.After(n), horizon, matches, k, s0);
    AfterGoesOn(whole, n, s0 + 1);
  }

  lemma ArrivesIn(p: Phase, matches: Bytes -> bool, k: nat, s0: nat)
    requires Arrives(p, matches, k, s0)
    ensures k < |p.Sent(s0 + 1)|
  {
  }

  /** Where the reader stands in a phase that began when `before` had been consumed. */
  ghost predicate Tracks(lines: LineChannel, before: seq<Bytes>, p: Phase, s: nat, taken: nat)
    reads lines
  {
    && lines.Valid() && before <= lines.consumed && |lines.consumed| == |before| + taken
    && lines.history[|before|..] == p.Sent(s) && lines.closed == p.ClosedBy(s)
  }

  lemma Begins(lines: LineChannel, turns: nat -> Turn, from: nat)
    requires lines.Valid()
    ensures Tracks(lines, lines.consumed, Phase(lines.buffer, lines.closed, turns, from), 0, 0)
  {
  }

  lemma Tracked(lines: LineChannel, before: seq<Bytes>, p: Phase, s: nat, taken: nat)
    requires Tracks(lines, before, p, s, taken)
    ensures lines.Valid() && taken <= |p.Sent(s)| && lines.buffer == p.Sent(s)[taken..]
    ensures before <= lines.consumed && |lines.consumed| == |before| + taken
    ensures lines.history[|before|..] == p.Sent(s) && lines.closed == p.ClosedBy(s)
  {
    hide p.Sent, p.ClosedBy;
    assert lines.history == lines.consumed + lines.buffer;
    assert lines.history[|before|..] == lines.consumed[|before|..] + lines.buffer;
  }

  lemma Retrack(lines: LineChannel, before: seq<Bytes>, p: Phase, s: nat, taken: nat)
    requires lines.Valid() && before <= lines.consumed && |lines.consumed| == |before| + taken
    requires lines.history[|before|..] == p.Sent(s) && lines.closed == p.ClosedBy(s)
    ensures Tracks(lines, before, p, s, taken)
  {
  }

  lemma ChoosesBehind(x: Select, turn: Turn, sent: seq<Bytes>, n: nat, closed: bool)
    requires n <= |sent| && Chooses(x, turn, sent[n..], 0, closed)
    ensures Chooses(x, turn, sent, n, closed)
  {
  }

  lemma FoundAtOnce(ready: seq<Bytes>, stream: seq<Bytes>, matches: Bytes -> bool)
    requires ready <= stream && FirstMatch(ready, matches) < |ready|
    ensures var i := FirstMatch(ready, matches); Explains(Found(ready[i]), i + 1, stream, matches)
  {
    FirstMatchStable(ready, stream, matches);
  }

  lemma FoundLater(r: Outcome, taken: nat, before: seq<Bytes>, stream: seq<Bytes>, matches: Bytes -> bool)
    requires FirstMatch(before, matches) == |before| && Explains(r, taken, stream, matches) && r != NotEnabled
    ensures Explains(r, |before| + taken, before + stream, matches)
  {
    FirstMatchBehind(before, stream, matches);
  }

  lemma Split(before: seq<Bytes>, consumed: seq<Bytes>, buffer: seq<Bytes>)
    requires before <= consumed
    ensures (consumed + buffer)[|before|..] == consumed[|before|..] + buffer
  {
  }

  /** What a turn adds to the channel it adds to what was sent. */
  lemma OneTurn(p: Phase, s: nat, own: seq<Bytes>, buffer: seq<Bytes>, buffer': seq<Bytes>)
    requires own + buffer == p.Sent(s)
    requires buffer' == buffer + if p.ClosedBy(s) then [] else p.At(s).arrivals
    ensures own + buffer' == p.Sent(s + 1)
    ensures p.ClosedBy(s + 1) == (p.ClosedBy(s) || p.At(s).closes)
  {
    var more := if p.ClosedBy(s) then [] else p.At(s).arrivals;
    assert own + (buffer + more) == own + buffer + more;
  }

  /** The environment's turn. */
  method Advance(lines: LineChannel, turn: Turn, ghost before: seq<Bytes>, ghost p: Phase,
                 ghost s: nat, ghost taken: nat)
    requires Tracks(lines, before, p, s, taken) && turn == p.At(s)
    modifies lines
    ensures Tracks(lines, before, p, s + 1, taken) && lines.Valid()
    ensures old(lines.history) <= lines.history && lines.consumed == old(lines.consumed)
  {
    hide Phase.Sent, Phase.ClosedBy, Tracks;
    Tracked(lines, before, p, s, taken);
    ghost var own := lines.consumed[|before|..];
    Split(before, lines.consumed, lines.buffer);
    lines.Produce(turn);
    Split(before, lines.consumed, lines.buffer);
    OneTurn(p, s, own, old(lines.buffer), lines.buffer);
    Retrack(lines, before, p, s + 1, taken);
  }

  /** One receive of a line that was there at entry. */
  method TakeBuffered(lines: LineChannel, turn: Turn, ghost c0: seq<Bytes>, ghost whole: Phase, ghost t: nat)
    returns (receipt: Receipt)
    requires Tracks(lines, c0, whole, t, t) && t < |whole.ready| && turn == whole.At(t)
    modifies lines
    ensures Tracks(lines, c0, whole, t + 1, t + 1) && old(lines.history) <= lines.history
    ensures receipt == Got(whole.ready[t])
  {
    hide Phase.Sent, Phase.ClosedBy, Tracks;
    Advance(lines, turn, c0, whole, t, t);
    Tracked(lines, c0, whole, t + 1, t);
    receipt := lines.Receive();
    Retrack(lines, c0, whole, t + 1, t + 1);
  }

  /** First phase: at most the lines buffered at entry, without looking at timer or context. */
  method ScanBuffered(lines: LineChannel, matches: Bytes -> bool, turns: nat -> Turn)
    returns (r: Outcome, ghost taken: nat)
    requires lines.Valid()
    modifies lines
    ensures Received(lines, taken) && old(lines.consumed + lines.buffer) <= lines.history
    ensures var b0 := old(lines.buffer);
            var ready := FirstMatch(b0, matches);
            if ready < |b0| then r == Found(b0[ready]) && taken == ready + 1 else r == Waiting && taken == |b0|
    ensures r == Waiting ==>
              Tracks(lines, old(lines.consumed), Phase(old(lines.buffer), old(lines.closed), turns, 0),
                     |old(lines.buffer)|, |old(lines.buffer)|)
  {
    hide Phase.Sent, Phase.ClosedBy, Tracks, FirstMatch;
    ghost var c0, b0 := lines.consumed, lines.buffer;
    ghost var whole := Phase(b0, lines.closed, turns, 0);
    taken := 0;
    var buffered := |lines.buffer|;
    var t := 0;
    Begins(lines, turns, 0);
    while buffered > 0
      invariant t == taken <= |b0| && buffered == |b0| - taken && taken <= FirstMatch(b0, matches)
      invariant Tracks(lines, c0, whole, t, taken) && old(lines.history) <= lines.history
    {
      var receipt := TakeBuffered(lines, turns(t), c0, whole, t);
      t := t + 1;
      match receipt {
        case Got(line) =>
          taken := taken + 1;
          Tracked(lines, c0, whole, t, taken);
          if matches(line) {
            return Found(line), taken;
          }
        case Closed =>
          return NotReady, taken;
        case Empty =>
          buffered := 1;
      }
      buffered := buffered - 1;
    }
    Tracked(lines, c0, whole, t, taken);
    r := Waiting;
  }

  lemma PrefixStays(a: seq<Bytes>, b: seq<Bytes>, c: seq<Bytes>)
    requires a <= b <= c
    ensures a <= c
  {
  }

  /** A turn of the environment and the select that follows it. */
  method SelectTurn(lines: LineChannel, turn: Turn, ghost c0: seq<Bytes>, ghost p: Phase,
                    ghost s: nat, ghost taken: nat)
    returns (x: Select)
    requires Tracks(lines, c0, p, s, taken) && turn == p.At(s)
    modifies lines
    ensures Tracks(lines, c0, p, s + 1, if x.Took? then taken + 1 else taken) && old(lines.history) <= lines.history
    ensures Chooses(x, turn, p.Sent(s + 1), taken, p.ClosedBy(s + 1))
  {
    hide Chooses, Tracks, Phase.Sent, Phase.ClosedBy;
    Advance(lines, turn, c0, p, s, taken);
    Tracked(lines, c0, p, s + 1, taken);
    ghost var was := lines.consumed;
    x := lines.SelectOne(turn);
    PrefixStays(c0, was, lines.consumed);
    ChoosesBehind(x, turn, p.Sent(s + 1), taken, p.ClosedBy(s + 1));
    Retrack(lines, c0, p, s + 1, if x.Took? then taken + 1 else taken);
  }

  /** Second phase: line, timer or context, whichever the select takes; `log` is the record. */
  method AwaitLine(lines: LineChannel, matches: Bytes -> bool, turns: nat -> Turn, from: nat, horizon: nat)
    returns (r: Outcome, ghost taken: nat, ghost log: seq<Select>)
    requires lines.Valid()
    modifies lines
    ensures Received(lines, taken) && r != NotEnabled && Explains(r, taken, Stream(lines), matches)
    ensures Followed(r, log, Phase(old(lines.buffer), old(lines.closed), turns, from), horizon, matches)
    ensures taken == Taken(log)
    ensures r == NotReady ==>
              (lines.closed && lines.buffer == []) || exists t :: from <= t < from + horizon && turns(t).timerFired
    ensures r == Cancelled ==> exists t :: from <= t < from + horizon && turns(t).cancelled
  {
    hide FirstMatch, Explains, Chosen, Chooses, Taken, Tracks, Phase.Sent, Phase.ClosedBy, Followed;
    ghost var c0 := lines.consumed;
    ghost var p := Phase(lines.buffer, lines.closed, turns, from);
    taken, log, r := 0, [], Waiting;
    Begins(lines, turns, from);
    NoSelects(p);
    var s := 0;
    while s < horizon
      invariant s <= horizon && |log| == s && Chosen(log, p) && taken == Taken(log)
      invariant forall i :: 0 <= i < s ==> GoesOn(log[i], matches)
      invariant Tracks(lines, c0, p, s, taken) && old(lines.history) <= lines.history
    {
      var x := SelectTurn(lines, turns(from + s), c0, p, s, taken);
      s := s + 1;
      log := OneMore(log, p, x);
      if x.Took? {
        taken := taken + 1;
        if matches(x.line) {
          r := Found(x.line);
          break;
        }
      } else if !x.Blocked? {
        r := if x.ContextRead? then Cancelled else NotReady;
        break;
      }
    }
    FollowedIs(r, log, p, horizon, matches);
    FollowedExplains(r, log, p, horizon, matches);
    Tracked(lines, c0, p, |log|, taken);
  }

  lemma FollowedIs(r: Outcome, log: seq<Select>, p: Phase, horizon: nat, matches: Bytes -> bool)
    requires |log| <= horizon && Chosen(log, p) && forall s :: 0 <= s < |log| - 1 ==> GoesOn(log[s], matches)
    requires if log == [] || GoesOn(log[|log| - 1], matches) then r == Waiting && |log| == horizon
             else match log[|log| - 1]
                  case Took(line) => r == Found(line)
                  case SawEnd => r == NotReady
                  case TimerRead => r == NotReady
                  case _ => r == Cancelled
    ensures Followed(r, log, p, horizon, matches)
  {
  }

  lemma NoSelects(p: Phase)
    ensures Chosen([], p) && Taken([]) == 0
  {
  }

  lemma OneMore(log: seq<Select>, p: Phase, x: Select) returns (more: seq<Select>)
    requires Chosen(log, p)
    requires Chooses(x, p.At(|log|), p.Sent(|log| + 1), Taken(log), p.ClosedBy(|log| + 1))
    ensures more == log + [x] && Chosen(more, p) && Taken(more) == Taken(log) + if x.Took? then 1 else 0
  {
    hide Chooses, p.Sent, p.ClosedBy, Taken;
    more := log + [x];
    TakenSnoc(log, x);
    assert more[..|log|] == log;
  }

  /** What the record of the selects says about the stream: all taken but the last do not match, and the
      verdict is the last select's. */
  lemma FollowedExplains(r: Outcome, log: seq<Select>, p: Phase, horizon: nat, matches: Bytes -> bool)
    requires Followed(r, log, p, horizon, matches)
    ensures r != NotEnabled && Explains(r, Taken(log), p.Sent(|log|), matches)
    ensures r == NotReady ==>
              || (p.ClosedBy(|log|) && Taken(log) == |p.Sent(|log|)|)
              || exists t :: p.from <= t < p.from + horizon && p.turns(t).timerFired
    ensures r == Cancelled ==> exists t :: p.from <= t < p.from + horizon && p.turns(t).cancelled
  {
    hide Chosen, FirstMatch, Taken, p.Sent, p.ClosedBy, Chooses;
    assert log[..|log|] == log;
    if log == [] || GoesOn(log[|log| - 1], matches) {
      TakenInOrder(log, p, matches, |log|);
      Unmatched(p.Sent(|log|), Taken(log), matches);
    } else {
      var e := |log| - 1;
      TakenInOrder(log, p, matches, e);
      SentGrows(p, e, e + 1);
      NoMatchIn(p.Sent(e), p.Sent(e + 1), Taken(log[..e]), matches);
      ChoiceAt(log, p, e);
      NextTaken(log, e);
      LastExplains(r, log[e], p.At(e), p.Sent(e + 1), Taken(log[..e]), p.ClosedBy(e + 1), matches);
      assert p.turns(p.from + e) == p.At(e);
    }
  }

  lemma Unmatched(stream: seq<Bytes>, n: nat, matches: Bytes -> bool)
    requires NoMatch(stream, n, matches)
    ensures n <= FirstMatch(stream, matches)
    ensures n < |stream| && matches(stream[n]) ==> FirstMatch(stream, matches) == n
  {
  }

  lemma LastExplains(r: Outcome, x: Select, turn: Turn, stream: seq<Bytes>, n: nat, closed: bool,
                     matches: Bytes -> bool)
    requires Chooses(x, turn, stream, n, closed) && NoMatch(stream, n, matches) && !GoesOn(x, matches)
    requires match x
             case Took(line) => r == Found(line)
             case SawEnd => r == NotReady
             case TimerRead => r == NotReady
             case _ => r == Cancelled
    ensures r != NotEnabled && Explains(r, if x.Took? then n + 1 else n, stream, matches)
    ensures r == NotReady ==> (closed && n == |stream|) || turn.timerFired
    ensures r == Cancelled ==> turn.cancelled
  {
    hide FirstMatch;
    Unmatched(stream, n, matches);
  }
}
