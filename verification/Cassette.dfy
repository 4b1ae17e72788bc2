/** Record and replay (processkittest/cassette.go): an index that must agree with the log it was
    built from. Environment names are stored but never matched on and are left out. */
module Cassette {
  import opened Bytes
  import opened Utf8
  import opened Outcomes
  import opened JsonText

  datatype Invocation = Invocation(program: Bytes, args: seq<Bytes>, dir: Bytes, okCodes: seq<int>, hasStdin: bool)
  {
    function Key(): Bytes { KeyOf(program, args, dir) }

    ghost predicate IsText() { Valid(program) && AllValid(args) && Valid(dir) }
  }

  datatype Entry = Entry(
    program: Bytes,
    args: seq<Bytes>,
    dir: Bytes,
    stdout: Bytes,
    stderr: Bytes,
    code: Option<int>,
    timedOut: bool,
    signal: Option<int>)
  {
    function Key(): Bytes { KeyOf(program, args, dir) }
  }

  /** NewResult */
  function NewResult(inv: Invocation, outcome: Outcome, stdout: Bytes, stderr: Bytes): Result {
    Result(inv.program, inv.args, outcome, stdout, Normalize(stderr), 0, inv.okCodes, Unknown)
  }

  function EntryOf(inv: Invocation, res: Result): Entry {
    var e := Entry(inv.program, inv.args, inv.dir, res.stdout, res.stderr, None, false, None);
    match res.outcome
    case TimedOut => e.(timedOut := true)
    case Exited(code) => e.(code := Some(code))
    case Signalled(signal) => e.(signal := signal)
  }

  /** validateOutcome: exactly one of the three is set. */
  predicate WellFormed(e: Entry) {
    var n := (if e.code.Some? then 1 else 0) + (if e.timedOut then 1 else 0) + (if e.signal.Some? then 1 else 0);
    n == 1
  }

  function OutcomeOf(e: Entry): Option<Outcome> {
    if !WellFormed(e) then None
    else if e.timedOut then Some(TimedOut)
    else if e.code.Some? then Some(Exited(e.code.value))
    else Some(Signalled(e.signal))
  }

  /** An entry is read as the one outcome it sets, and is malformed when it sets none or several. */
  lemma ReadAs(e: Entry)
    ensures forall c :: OutcomeOf(e) == Some(Exited(c)) <==> e.code == Some(c) && !e.timedOut && e.signal.None?
    ensures forall n :: OutcomeOf(e) == Some(Signalled(Some(n))) <==>
              e.signal == Some(n) && e.code.None? && !e.timedOut
    ensures OutcomeOf(e) == Some(TimedOut) <==> e.timedOut && e.code.None? && e.signal.None?
    ensures OutcomeOf(e) != Some(Signalled(None)) && (OutcomeOf(e).Some? <==> WellFormed(e))
  {
  }

  /** Every outcome but a signal kill of unknown number survives: it is written to the field of its kind,
      and nothing to the others. */
  lemma OutcomeRoundTrip(inv: Invocation, res: Result)
    ensures var e, o := Saved(EntryOf(inv, res)), res.outcome;
            && e.code == (if o.Exited? then Some(o.code) else None) && e.timedOut == o.TimedOut?
            && e.signal == (if o.Signalled? then o.signal else None)
            && OutcomeOf(e) == if o == Signalled(None) then None else Some(o)
  {
  }

  // ---- The file ----

  /** A string written to the file and read back. */
  function Stored(s: Bytes): Bytes { ReadField(WriteField(s)) }

  function StoredAll(args: seq<Bytes>): (r: seq<Bytes>)
    ensures |r| == |args| && forall i :: 0 <= i < |args| ==> r[i] == Stored(args[i])
  {
    seq(|args|, i requires 0 <= i < |args| => Stored(args[i]))
  }

  function Saved(e: Entry): Entry {
    e.(program := Stored(e.program), args := StoredAll(e.args), dir := Stored(e.dir),
       stdout := Stored(e.stdout), stderr := Stored(e.stderr))
  }

  function SavedLog(log: seq<Entry>): (r: seq<Entry>)
    ensures |r| == |log| && forall i :: 0 <= i < |log| ==> r[i] == Saved(log[i])
  {
    seq(|log|, i requires 0 <= i < |log| => Saved(log[i]))
  }

  lemma SavedIsText(e: Entry)
    ensures Valid(Saved(e).program) && AllValid(Saved(e).args) && Valid(Saved(e).dir)
    ensures Valid(e.program) && AllValid(e.args) && Valid(e.dir) ==>
              Saved(e).program == e.program && Saved(e).args == e.args && Saved(e).dir == e.dir
  {
    StoredIsText(e.program);
    StoredIsText(e.dir);
    forall i | 0 <= i < |e.args|
      ensures Valid(Stored(e.args[i])) && (Valid(e.args[i]) ==> Stored(e.args[i]) == e.args[i])
    {
      StoredIsText(e.args[i]);
    }
  }

  lemma StoredIsText(s: Bytes)
    ensures Stored(s) == Scrub(s) && Valid(Stored(s))
    ensures Stored(s) == s <==> Valid(s)
  {
    FieldRoundTrip(s);
    ScrubFixesExactlyValid(s);
  }

  // ---- The log as an index ----

  /** The entries of one key, in capture order. */
  function Group(log: seq<Entry>, key: Bytes): seq<Entry> {
    if log == [] then []
    else
      var n := |log| - 1;
      Group(log[..n], key) + if log[n].Key() == key then [log[n]] else []
  }

  function Occurrences(keys: seq<Bytes>, key: Bytes): nat {
    if keys == [] then 0
    else
      var n := |keys| - 1;
      Occurrences(keys[..n], key) + if keys[n] == key then 1 else 0
  }

  function Least(a: nat, b: nat): nat { if a <= b then a else b }

  datatype Reply =
    | Ran(result: Result)
    | Miss(program: Bytes, args: seq<Bytes>, dir: Bytes)
    | StdinRejected
    | Malformed
    | InnerError(error: Bytes)

  /** What a cassette answers after the lookups `played`: the entries of the key in order, then the
      last one for ever, whatever other keys were asked for in between. */
  function AnswerTo(log: seq<Entry>, played: seq<Bytes>, inv: Invocation): Reply {
    var g := Group(log, inv.Key());
    if g == [] then Miss(inv.program, inv.args, inv.dir)
    else
      var e := g[Least(Occurrences(played, inv.Key()), |g| - 1)];
      if OutcomeOf(e).None? then Malformed else Ran(NewResult(inv, OutcomeOf(e).value, e.stdout, e.stderr))
  }

  // ---- The runner ----

  class ReplaySlot {
    var entries: seq<Entry>
    var next: nat

    constructor (e: Entry)
      ensures entries == [e] && next == 0
    {
      entries, next := [e], 0;
    }

    method Append(e: Entry)
      modifies this
      ensures entries == old(entries) + [e] && next == old(next)
    {
      entries := entries + [e];
    }

    method Play() returns (e: Entry)
      requires entries != [] && next <= |entries|
      modifies this`next
      ensures e == entries[Least(old(next), |entries| - 1)] && next == Least(old(next) + 1, |entries|)
    {
      var i := next;
      if i >= |entries| {
        i := |entries| - 1;
      } else {
        next := next + 1;
      }
      e := entries[i];
    }
  }

  /** `slots` is the index of `log`, nothing played yet. */
  ghost predicate Indexes(slots: map<Bytes, ReplaySlot>, log: seq<Entry>, played: seq<Bytes>)
    reads slots.Values
  {
    && (forall k :: k in slots ==>
          && slots[k].entries == Group(log, k) != []
          && slots[k].next == Least(Occurrences(played, k), |slots[k].entries|))
    && (forall k :: k !in slots ==> Group(log, k) == [])
    && (forall k, l :: k in slots && l in slots && k != l ==> slots[k] != slots[l])
  }

  class RecordReplayRunner {
    const replaying: bool
    var rec: seq<Entry>
    const slots: map<Bytes, ReplaySlot>
    const log: seq<Entry>
    ghost var calls: seq<Call>     // the runs recorded so far
    ghost var played: seq<Bytes>   // the lookups so far

    ghost predicate Valid()
      reads this, slots.Values
    {
      && rec == Recording(calls)
      && Indexes(slots, log, played)
      && forall i :: 0 <= i < |log| ==> WellFormed(log[i])
    }

    constructor Record()
      ensures Valid() && !replaying && calls == []
    {
      replaying, rec, slots, log, calls, played := false, [], map[], [], [], [];
    }

    constructor Loaded(slots: map<Bytes, ReplaySlot>, log: seq<Entry>)
      requires Indexes(slots, log, []) && forall i :: 0 <= i < |log| ==> WellFormed(log[i])
      ensures Valid() && replaying && this.log == log && this.slots == slots && played == []
    {
      this.replaying, this.rec, this.slots, this.log, this.played := true, [], slots, log, [];
      this.calls := [];
    }

    /** One Output call; `inner` is what the wrapped runner would come back with. */
    method Output(inv: Invocation, inner: Reply) returns (r: Reply)
      requires Valid()
      modifies this, slots.Values
      ensures Valid()
      ensures inv.hasStdin ==> r == StdinRejected && calls == old(calls) && played == old(played)
      ensures !inv.hasStdin && replaying ==>
                && r == AnswerTo(log, old(played), inv) && played == old(played) + [inv.Key()] && calls == old(calls)
                && (r.Ran? || r == Miss(inv.program, inv.args, inv.dir))
      ensures !inv.hasStdin && !replaying ==>
                && r == inner && played == old(played)
                && calls == old(calls) + if inner.Ran? then [Call(inv, inner.result)] else []
    {
      if inv.hasStdin {
        return StdinRejected;
      }
      if !replaying {
        if inner.Ran? {
          rec := rec + [EntryOf(inv, inner.result)];
          calls := calls + [Call(inv, inner.result)];
        }
        return inner;
      }
      r := Replay(inv);
    }

    method Replay(inv: Invocation) returns (r: Reply)
      requires Valid()
      modifies this`played, slots.Values
      ensures Valid()
      ensures r == AnswerTo(log, old(played), inv) && played == old(played) + [inv.Key()]
      ensures r.Ran? || r == Miss(inv.program, inv.args, inv.dir)
    {
      hide KeyOf, OutcomeOf, WellFormed, Group, Occurrences, Recording, NewResult;
      var key := inv.Key();
      ghost var before := played;
      played := before + [key];
      OneMoreLookup(before, key);
      if key !in slots {
        return Miss(inv.program, inv.args, inv.dir);
      }
      var e := slots[key].Play();
      GroupReadable(log, key, e);
      if OutcomeOf(e).None? {
        return Malformed;
      }
      r := Ran(NewResult(inv, OutcomeOf(e).value, e.stdout, e.stderr));
    }

    /** In replay mode there is nothing to save; otherwise the file serves every run so far. */
    method Save() returns (file: Option<seq<Entry>>)
      requires Valid()
      ensures replaying <==> file.None?
      ensures !replaying ==> file.value == SavedLog(Recording(calls)) && Serves(file.value, calls)
    {
      if replaying {
        return None;
      }
      FileServes(calls);
      file := Some(SavedLog(rec));
    }
  }

  /** What a saved file is for: it loads exactly when no recorded kill lacks its signal number, and
      then repeating the recorded commands, if they are text, gives each its own outcome back. */
  ghost predicate Serves(file: seq<Entry>, calls: seq<Call>) {
    && |file| == |calls|
    && ((forall i :: 0 <= i < |file| ==> WellFormed(file[i])) <==> Numbered(calls))
    && (AllText(calls) && Numbered(calls) ==>
          forall i :: 0 <= i < |calls| ==>
            var r := AnswerTo(file, Keys(calls)[..i], calls[i].inv);
            r.Ran? && r.result.outcome == calls[i].result.outcome)
  }

  ghost predicate AllText(calls: seq<Call>) { forall i :: 0 <= i < |calls| ==> calls[i].inv.IsText() }

  ghost predicate Numbered(calls: seq<Call>) {
    forall i :: 0 <= i < |calls| ==> calls[i].result.outcome != Signalled(None)
  }

  lemma FileServes(calls: seq<Call>)
    ensures Serves(SavedLog(Recording(calls)), calls)
  {
    var file := SavedLog(Recording(calls));
    hide Recording, SavedLog, Keys, AnswerTo, AllText, Numbered, WellFormed, Serves, Saved, Stored;
    LoadableIff(calls);
    NumberedIs(calls);
    if AllText(calls) && Numbered(calls) {
      forall i | 0 <= i < |calls|
        ensures var r := AnswerTo(file, Keys(calls)[..i], calls[i].inv);
                r.Ran? && r.result.outcome == calls[i].result.outcome
      {
        OutcomeReplayed(calls, i);
      }
    }
    ServesWhen(file, calls);
  }

  lemma NumberedIs(calls: seq<Call>)
    ensures Numbered(calls) <==> forall i :: 0 <= i < |calls| ==> calls[i].result.outcome != Signalled(None)
  {
  }

  lemma ServesWhen(file: seq<Entry>, calls: seq<Call>)
    requires |file| == |calls|
    requires (forall i :: 0 <= i < |file| ==> WellFormed(file[i])) <==> Numbered(calls)
    requires AllText(calls) && Numbered(calls) ==>
               forall i :: 0 <= i < |calls| ==>
                 var r := AnswerTo(file, Keys(calls)[..i], calls[i].inv);
                 r.Ran? && r.result.outcome == calls[i].result.outcome
    ensures Serves(file, calls)
  {
  }

  /** A later Save covers everything an earlier one did, entry for entry. */
  lemma LaterSaveExtends(calls: seq<Call>, more: seq<Call>)
    ensures SavedLog(Recording(calls)) <= SavedLog(Recording(calls + more))
  {
    hide Saved, EntryOf;
    var short, long := SavedLog(Recording(calls)), SavedLog(Recording(calls + more));
    forall i | 0 <= i < |short| ensures short[i] == long[i] {
      assert Recording(calls)[i] == Recording(calls + more)[i];
    }
  }

  lemma {:induction false} GroupReadable(log: seq<Entry>, key: Bytes, e: Entry)
    requires (forall i :: 0 <= i < |log| ==> WellFormed(log[i])) && e in Group(log, key)
    ensures OutcomeOf(e).Some?
  {
    hide KeyOf;
    var n := |log| - 1;
    if e in Group(log[..n], key) {
      GroupReadable(log[..n], key, e);
    } else {
      assert e == log[n];
    }
  }

  lemma OneMoreLookup(played: seq<Bytes>, key: Bytes)
    ensures forall k :: Occurrences(played + [key], k) == Occurrences(played, k) + if k == key then 1 else 0
  {
    assert (played + [key])[..|played|] == played;
  }

  /** Loading validates every entry and groups them; null is a load error. */
  method Load(file: seq<Entry>) returns (r: RecordReplayRunner?)
    ensures r == null <==> exists i :: 0 <= i < |file| && !WellFormed(file[i])
    ensures r != null ==> r.Valid() && r.replaying && r.log == file && r.played == []
    ensures r != null ==> fresh(r) && fresh(r.slots.Values)
  {
    hide *;
    var slots: map<Bytes, ReplaySlot> := map[];
    assert file[..0] == [];
    NothingToIndex();
    for i := 0 to |file|
      invariant fresh(slots.Values)
      invariant Indexes(slots, file[..i], [])
      invariant forall j :: 0 <= j < i ==> WellFormed(file[j])
    {
      var e := file[i];
      if !WellFormed(e) {
        return null;
      }
      slots := AddEntry(slots, file[..i], e);
      assert file[..i + 1] == file[..i] + [e];
    }
    assert file[..|file|] == file;
    r := new RecordReplayRunner.Loaded(slots, file);
  }

  /** From one mode to the other: Save, then Replay of what was saved. */
  method Reopen(recorder: RecordReplayRunner) returns (r: RecordReplayRunner?)
    requires recorder.Valid() && !recorder.replaying
    ensures r == null <==> !Numbered(recorder.calls)
    ensures r != null ==>
              && r.Valid() && r.replaying && r.played == []
              && r.log == SavedLog(Recording(recorder.calls)) && Serves(r.log, recorder.calls)
  {
    var file := recorder.Save();
    r := Load(file.value);
  }

  lemma NothingToIndex()
    ensures Indexes(map[], [], [])
  {
  }

  method AddEntry(slots: map<Bytes, ReplaySlot>, ghost log: seq<Entry>, e: Entry) returns (r: map<Bytes, ReplaySlot>)
    requires Indexes(slots, log, [])
    modifies slots.Values
    ensures Indexes(r, log + [e], [])
    ensures forall s :: s in r.Values ==> s in slots.Values || fresh(s)
  {
    var k := e.Key();
    OneMoreEntry(log, e);
    if k in slots {
      r := slots;
      slots[k].Append(e);
    } else {
      var s := new ReplaySlot(e);
      r := slots[k := s];
    }
  }

  lemma OneMoreEntry(log: seq<Entry>, e: Entry)
    ensures forall k :: Group(log + [e], k) == Group(log, k) + if e.Key() == k then [e] else []
  {
    assert (log + [e])[..|log|] == log;
  }

  // ---- Replaying a recorded session ----

  /** One successful call made while recording. */
  datatype Call = Call(inv: Invocation, result: Result)

  function Recording(calls: seq<Call>): (log: seq<Entry>)
    ensures |log| == |calls| && forall i :: 0 <= i < |calls| ==> log[i] == EntryOf(calls[i].inv, calls[i].result)
  {
    seq(|calls|, i requires 0 <= i < |calls| => EntryOf(calls[i].inv, calls[i].result))
  }

  function Keys(calls: seq<Call>): (keys: seq<Bytes>)
    ensures |keys| == |calls| && forall i :: 0 <= i < |calls| ==> keys[i] == calls[i].inv.Key()
  {
    seq(|calls|, i requires 0 <= i < |calls| => calls[i].inv.Key())
  }

  /** The entry at position i is the one its key is up to after the lookups before it. */
  lemma {:induction false} EntryInTurn(log: seq<Entry>, keys: seq<Bytes>, i: nat)
    requires |keys| == |log| && i < |log| && forall j :: 0 <= j < |log| ==> keys[j] == log[j].Key()
    ensures var g, c := Group(log, keys[i]), Occurrences(keys[..i], keys[i]);
            c < |g| && g[c] == log[i]
    decreases |log|
  {
    hide KeyOf;
    var n := |log| - 1;
    if i == n {
      GroupCounts(log[..n], keys[..n], keys[i]);
    } else {
      EntryInTurn(log[..n], keys[..n], i);
      assert keys[..n][..i] == keys[..i];
    }
  }

  lemma {:induction false} GroupCounts(log: seq<Entry>, keys: seq<Bytes>, key: Bytes)
    requires |keys| == |log| && forall j :: 0 <= j < |log| ==> keys[j] == log[j].Key()
    ensures |Group(log, key)| == Occurrences(keys, key)
  {
    if log != [] { GroupCounts(log[..|log| - 1], keys[..|log| - 1], key); }
  }

  /** A session of text commands, saved, loaded and repeated in the same order: every position gets
      its own outcome back, and its own streams as far as they are text. */
  lemma ReplayEqualsRecording(calls: seq<Call>, i: nat)
    requires i < |calls| && AllText(calls) && Numbered(calls)
    requires CR !in calls[i].result.stderr
    ensures var r := AnswerTo(SavedLog(Recording(calls)), Keys(calls)[..i], calls[i].inv);
            && r.Ran? && r.result.outcome == calls[i].result.outcome
            && r.result.program == calls[i].inv.program && r.result.args == calls[i].inv.args
            && r.result.okCodes == calls[i].inv.okCodes
            && r.result.mechanism == Unknown && r.result.duration == 0
            && (r.result.stdout == calls[i].result.stdout <==> Valid(calls[i].result.stdout))
            && (r.result.stderr == calls[i].result.stderr <==> Valid(calls[i].result.stderr))
  {
    hide AnswerTo, SavedLog, Recording, Keys, Stored, Valid, Scrub, Normalize, AllText, Numbered;
    var res := calls[i].result;
    OutcomeReplayed(calls, i);
    StoredIsText(res.stdout);
    StoredIsText(res.stderr);
    ScrubAddsNoCr(res.stderr);
    NormalizeLaws(Stored(res.stderr));
  }

  /** The keys of a text session are those of what Save wrote of it. */
  lemma KeysOfSaved(calls: seq<Call>)
    requires AllText(calls)
    ensures var log, keys := SavedLog(Recording(calls)), Keys(calls);
            |keys| == |log| && forall j :: 0 <= j < |log| ==> keys[j] == log[j].Key()
  {
    hide Saved, EntryOf, KeyOf, Valid, AllValid, RendersAs;
    var log, keys := SavedLog(Recording(calls)), Keys(calls);
    forall j | 0 <= j < |log| ensures keys[j] == log[j].Key() {
      assert calls[j].inv.IsText();
      SavedKey(calls[j].inv, calls[j].result, calls[j].inv);
    }
  }

  lemma OutcomeReplayed(calls: seq<Call>, i: nat)
    requires i < |calls| && AllText(calls) && Numbered(calls)
    ensures var r := AnswerTo(SavedLog(Recording(calls)), Keys(calls)[..i], calls[i].inv);
            var res := calls[i].result;
            r == Ran(NewResult(calls[i].inv, res.outcome, Stored(res.stdout), Stored(res.stderr)))
  {
    var log, keys := SavedLog(Recording(calls)), Keys(calls);
    var c := calls[i];
    assert c.result.outcome != Signalled(None);
    KeysOfSaved(calls);
    hide *;
    EntryInTurn(log, keys, i);
    OutcomeRoundTrip(c.inv, c.result);
    assert log[i] == Saved(EntryOf(c.inv, c.result));
    TurnAnswered(log, keys[..i], c.inv, c.result);
  }

  lemma TurnAnswered(log: seq<Entry>, played: seq<Bytes>, inv: Invocation, res: Result)
    requires var g, k := Group(log, inv.Key()), Occurrences(played, inv.Key());
             k < |g| && g[k] == Saved(EntryOf(inv, res))
    requires OutcomeOf(Saved(EntryOf(inv, res))) == Some(res.outcome)
    ensures AnswerTo(log, played, inv) == Ran(NewResult(inv, res.outcome, Stored(res.stdout), Stored(res.stderr)))
  {
    hide Group, Occurrences, KeyOf, Stored, OutcomeOf;
  }

  lemma {:induction false} EncodeAllNoCr(rs: seq<Rune>)
    requires forall i :: 0 <= i < |rs| ==> rs[i] != 13
    ensures CR !in EncodeAll(rs)
  {
    if rs != [] {
      EncodeFirst(rs[0]);
      EncodeAllNoCr(rs[1..]);
    }
  }

  lemma {:induction false} TokensNoCr(s: Bytes)
    requires CR !in s
    ensures Good(13) !in Tokens(s)
    decreases |s|
  {
    if s != [] {
      var w := Width(s);
      TokensNoCr(s[w..]);
      if First(s) == Good(13) { FirstCr(s); }
    }
  }

  lemma FirstCr(s: Bytes)
    requires s != [] && First(s) == Good(13)
    ensures s[0] == CR
  {
    FirstEncoded(s);
    EncodeFirst(13);
    assert s[..Width(s)][0] == s[0];
  }

  lemma ScrubAddsNoCr(s: Bytes)
    requires CR !in s
    ensures CR !in Scrub(s)
  {
    var ts := Tokens(s);
    TokensNoCr(s);
    assert forall i :: 0 <= i < |ts| ==> ts[i] in ts;
    EncodeAllNoCr(Values(ts));
  }

  /** A saved recording can be loaded exactly when no signal kill in it lacks its number. */
  lemma LoadableIff(calls: seq<Call>)
    ensures (forall i :: 0 <= i < |calls| ==> WellFormed(SavedLog(Recording(calls))[i])) <==>
              forall i :: 0 <= i < |calls| ==> calls[i].result.outcome != Signalled(None)
  {
    forall i | 0 <= i < |calls|
      ensures WellFormed(SavedLog(Recording(calls))[i]) <==> calls[i].result.outcome != Signalled(None)
    {
      OutcomeRoundTrip(calls[i].inv, calls[i].result);
    }
  }

  // ---- Hits and misses ----

  lemma {:induction false} GroupEmptyIff(log: seq<Entry>, key: Bytes)
    ensures Group(log, key) == [] <==> forall i :: 0 <= i < |log| ==> log[i].Key() != key
  {
    hide KeyOf;
    if log != [] {
      var init := log[..|log| - 1];
      GroupEmptyIff(init, key);
      assert forall i :: 0 <= i < |init| ==> init[i] == log[i];
    }
  }

  /** A command hits a saved recording exactly when one of the recorded commands, as the file renders
      it, is that command. */
  lemma HitsIff(calls: seq<Call>, played: seq<Bytes>, inv: Invocation)
    ensures !AnswerTo(SavedLog(Recording(calls)), played, inv).Miss? <==>
              exists i :: 0 <= i < |calls| && RendersAs(calls[i].inv, inv)
    ensures var r := AnswerTo(SavedLog(Recording(calls)), played, inv);
            r.Miss? ==> r == Miss(inv.program, inv.args, inv.dir)
  {
    hide KeyOf, Stored, Saved, Group, OutcomeOf, EntryOf, NewResult, AllValid, Valid, RendersAs;
    var log := SavedLog(Recording(calls));
    GroupEmptyIff(log, inv.Key());
    forall i | 0 <= i < |calls| ensures log[i].Key() == inv.Key() <==> RendersAs(calls[i].inv, inv) {
      SavedKey(calls[i].inv, calls[i].result, inv);
    }
  }

  lemma SavedKey(recorded: Invocation, res: Result, inv: Invocation)
    ensures Saved(EntryOf(recorded, res)).Key() == inv.Key() <==> RendersAs(recorded, inv)
    ensures RendersAs(recorded, inv) ==> inv.IsText()
    ensures inv.IsText() ==> RendersAs(inv, inv)
  {
    hide KeyOf, Stored, Valid;
    var e := Saved(EntryOf(recorded, res));
    SavedIsText(EntryOf(recorded, res));
    SavedIsText(EntryOf(inv, res));
    KeyInjective(e.program, e.args, e.dir, inv.program, inv.args, inv.dir);
  }

  ghost predicate RendersAs(recorded: Invocation, inv: Invocation) {
    Stored(recorded.program) == inv.program && StoredAll(recorded.args) == inv.args && Stored(recorded.dir) == inv.dir
  }

  /** So a command that is not text always misses, even right after having been recorded, and one
      that is text hits as soon as it has been. */
  lemma OnlyTextHits(calls: seq<Call>, played: seq<Bytes>, inv: Invocation)
    ensures !inv.IsText() ==> AnswerTo(SavedLog(Recording(calls)), played, inv).Miss?
    ensures inv.IsText() && (exists i :: 0 <= i < |calls| && calls[i].inv == inv) ==>
              !AnswerTo(SavedLog(Recording(calls)), played, inv).Miss?
  {
    hide *;
    HitsIff(calls, played, inv);
    forall i | 0 <= i < |calls|
      ensures RendersAs(calls[i].inv, inv) ==> inv.IsText()
      ensures inv.IsText() && calls[i].inv == inv ==> RendersAs(calls[i].inv, inv)
    {
      SavedKey(calls[i].inv, calls[i].result, inv);
    }
  }

  // ---- Interleaving ----

  /** All the replies of a session, in order. */
  function Session(log: seq<Entry>, invs: seq<Invocation>): seq<Reply> {
    if invs == [] then []
    else
      var n := |invs| - 1;
      Session(log, invs[..n]) + [AnswerTo(log, LookupKeys(invs[..n]), invs[n])]
  }

  function LookupKeys(invs: seq<Invocation>): seq<Bytes> {
    if invs == [] then [] else LookupKeys(invs[..|invs| - 1]) + [invs[|invs| - 1].Key()]
  }

  /** The lookups of one key. */
  function OnlyKey(invs: seq<Invocation>, key: Bytes): seq<Invocation> {
    if invs == [] then []
    else
      var n := |invs| - 1;
      OnlyKey(invs[..n], key) + if invs[n].Key() == key then [invs[n]] else []
  }

  /** What those lookups are told within the whole session. */
  function RepliesTo(log: seq<Entry>, invs: seq<Invocation>, key: Bytes): seq<Reply> {
    if invs == [] then []
    else
      var n := |invs| - 1;
      RepliesTo(log, invs[..n], key)
      + if invs[n].Key() == key then [AnswerTo(log, LookupKeys(invs[..n]), invs[n])] else []
  }

  lemma {:induction false} OccurrencesOfOnly(invs: seq<Invocation>, key: Bytes)
    ensures Occurrences(LookupKeys(OnlyKey(invs, key)), key) == Occurrences(LookupKeys(invs), key)
  {
    hide KeyOf;
    if invs != [] {
      var init, last := invs[..|invs| - 1], invs[|invs| - 1];
      var only := OnlyKey(init, key);
      OccurrencesOfOnly(init, key);
      OneMoreLookup(LookupKeys(init), last.Key());
      assert only + [] == only;
      if last.Key() == key {
        OneMoreLookup(LookupKeys(only), key);
        assert (only + [last])[..|only|] == only;
      }
    }
  }

  /** Whatever other keys are asked for in between, the lookups of one key are told exactly what they
      would be told in a session of their own. */
  lemma {:induction false} InterleavingInvisible(log: seq<Entry>, invs: seq<Invocation>, key: Bytes)
    ensures RepliesTo(log, invs, key) == Session(log, OnlyKey(invs, key))
  {
    hide KeyOf, AnswerTo, Occurrences;
    if invs != [] {
      var init, last := invs[..|invs| - 1], invs[|invs| - 1];
      var only := OnlyKey(init, key);
      InterleavingInvisible(log, init, key);
      assert only + [] == only && RepliesTo(log, init, key) + [] == RepliesTo(log, init, key);
      if last.Key() == key {
        OccurrencesOfOnly(init, key);
        OtherKeysInvisible(log, LookupKeys(only), LookupKeys(init), last);
        assert (only + [last])[..|only|] == only;
      }
    }
  }

  /** Lookups of other keys, wherever they fall, change nothing: only how often this key was asked
      for matters, and from its last entry on not even that. */
  lemma OtherKeysInvisible(log: seq<Entry>, played: seq<Bytes>, played': seq<Bytes>, inv: Invocation)
    requires var k, n := inv.Key(), |Group(log, inv.Key())|;
             || Occurrences(played, k) == Occurrences(played', k)
             || (Occurrences(played, k) >= n - 1 && Occurrences(played', k) >= n - 1)
    ensures AnswerTo(log, played, inv) == AnswerTo(log, played', inv)
  {
    hide Group, Occurrences, KeyOf;
  }
}
