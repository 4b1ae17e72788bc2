/** What every step of a started process keeps: no panic, the closing order, and an exact account
    of every byte and every line. */
module StreamingSafety {
  import opened Bytes
  import opened Outcomes
  import opened Streaming
  import S = LineSplitter

  // ---- Histories ----

  function Emissions(log: seq<(Bytes, Fate)>): seq<Bytes> {
    if log == [] then [] else Emissions(log[..|log| - 1]) + [log[|log| - 1].0]
  }

  /** The texts of a log that had the given fate, in order. */
  function WithFate(log: seq<(Bytes, Fate)>, f: Fate): seq<Bytes> {
    if log == [] then []
    else
      var l := log[|log| - 1];
      WithFate(log[..|log| - 1], f) + (if l.1 == f then [l.0] else [])
  }

  /** The texts of one stream among merged lines, in order. */
  function OfStream(ls: seq<Line>, id: StreamID): seq<Bytes> {
    if ls == [] then []
    else
      var l := ls[|ls| - 1];
      OfStream(ls[..|ls| - 1], id) + (if l.stream == id then [l.text] else [])
  }

  lemma OfStreamSnoc(ls: seq<Line>, l: Line, id: StreamID)
    ensures OfStream(ls + [l], id) == OfStream(ls, id) + (if l.stream == id then [l.text] else [])
  {
    assert (ls + [l])[..|ls|] == ls;
  }

  lemma LogSnoc(log: seq<(Bytes, Fate)>, e: (Bytes, Fate), f: Fate)
    ensures Emissions(log + [e]) == Emissions(log) + [e.0]
    ensures WithFate(log + [e], f) == WithFate(log, f) + (if e.1 == f then [e.0] else [])
  {
    assert (log + [e])[..|log|] == log;
  }

  // ---- The invariant ----

  /** Everything the splitter makes of the reads so far, the remainder included once at the end. */
  function Due(cfg: Config, d: Drain): seq<Bytes>
    requires cfg.Resolved()
  {
    var f := S.FeedAll([], d.chunks, cfg.maxLineBytes);
    S.Texts(f.pieces + if d.eof then S.AtEof(f.acc) else [])
  }

  ghost predicate BytesInv(cfg: Config, d: Drain, id: StreamID)
    requires cfg.Resolved()
  {
    && d.written == Concat(d.chunks) + d.unread
    && (if cfg.Splits(id) then
          && Emissions(d.log) + d.pending == Due(cfg, d)
          && d.acc == (if d.eof then [] else S.FeedAll([], d.chunks, cfg.maxLineBytes).acc)
        else d.acc == [] && d.pending == [] && d.log == [])
  }

  ghost predicate FlagsInv(cfg: Config, d: Drain) {
    && (!d.launched ==> d.chunks == [] && d.pending == [] && d.acc == [] && !d.eof && d.log == [])
    && (d.finished ==> d.eof && d.pending == [])
    && (d.eof ==> d.launched && d.unread == [] && !d.writeOpen)
    && |d.acc| < cfg.maxLineBytes
  }

  ghost predicate DrainInv(cfg: Config, d: Drain, id: StreamID)
    requires cfg.Resolved()
  {
    FlagsInv(cfg, d) && BytesInv(cfg, d, id)
  }

  /** Fates against the channel's history. */
  ghost predicate FatesInv(cfg: Config, log: seq<(Bytes, Fate)>, id: StreamID, m: Merge, released: bool) {
    && OfStream(m.sent, id) == WithFate(log, Sent)
    && (m.lines.None? ==> WithFate(log, Sent) == [] && WithFate(log, Dropped) == [] && WithFate(log, Released) == [])
    && (m.lines.Some? ==> WithFate(log, NoChannel) == [])
    && (cfg.overflow == Block ==> WithFate(log, Dropped) == [])
    && (cfg.overflow == DropNewest ==> WithFate(log, Released) == [])
    && (WithFate(log, Released) != [] ==> released)
  }

  lemma {:induction false} FatesPartition(log: seq<(Bytes, Fate)>)
    ensures |Emissions(log)| == |log|
    ensures |log| == |WithFate(log, Sent)| + |WithFate(log, Dropped)|
                   + |WithFate(log, Released)| + |WithFate(log, NoChannel)|
  {
    if log != [] { FatesPartition(log[..|log| - 1]); }
  }

  ghost predicate ChannelInv(cfg: Config, m: Merge) {
    && (m.lines.Some? ==> |m.lines.value.buf| <= cfg.bufferLines && m.sent == m.received + m.lines.value.buf)
    && (m.lines.None? ==> m.sent == [] && m.received == [])
  }

  ghost predicate MergeInv(p: Proc) {
    && ChannelInv(p.cfg, p.merge)
    && p.merge.dropped == |WithFate(p.stdout.log, Dropped)| + |WithFate(p.stderr.log, Dropped)|
    && FatesInv(p.cfg, p.stdout.log, Stdout, p.merge, p.ctl.ctxDone || p.ctl.stop)
    && FatesInv(p.cfg, p.stderr.log, Stderr, p.merge, p.ctl.ctxDone || p.ctl.stop)
  }

  function Rank(s: Starter): nat {
    match s
    case Registered => 0 case MadeLines => 1 case LaunchedStdout => 2 case LaunchedStderr => 3 case Returned => 4
  }

  function Busy(d: Drain): nat { if d.launched && !d.finished then 1 else 0 }

  predicate Late(r: Reaper) { r == ClosedLines || r == ReaperDone }

  ghost predicate ControlInv(p: Proc) {
    && p.cfg.Resolved()
    && var c := p.ctl;
    && c.stop == c.stopOnce
    && !c.panicked
    && p.merge.lines.Some? == (c.starter != Registered && p.cfg.streamLines)
    && p.stdout.launched == (Rank(c.starter) >= 2 && p.cfg.Piped(Stdout))
    && p.stderr.launched == (Rank(c.starter) >= 3 && p.cfg.Piped(Stderr))
    && c.wg == Busy(p.stdout) + Busy(p.stderr)
    && (c.reaper == NotLaunched <==> c.starter != Returned)
    && (c.reaper != NotLaunched && c.reaper != AwaitDrains ==> c.wg == 0)
    && (c.published.Some? <==> c.reaper == Wrote || Late(c.reaper))
    && (p.merge.lines.Some? ==> (p.merge.lines.value.closed <==> Late(c.reaper)))
    && (c.done <==> c.reaper == ReaperDone)
  }

  ghost predicate Inv(p: Proc) {
    && ControlInv(p)
    && MergeInv(p)
    && DrainInv(p.cfg, p.stdout, Stdout)
    && DrainInv(p.cfg, p.stderr, Stderr)
  }

  lemma InitInv(cfg: Config)
    requires cfg.Resolved()
    ensures Inv(Init(cfg))
  {
    assert Due(cfg, NEW_DRAIN) == [];
  }

  // ---- Preservation: one drain ----

  lemma ReadKeeps(cfg: Config, d: Drain, id: StreamID, n: nat)
    requires cfg.Resolved() && DrainInv(cfg, d, id) && Reading(d) && n <= |d.unread|
    ensures DrainInv(cfg, ApplyRead(cfg, d, id, n), id)
  {
    var max, chunk := cfg.maxLineBytes, d.unread[..n];
    ConcatSnoc(d.chunks, chunk);
    assert Concat(d.chunks) + chunk + d.unread[n..] == Concat(d.chunks) + d.unread;
    if cfg.Splits(id) {
      ReadKeepsSplit(cfg, d, chunk);
    }
  }

  lemma ReadKeepsSplit(cfg: Config, d: Drain, chunk: Bytes)
    requires cfg.Resolved() && d.pending == [] && !d.eof
    requires Emissions(d.log) + d.pending == Due(cfg, d)
    requires d.acc == S.FeedAll([], d.chunks, cfg.maxLineBytes).acc
    ensures var max := cfg.maxLineBytes;
            var f := S.Feed(d.acc, chunk, max);
            && S.FeedAll([], d.chunks + [chunk], max).acc == f.acc
            && |f.acc| < max
            && Emissions(d.log) + S.Texts(f.pieces) == Due(cfg, d.(chunks := d.chunks + [chunk]))
  {
    var max := cfg.maxLineBytes;
    S.FeedAllSnoc(d.chunks, chunk, max);
    S.FeedAllLossless([], d.chunks, max);
    S.FeedLossless(d.acc, chunk, max);
    var f := S.FeedAll([], d.chunks, max);
    var g := S.Feed(f.acc, chunk, max);
    S.RawsAppend(f.pieces, g.pieces);
    assert f.pieces + [] == f.pieces && f.pieces + g.pieces + [] == f.pieces + g.pieces;
    assert Emissions(d.log) + [] == Emissions(d.log);
  }

  lemma EofKeeps(cfg: Config, d: Drain, id: StreamID)
    requires cfg.Resolved() && DrainInv(cfg, d, id) && Reading(d)
    requires d.unread == [] && !d.writeOpen
    ensures DrainInv(cfg, ApplyEof(d), id)
  {
    if cfg.Splits(id) {
      var f := S.FeedAll([], d.chunks, cfg.maxLineBytes);
      S.RawsAppend(f.pieces, S.AtEof(f.acc));
      assert f.pieces + [] == f.pieces;
      assert Emissions(d.log) + [] == Emissions(d.log);
    }
  }

  lemma EmitKeeps(cfg: Config, d: Drain, id: StreamID, fate: Fate)
    requires cfg.Resolved() && DrainInv(cfg, d, id) && Emitting(d)
    ensures DrainInv(cfg, Emitted(d, fate), id)
  {
    LogSnoc(d.log, (d.pending[0], fate), Sent);
    assert Emissions(d.log) + [d.pending[0]] + d.pending[1..] == Emissions(d.log) + d.pending;
  }

  lemma WriteKeeps(cfg: Config, d: Drain, id: StreamID, data: Bytes)
    requires cfg.Resolved() && DrainInv(cfg, d, id) && d.writeOpen
    ensures DrainInv(cfg, ApplyWrite(d, data), id)
  {
    assert Concat(d.chunks) + (d.unread + data) == Concat(d.chunks) + d.unread + data;
  }

  lemma FlagsKeep(cfg: Config, d: Drain, e: Drain, id: StreamID)
    requires cfg.Resolved() && DrainInv(cfg, d, id)
    requires e == d.(launched := e.launched, finished := e.finished, writeOpen := e.writeOpen)
    requires d.launched ==> e.launched
    requires e.finished ==> e.eof && e.pending == []
    requires e.writeOpen ==> d.writeOpen
    ensures DrainInv(cfg, e, id)
  {
  }

  lemma EmissionKept(p: Proc, a: Action, alive: bool, id: StreamID)
    requires p.cfg.Resolved() && Enabled(p, a, alive) && DrainInv(p.cfg, p.At(id), id)
    requires a.Send? || a.Drop? || a.Release? || a.Skip?
    ensures DrainInv(p.cfg, Apply(p, a, alive).At(id), id)
  {
    hide DrainInv;
    if a.id == id {
      EmitKeeps(p.cfg, p.At(id), id,
        if a.Send? then Sent else if a.Drop? then Dropped else if a.Release? then Released else NoChannel);
    }
  }

  lemma FinishedIsDone(cfg: Config, d: Drain, id: StreamID)
    requires cfg.Resolved() && DrainInv(cfg, d, id)
    ensures d.finished ==> d.eof && d.pending == []
  {
    hide BytesInv;
  }

  lemma LaunchKept(p: Proc, id: StreamID)
    requires p.cfg.Resolved() && DrainInv(p.cfg, p.At(id), id)
    ensures DrainInv(p.cfg, ApplyStart(p).At(id), id)
  {
    hide DrainInv;
    FinishedIsDone(p.cfg, p.At(id), id);
    FlagsKeep(p.cfg, p.At(id), ApplyStart(p).At(id), id);
  }

  lemma DoneKept(p: Proc, i: StreamID, id: StreamID)
    requires p.cfg.Resolved() && DrainInv(p.cfg, p.At(id), id) && Drained(p.At(i))
    ensures DrainInv(p.cfg, ApplyDrainDone(p, i).At(id), id)
  {
    hide DrainInv;
    FinishedIsDone(p.cfg, p.At(id), id);
    FlagsKeep(p.cfg, p.At(id), ApplyDrainDone(p, i).At(id), id);
  }

  lemma CloseWriteKept(p: Proc, i: StreamID, id: StreamID)
    requires p.cfg.Resolved() && DrainInv(p.cfg, p.At(id), id)
    ensures DrainInv(p.cfg, p.With(i, p.At(i).(writeOpen := false)).At(id), id)
  {
    hide DrainInv;
    FinishedIsDone(p.cfg, p.At(id), id);
    FlagsKeep(p.cfg, p.At(id), p.With(i, p.At(i).(writeOpen := false)).At(id), id);
  }

  lemma DrainKept(p: Proc, a: Action, alive: bool, id: StreamID)
    requires ControlInv(p) && Enabled(p, a, alive) && DrainInv(p.cfg, p.At(id), id)
    ensures DrainInv(p.cfg, Apply(p, a, alive).At(id), id)
  {
    var d, e := p.At(id), Apply(p, a, alive).At(id);
    hide DrainInv, ControlInv;
    match a {
      case StartStep => LaunchKept(p, id);
      case Read(i, n) => if i == id { ReadKeeps(p.cfg, d, id, n); }
      case Eof(i) => if i == id { EofKeeps(p.cfg, d, id); }
      case Send(i) => EmissionKept(p, a, alive, id);
      case Drop(i) => EmissionKept(p, a, alive, id);
      case Release(i) => EmissionKept(p, a, alive, id);
      case Skip(i) => EmissionKept(p, a, alive, id);
      case DrainDone(i) => DoneKept(p, i, id);
      case Write(i, data) => if i == id { WriteKeeps(p.cfg, d, id, data); }
      case CloseWrite(i) => CloseWriteKept(p, i, id);
      case _ => assert e == d;
    }
  }

  // ---- Preservation: the channel ----

  /** What one emission does to the merged channel. */
  ghost predicate Accepts(p: Proc, text: Bytes, id: StreamID, fate: Fate, m: Merge) {
    match fate
    case Sent =>
      && p.merge.lines.Some? && |p.merge.lines.value.buf| < p.cfg.bufferLines
      && m == Enqueued(p.merge, Line(id, text))
    case Dropped =>
      && p.merge.lines.Some? && p.cfg.overflow == DropNewest
      && m == p.merge.(dropped := p.merge.dropped + 1)
    case Released =>
      && p.merge.lines.Some? && p.cfg.overflow == Block && (p.ctl.ctxDone || p.ctl.stop)
      && m == p.merge
    case NoChannel => p.merge.lines.None? && m == p.merge
  }

  lemma EmitKeepsFates(p: Proc, text: Bytes, id: StreamID, fate: Fate, m: Merge, log: seq<(Bytes, Fate)>)
    requires FatesInv(p.cfg, log, id, p.merge, p.ctl.ctxDone || p.ctl.stop) && Accepts(p, text, id, fate, m)
    ensures FatesInv(p.cfg, log + [(text, fate)], id, m, p.ctl.ctxDone || p.ctl.stop)
  {
    hide WithFate, OfStream;
    LogSnoc(log, (text, fate), Sent);
    LogSnoc(log, (text, fate), Dropped);
    LogSnoc(log, (text, fate), Released);
    LogSnoc(log, (text, fate), NoChannel);
    OfStreamSnoc(p.merge.sent, Line(id, text), id);
  }

  lemma EmitKeepsOther(p: Proc, text: Bytes, id: StreamID, fate: Fate, m: Merge, log: seq<(Bytes, Fate)>,
                       other: StreamID)
    requires FatesInv(p.cfg, log, other, p.merge, p.ctl.ctxDone || p.ctl.stop) && Accepts(p, text, id, fate, m)
    requires other != id
    ensures FatesInv(p.cfg, log, other, m, p.ctl.ctxDone || p.ctl.stop)
  {
    hide WithFate, OfStream;
    OfStreamSnoc(p.merge.sent, Line(id, text), other);
    assert OfStream(p.merge.sent, other) + [] == OfStream(p.merge.sent, other);
  }

  lemma EmitKeepsMerge(p: Proc, id: StreamID, fate: Fate, m: Merge)
    requires MergeInv(p) && p.At(id).pending != [] && Accepts(p, p.At(id).pending[0], id, fate, m)
    ensures MergeInv(p.With(id, Emitted(p.At(id), fate)).(merge := m))
  {
    hide WithFate, OfStream, FatesInv;
    var log, text := p.At(id).log, p.At(id).pending[0];
    LogSnoc(log, (text, fate), Dropped);
    var other := if id == Stdout then Stderr else Stdout;
    EmitKeepsFates(p, text, id, fate, m, log);
    EmitKeepsOther(p, text, id, fate, m, p.At(other).log, other);
  }

  lemma MergeKept(p: Proc, a: Action, alive: bool)
    requires ControlInv(p) && MergeInv(p) && Enabled(p, a, alive)
    requires FlagsInv(p.cfg, p.stdout) && FlagsInv(p.cfg, p.stderr)
    ensures MergeInv(Apply(p, a, alive))
  {
    hide MergeInv, WithFate, OfStream, FatesInv, ApplyStart, ApplyReceive;
    match a {
      case Send(id) =>
        assert !p.merge.lines.value.closed by { SendKeepsControl(p, id); }
        EmitKeepsMerge(p, id, Sent, Enqueued(p.merge, Line(id, p.At(id).pending[0])));
      case Drop(id) => EmitKeepsMerge(p, id, Dropped, p.merge.(dropped := p.merge.dropped + 1));
      case Release(id) => EmitKeepsMerge(p, id, Released, p.merge);
      case Skip(id) => EmitKeepsMerge(p, id, NoChannel, p.merge);
      case StartStep => StartKeepsMerge(p);
      case Receive => ReceiveKeepsMerge(p);
      case _ => QuietKeepsMerge(p, a, alive);
    }
  }

  /** Logs, channel contents and counters as before; a channel may have been closed. */
  ghost predicate QuietFor(p: Proc, q: Proc) {
    && q.cfg == p.cfg && q.stdout.log == p.stdout.log && q.stderr.log == p.stderr.log
    && ((p.ctl.ctxDone || p.ctl.stop) ==> (q.ctl.ctxDone || q.ctl.stop))
    && (q.merge == p.merge || (p.merge.lines.Some? && q.merge.lines.Some?
          && q.merge == p.merge.(lines := Some(p.merge.lines.value.(closed := q.merge.lines.value.closed)))))
  }

  lemma PipeActionQuiet(p: Proc, a: Action, alive: bool)
    requires p.cfg.Resolved() && Enabled(p, a, alive)
    requires a.Read? || a.Eof? || a.Write? || a.CloseWrite? || a.DrainDone?
    ensures QuietFor(p, Apply(p, a, alive))
  {
    hide SendReady;
  }

  lemma ReaperActionQuiet(p: Proc, a: Action, alive: bool)
    requires p.cfg.Resolved() && Enabled(p, a, alive)
    requires a.DrainsDone? || a.WaitDone? || a.Publish? || a.CloseLines? || a.CloseDone? || a.Cancel? || a.SignalStop?
    requires p.ctl.stop == p.ctl.stopOnce
    ensures QuietFor(p, Apply(p, a, alive))
  {
  }

  lemma QuietKeepsMerge(p: Proc, a: Action, alive: bool)
    requires ControlInv(p) && MergeInv(p) && Enabled(p, a, alive)
    requires !(a.Send? || a.Drop? || a.Release? || a.Skip? || a.StartStep? || a.Receive?)
    ensures MergeInv(Apply(p, a, alive))
  {
    hide Apply, Enabled, WithFate, OfStream;
    if a.Read? || a.Eof? || a.Write? || a.CloseWrite? || a.DrainDone? {
      PipeActionQuiet(p, a, alive);
    } else {
      ReaperActionQuiet(p, a, alive);
    }
  }

  lemma StartKeepsMerge(p: Proc)
    requires ControlInv(p) && MergeInv(p) && p.ctl.starter != Returned
    requires FlagsInv(p.cfg, p.stdout) && FlagsInv(p.cfg, p.stderr)
    ensures MergeInv(ApplyStart(p))
  {
  }

  lemma ReceiveKeepsMerge(p: Proc)
    requires MergeInv(p) && p.merge.lines.Some? && p.merge.lines.value.buf != []
    ensures MergeInv(p.(merge := ApplyReceive(p.merge)))
  {
    var b := p.merge.lines.value.buf;
    assert b == [b[0]] + b[1..];
  }

  // ---- Preservation: control ----

  lemma StartKeepsControl(p: Proc)
    requires ControlInv(p) && p.ctl.starter != Returned
    requires FlagsInv(p.cfg, p.stdout) && FlagsInv(p.cfg, p.stderr)
    ensures ControlInv(ApplyStart(p))
  {
  }

  lemma DrainDoneKeepsControl(p: Proc, id: StreamID)
    requires ControlInv(p) && Drained(p.At(id)) && !p.At(id).finished
    ensures ControlInv(ApplyDrainDone(p, id))
  {
  }

  lemma SendKeepsControl(p: Proc, id: StreamID)
    requires ControlInv(p) && Emitting(p.At(id)) && p.merge.lines.Some? && FlagsInv(p.cfg, p.At(id))
    ensures ControlInv(ApplySend(p, id))
  {
    assert Busy(p.At(id)) == 1;
  }

  lemma ReaperKeepsControl(p: Proc, a: Action, alive: bool)
    requires ControlInv(p) && Enabled(p, a, alive)
    requires a.DrainsDone? || a.WaitDone? || a.Publish? || a.CloseLines? || a.CloseDone?
    ensures ControlInv(Apply(p, a, alive))
  {
  }

  lemma ControlKept(p: Proc, a: Action, alive: bool)
    requires ControlInv(p) && Enabled(p, a, alive)
    requires FlagsInv(p.cfg, p.stdout) && FlagsInv(p.cfg, p.stderr)
    ensures ControlInv(Apply(p, a, alive))
  {
    match a {
      case StartStep => StartKeepsControl(p);
      case Send(id) => SendKeepsControl(p, id);
      case DrainDone(id) => DrainDoneKeepsControl(p, id);
      case DrainsDone => ReaperKeepsControl(p, a, alive);
      case WaitDone(w) => ReaperKeepsControl(p, a, alive);
      case Publish => ReaperKeepsControl(p, a, alive);
      case CloseLines => ReaperKeepsControl(p, a, alive);
      case CloseDone => ReaperKeepsControl(p, a, alive);
      case Cancel => SignalKeepsControl(p);
      case SignalStop => SignalKeepsControl(p);
      case Receive => ReceiveKeepsControl(p);
      case _ => QuietKeepsControl(p, a, alive);
    }
  }

  lemma SignalKeepsControl(p: Proc)
    requires ControlInv(p)
    ensures ControlInv(p.(ctl := p.ctl.(ctxDone := true))) && ControlInv(p.(ctl := ApplyStop(p.ctl)))
  {
  }

  lemma ReceiveKeepsControl(p: Proc)
    requires ControlInv(p) && p.merge.lines.Some? && p.merge.lines.value.buf != []
    ensures ControlInv(p.(merge := ApplyReceive(p.merge)))
  {
  }

  lemma QuietKeepsControl(p: Proc, a: Action, alive: bool)
    requires ControlInv(p) && Enabled(p, a, alive)
    requires a.Read? || a.Eof? || a.Drop? || a.Release? || a.Skip? || a.Write? || a.CloseWrite?
    ensures ControlInv(Apply(p, a, alive))
  {
    var q := Apply(p, a, alive);
    assert q.ctl == p.ctl && q.merge.lines == p.merge.lines && q.cfg == p.cfg by { hide ControlInv; }
    assert q.stdout.launched == p.stdout.launched && q.stdout.finished == p.stdout.finished by { hide ControlInv; }
    assert q.stderr.launched == p.stderr.launched && q.stderr.finished == p.stderr.finished by { hide ControlInv; }
    hide Apply, Enabled;
  }

  lemma SameConfig(p: Proc, a: Action, alive: bool)
    requires p.cfg.Resolved() && Enabled(p, a, alive)
    ensures Apply(p, a, alive).cfg == p.cfg
  {
  }

  lemma InvKept(p: Proc, a: Action, alive: bool)
    requires Inv(p) && Enabled(p, a, alive)
    ensures Inv(Apply(p, a, alive))
  {
    var q := Apply(p, a, alive);
    SameConfig(p, a, alive);
    ControlKept(p, a, alive);
    MergeKept(p, a, alive);
    DrainKept(p, a, alive, Stdout);
    DrainKept(p, a, alive, Stderr);
    assert Inv(q) by {
      hide ControlInv, MergeInv, DrainInv, Apply;
    }
  }

  lemma {:induction false} RunKeepsInv(p: Proc, run: seq<Event>, q: Proc)
    requires Inv(p) && IsRun(p, run, q)
    ensures Inv(q)
    decreases |run|
  {
    if run != [] {
      InvKept(p, run[0].a, run[0].alive);
      RunKeepsInv(Apply(p, run[0].a, run[0].alive), run[1..], q);
    }
  }

  lemma ReachableInv(q: Proc)
    requires Reachable(q)
    ensures Inv(q)
  {
    var cfg: Config, run :| cfg.Resolved() && IsRun(Init(cfg), run, q);
    InitInv(cfg);
    RunKeepsInv(Init(cfg), run, q);
  }

  // ---- Main results ----

  /** In every reachable state: nothing has panicked, so lines, done and stop were each closed at
      most once and no send met a closed channel; and the order is drains finished, outcome
      written, lines closed, done closed. */
  lemma ClosingOrder(p: Proc)
    requires Reachable(p)
    ensures !p.ctl.panicked
    ensures p.ctl.published.Some? ==> forall id :: p.At(id).launched ==> p.At(id).finished
    ensures p.merge.lines.Some? && p.merge.lines.value.closed ==>
              p.ctl.published.Some? && forall id :: !Emitting(p.At(id)) && !Reading(p.At(id))
    ensures p.ctl.done ==>
              p.ctl.published.Some? && (p.merge.lines.Some? ==> p.merge.lines.value.closed)
    ensures p.ctl.done ==> p.merge.lines.Some? == p.cfg.streamLines
  {
    ReachableInv(p);
    hide BytesInv, MergeInv;
    assert Busy(p.stdout) == Busy(p.stderr) == 0 || p.ctl.wg > 0;
  }

  /** Whoever saw done closed reads the final outcome: nothing afterwards rewrites it. */
  lemma {:induction false} OutcomeIsFinal(p: Proc, run: seq<Event>, q: Proc)
    requires Inv(p) && p.ctl.done && IsRun(p, run, q)
    ensures q.ctl.done && q.ctl.published == p.ctl.published && q.ctl.published.Some?
    decreases |run|
  {
    if run != [] {
      var p' := Apply(p, run[0].a, run[0].alive);
      InvKept(p, run[0].a, run[0].alive);
      DoneStays(p, run[0].a, run[0].alive);
      OutcomeIsFinal(p', run[1..], q);
    }
  }

  lemma DoneStays(p: Proc, a: Action, alive: bool)
    requires ControlInv(p) && p.ctl.done && Enabled(p, a, alive)
    ensures Apply(p, a, alive).ctl.done && Apply(p, a, alive).ctl.published == p.ctl.published
  {
  }

  ghost predicate Subsequence(a: seq<Bytes>, b: seq<Bytes>)
    decreases |b|
  {
    || a == []
    || (b != [] && Subsequence(a, b[..|b| - 1]))
    || (b != [] && a[|a| - 1] == b[|b| - 1] && Subsequence(a[..|a| - 1], b[..|b| - 1]))
  }

  lemma {:induction false} FateIsSubsequence(log: seq<(Bytes, Fate)>, f: Fate)
    ensures Subsequence(WithFate(log, f), Emissions(log))
  {
    if log != [] {
      var init, l := log[..|log| - 1], log[|log| - 1];
      FateIsSubsequence(init, f);
      assert Emissions(log)[..|Emissions(log)| - 1] == Emissions(init);
      if l.1 == f {
        assert WithFate(log, f)[..|WithFate(log, f)| - 1] == WithFate(init, f);
      } else {
        assert WithFate(log, f) == WithFate(init, f);
      }
    }
  }

  lemma {:induction false} OnlyFate(log: seq<(Bytes, Fate)>, f: Fate)
    requires forall g :: g != f ==> WithFate(log, g) == []
    ensures WithFate(log, f) == Emissions(log)
  {
    if log != [] {
      var init, l := log[..|log| - 1], log[|log| - 1];
      assert WithFate(log, l.1) != [];
      assert l.1 == f;
      forall g | g != f ensures WithFate(init, g) == [] { assert WithFate(log, g) == []; }
      OnlyFate(init, f);
    }
  }

  /** Merge accounting, in every reachable state. Per stream, what entered the channel is an
      in-order subsequence of what the stream emitted; what was received is a prefix of what
      entered. Under Block nothing counts as dropped, and with neither cancellation nor stop every
      emitted line entered; under DropNewest delivered plus dropped is exactly emitted. */
  lemma MergeAccounting(p: Proc)
    requires Reachable(p)
    ensures forall id :: Subsequence(OfStream(p.merge.sent, id), Emissions(p.At(id).log))
    ensures p.merge.lines.Some? ==> p.merge.sent == p.merge.received + p.merge.lines.value.buf
    ensures p.merge.lines.Some? ==> |p.merge.lines.value.buf| <= p.cfg.bufferLines
    ensures p.merge.lines.Some? && p.cfg.overflow == Block ==> p.merge.dropped == 0
    ensures p.merge.lines.Some? && p.cfg.overflow == Block && !p.ctl.ctxDone && !p.ctl.stop ==>
              forall id :: OfStream(p.merge.sent, id) == Emissions(p.At(id).log)
    ensures p.merge.lines.Some? && p.cfg.overflow == DropNewest ==>
              |OfStream(p.merge.sent, Stdout)| + |OfStream(p.merge.sent, Stderr)| + p.merge.dropped
                == |Emissions(p.stdout.log)| + |Emissions(p.stderr.log)|
  {
    ReachableInv(p);
    hide BytesInv, ControlInv;
    forall id
      ensures Subsequence(OfStream(p.merge.sent, id), Emissions(p.At(id).log))
      ensures p.merge.lines.Some? && p.cfg.overflow == Block && !p.ctl.ctxDone && !p.ctl.stop ==>
                OfStream(p.merge.sent, id) == Emissions(p.At(id).log)
    {
      StreamAccount(p, id);
    }
    FatesPartition(p.stdout.log);
    FatesPartition(p.stderr.log);
    hide WithFate, Emissions, OfStream;
  }

  lemma StreamAccount(p: Proc, id: StreamID)
    requires MergeInv(p)
    ensures Subsequence(OfStream(p.merge.sent, id), Emissions(p.At(id).log))
    ensures p.merge.lines.Some? && p.cfg.overflow == Block && !p.ctl.ctxDone && !p.ctl.stop ==>
              OfStream(p.merge.sent, id) == Emissions(p.At(id).log)
  {
    var log := p.At(id).log;
    FateIsSubsequence(log, Sent);
    if p.merge.lines.Some? && p.cfg.overflow == Block && !p.ctl.ctxDone && !p.ctl.stop {
      forall g | g != Sent ensures WithFate(log, g) == [] {
        match g { case Dropped => case Released => case NoChannel => }
      }
      OnlyFate(log, Sent);
    }
  }

  /** Once Start has returned, a stream has a drain exactly when lines are streamed or it has a callback
      or a tee; one with nothing but a tee is not split and emits nothing. */
  lemma WhatIsDrained(p: Proc)
    requires Reachable(p) && p.ctl.starter == Returned
    ensures p.stdout.launched <==> p.cfg.streamLines || p.cfg.onStdout || p.cfg.stdoutTee
    ensures p.stderr.launched <==> p.cfg.streamLines || p.cfg.onStderr || p.cfg.stderrTee
    ensures !p.cfg.streamLines && !p.cfg.onStdout ==> p.stdout.log == [] && p.stdout.pending == []
    ensures !p.cfg.streamLines && !p.cfg.onStderr ==> p.stderr.log == [] && p.stderr.pending == []
  {
    ReachableInv(p);
    hide MergeInv;
  }

  /** A line is dropped only by a full channel, and only when that is asked for. */
  lemma DropsWhenFull(p: Proc, id: StreamID, alive: bool)
    requires Reachable(p) && Enabled(p, Drop(id), alive)
    ensures p.cfg.overflow == DropNewest && p.merge.lines.Some? && |p.merge.lines.value.buf| == p.cfg.bufferLines
  {
    MergeAccounting(p);
  }

  /** End to end: once done is closed, each stream that is split into lines, for the channel or only
      for a callback, has emitted exactly
      the splitter's pieces of exactly the bytes the child wrote, for whatever way they were read;
      and under Block with neither cancellation nor stop these are the lines that went through the
      channel. When the runs fit the cap they are the one-shot split of the child's output. */
  lemma StreamEndToEnd(p: Proc, id: StreamID)
    requires p.cfg.Resolved() && Reachable(p) && p.ctl.done
    requires p.cfg.streamLines || (if id == Stdout then p.cfg.onStdout else p.cfg.onStderr)
    ensures var d, max := p.At(id), p.cfg.maxLineBytes;
            && Concat(d.chunks) == d.written
            && Emissions(d.log) == S.Texts(S.Drain(d.chunks, max))
            && (p.cfg.streamLines && p.cfg.overflow == Block && !p.ctl.ctxDone && !p.ctl.stop ==>
                  OfStream(p.merge.sent, id) == Emissions(d.log))
            && (S.RunsFit(d.written, max) ==> Emissions(d.log) == S.SplitLines(d.written))
  {
    assert p.cfg.Splits(id);
    hide *;
    var d, max := p.At(id), p.cfg.maxLineBytes;
    EndOfStream(p, id);
    DrainedBytes(p.cfg, d, id);
    if S.RunsFit(d.written, max) { S.DrainFits(d.chunks, max); }
  }

  lemma EndOfStream(p: Proc, id: StreamID)
    requires p.cfg.Resolved() && Reachable(p) && p.ctl.done && p.cfg.Splits(id)
    ensures DrainInv(p.cfg, p.At(id), id) && p.At(id).finished && p.cfg.maxLineBytes > 0
    ensures p.cfg.streamLines && p.cfg.overflow == Block && !p.ctl.ctxDone && !p.ctl.stop ==>
              OfStream(p.merge.sent, id) == Emissions(p.At(id).log)
  {
    hide Reachable, MergeInv, ControlInv, Subsequence, OfStream, Emissions, FlagsInv, BytesInv;
    ReachableInv(p);
    ClosingOrder(p);
    DoneFinished(p, id);
    MergeAccounting(p);
  }

  lemma DoneFinished(p: Proc, id: StreamID)
    requires ControlInv(p) && DrainInv(p.cfg, p.At(id), id) && p.ctl.done && p.cfg.Splits(id)
    ensures p.At(id).finished && p.cfg.maxLineBytes > 0 && p.merge.lines.Some? == p.cfg.streamLines
  {
    hide BytesInv;
  }

  lemma DrainedBytes(cfg: Config, d: Drain, id: StreamID)
    requires cfg.Resolved() && DrainInv(cfg, d, id) && cfg.Splits(id) && d.finished
    ensures Concat(d.chunks) == d.written
    ensures Emissions(d.log) == S.Texts(S.Drain(d.chunks, cfg.maxLineBytes))
  {
    assert Concat(d.chunks) + [] == Concat(d.chunks);
    assert Emissions(d.log) + [] == Emissions(d.log);
  }
}
