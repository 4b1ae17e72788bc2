/** What a started process has come to, read off the events of its run: what was found at the end, what
    was written, and who cancelled; and what a consumer that keeps receiving is given. */
module StreamingTrace {
  import opened Bytes
  import opened Outcomes
  import opened Streaming
  import opened StreamingSafety
  import opened StreamingProgress
  import S = LineSplitter

  // ---- Reading a run ----

  function Actions(run: seq<Event>): seq<Action> {
    if run == [] then [] else [run[0].a] + Actions(run[1..])
  }

  /** What cmd.Wait was found to leave behind, each time. */
  function WaitResults(done: seq<Action>): seq<WaitResult> {
    if done == [] then [] else (if done[0].WaitDone? then [done[0].w] else []) + WaitResults(done[1..])
  }

  /** The bytes written to one stream, in order. */
  function WrittenIn(done: seq<Action>, id: StreamID): Bytes {
    if done == [] then []
    else (if done[0].Write? && done[0].id == id then done[0].data else []) + WrittenIn(done[1..], id)
  }

  // ---- The outcome ----

  /** What reap publishes for what Wait left: the state's own outcome, the failure of the reap, or
      exit 0 when there is neither a state nor an error. */
  ghost predicate Tells(published: Published, w: WaitResult) {
    match w
    case State(o) => published == Ended(o)
    case Error => published == ReapFailed
    case Neither => published == Ended(Exited(0))
  }

  /** The results found so far, as far as the reaper has come. */
  ghost predicate Found(c: Control, ws: seq<WaitResult>) {
    match c.reaper
    case Waited(w) => ws == [w]
    case NotLaunched => ws == []
    case AwaitDrains => ws == []
    case AwaitExit => ws == []
    case _ => |ws| == 1 && c.published.Some? && Tells(c.published.value, ws[0])
  }

  lemma StepFinds(p: Proc, a: Action, alive: bool, ws: seq<WaitResult>)
    requires ControlInv(p) && Enabled(p, a, alive) && Found(p.ctl, ws)
    ensures Found(Apply(p, a, alive).ctl, ws + if a.WaitDone? then [a.w] else [])
  {
    assert ws + [] == ws;
  }

  lemma {:induction false} RunFinds(p: Proc, run: seq<Event>, q: Proc, ws: seq<WaitResult>)
    requires Inv(p) && IsRun(p, run, q) && Found(p.ctl, ws)
    ensures Found(q.ctl, ws + WaitResults(Actions(run)))
    decreases |run|
  {
    hide Inv, ControlInv, Apply, Enabled, Found, Actions, WaitResults;
    if run == [] {
      NothingDone();
      assert ws + [] == ws;
    } else {
      var a, alive := run[0].a, run[0].alive;
      InvKept(p, a, alive);
      Controlled(p);
      StepFinds(p, a, alive, ws);
      var now := if a.WaitDone? then [a.w] else [];
      RunFinds(Apply(p, a, alive), run[1..], q, ws + now);
      ActionsCons(run);
      WaitResultsCons(Actions(run));
      assert ws + now + WaitResults(Actions(run[1..])) == ws + (now + WaitResults(Actions(run[1..])));
    }
  }

  lemma ActionsCons(run: seq<Event>)
    requires run != []
    ensures Actions(run) != [] && Actions(run)[0] == run[0].a && Actions(run)[1..] == Actions(run[1..])
  {
  }

  lemma {:induction false} WaitedOnce(run: seq<Event>) returns (k: nat)
    requires |WaitResults(Actions(run))| == 1
    ensures k < |run| && run[k].a == WaitDone(WaitResults(Actions(run))[0])
    ensures forall j :: 0 <= j < |run| && run[j].a.WaitDone? ==> j == k
  {
    ActionsCons(run);
    if run[0].a.WaitDone? {
      k := 0;
      NeverWaited(run[1..]);
      assert forall j :: 0 < j < |run| ==> run[j] == run[1..][j - 1];
    } else {
      var i := WaitedOnce(run[1..]);
      k := i + 1;
      assert forall j :: 0 < j < |run| ==> run[j] == run[1..][j - 1];
    }
  }

  lemma {:induction false} NeverWaited(run: seq<Event>)
    requires WaitResults(Actions(run)) == []
    ensures forall j :: 0 <= j < |run| ==> !run[j].a.WaitDone?
  {
    if run != [] {
      ActionsCons(run);
      NeverWaited(run[1..]);
      assert forall j :: 0 < j < |run| ==> run[j] == run[1..][j - 1];
    }
  }

  lemma PublishedTells(cfg: Config, run: seq<Event>, q: Proc)
    requires cfg.Resolved() && IsRun(Init(cfg), run, q) && q.ctl.done
    ensures var ws := WaitResults(Actions(run));
            |ws| == 1 && q.ctl.published.Some? && Tells(q.ctl.published.value, ws[0])
  {
    hide Inv, Actions, WaitResults, Tells;
    InitInv(cfg);
    RunKeepsInv(Init(cfg), run, q);
    Controlled(q);
    RunFinds(Init(cfg), run, q, []);
    assert [] + WaitResults(Actions(run)) == WaitResults(Actions(run));
  }

  /** In every run from registration to done the process was waited for exactly once, and what is
      published is what that Wait left behind. */
  lemma PublishedIsFound(cfg: Config, run: seq<Event>, q: Proc) returns (k: nat)
    requires cfg.Resolved() && IsRun(Init(cfg), run, q) && q.ctl.done
    ensures k < |run| && run[k].a.WaitDone? && forall j :: 0 <= j < |run| && run[j].a.WaitDone? ==> j == k
    ensures q.ctl.published == Some(match run[k].a.w
                                    case State(o) => Ended(o)
                                    case Error => ReapFailed
                                    case Neither => Ended(Exited(0)))
  {
    hide IsRun, Actions, WaitResults;
    PublishedTells(cfg, run, q);
    k := WaitedOnce(run);
  }

  /** All actions but the closing of stop. */
  function WithoutStops(done: seq<Action>): seq<Action> {
    if done == [] then [] else (if done[0].SignalStop? then [] else [done[0]]) + WithoutStops(done[1..])
  }

  lemma {:induction false} StopsFindNothing(done: seq<Action>)
    ensures WaitResults(WithoutStops(done)) == WaitResults(done)
  {
    if done != [] {
      StopsFindNothing(done[1..]);
      ConsFacts(done[0], done[1..]);
      ConsFacts(done[0], WithoutStops(done[1..]));
      assert [done[0]] + done[1..] == done;
      assert [] + WithoutStops(done[1..]) == WithoutStops(done[1..]);
      assert [] + WaitResults(done[1..]) == WaitResults(done[1..]);
    }
  }

  lemma ConsFacts(a: Action, rest: seq<Action>)
    ensures WithoutStops([a] + rest) == (if a.SignalStop? then [] else [a]) + WithoutStops(rest)
    ensures WaitResults([a] + rest) == (if a.WaitDone? then [a.w] else []) + WaitResults(rest)
  {
    assert ([a] + rest)[1..] == rest;
  }

  // ---- What was written, and who cancelled ----

  lemma StepWrites(p: Proc, a: Action, alive: bool, id: StreamID)
    requires p.cfg.Resolved() && Enabled(p, a, alive)
    ensures Apply(p, a, alive).At(id).written
         == p.At(id).written + if a.Write? && a.id == id then a.data else []
    ensures Apply(p, a, alive).At(id).writeOpen == (p.At(id).writeOpen && a != CloseWrite(id))
  {
    hide S.Feed, S.Texts, S.AtEof, ApplyStop, ApplyReceive, Enqueued;
    assert p.At(id).written + [] == p.At(id).written;
    if Internal(a) { InternalWritesNothing(p, a, alive, id); }
  }

  lemma InternalWritesNothing(p: Proc, a: Action, alive: bool, id: StreamID)
    requires p.cfg.Resolved() && Enabled(p, a, alive) && Internal(a)
    ensures Apply(p, a, alive).At(id).written == p.At(id).written
    ensures Apply(p, a, alive).At(id).writeOpen == p.At(id).writeOpen
  {
    hide S.Feed, S.Texts, S.AtEof, Enqueued, ApplyStart;
    match a {
      case StartStep => StartWritesNothing(p, id);
      case Send(_) => case Drop(_) => case Release(_) => case Skip(_) =>
      case Read(_, _) => case Eof(_) => case DrainDone(_) =>
      case DrainsDone => case WaitDone(_) => case Publish => case CloseLines => case CloseDone =>
    }
  }

  lemma StartWritesNothing(p: Proc, id: StreamID)
    ensures ApplyStart(p).At(id).written == p.At(id).written
    ensures ApplyStart(p).At(id).writeOpen == p.At(id).writeOpen
  {
  }

  lemma StepEnds(p: Proc, a: Action, alive: bool)
    requires p.cfg.Resolved() && p.ctl.stop == p.ctl.stopOnce && Enabled(p, a, alive)
    ensures Apply(p, a, alive).ctl.ctxDone == (p.ctl.ctxDone || a == Cancel)
    ensures Apply(p, a, alive).ctl.stop == (p.ctl.stop || a == SignalStop)
  {
    hide S.Feed, S.Texts, S.AtEof, ApplyReceive, Enqueued, ApplyRead, ApplyEof, Emitted, ApplyWrite;
    if Internal(a) { InternalEndsNothing(p, a, alive); }
  }

  lemma InternalEndsNothing(p: Proc, a: Action, alive: bool)
    requires p.cfg.Resolved() && Enabled(p, a, alive) && Internal(a)
    ensures Apply(p, a, alive).ctl.ctxDone == p.ctl.ctxDone && Apply(p, a, alive).ctl.stop == p.ctl.stop
  {
    hide S.Feed, S.Texts, S.AtEof, Enqueued, ApplyRead, ApplyEof, Emitted, ApplyStart;
    match a {
      case StartStep => StartEndsNothing(p);
      case Send(_) => case Drop(_) => case Release(_) => case Skip(_) =>
      case Read(_, _) => case Eof(_) => case DrainDone(_) =>
      case DrainsDone => case WaitDone(_) => case Publish => case CloseLines => case CloseDone =>
    }
  }

  lemma StartEndsNothing(p: Proc)
    ensures ApplyStart(p).ctl.ctxDone == p.ctl.ctxDone && ApplyStart(p).ctl.stop == p.ctl.stop
  {
  }

  lemma Controlled(p: Proc)
    requires Inv(p)
    ensures ControlInv(p) && p.cfg.Resolved() && p.ctl.stop == p.ctl.stopOnce
  {
    hide MergeInv, DrainInv;
  }

  /** Nothing is written but by the child, no pipe end goes but when it is closed, and the stop channel
      and the context end exactly when somebody ends them. */
  lemma {:induction false} RunHistory(p: Proc, run: seq<Event>, q: Proc)
    requires Inv(p) && IsRun(p, run, q)
    ensures forall id :: q.At(id).written == p.At(id).written + WrittenIn(Actions(run), id)
    ensures forall id :: q.At(id).writeOpen == (p.At(id).writeOpen && CloseWrite(id) !in Actions(run))
    ensures q.ctl.ctxDone == (p.ctl.ctxDone || Cancel in Actions(run))
    ensures q.ctl.stop == (p.ctl.stop || SignalStop in Actions(run))
    ensures q.cfg == p.cfg
    decreases |run|
  {
    hide Inv, ControlInv, Apply, Enabled, Actions, WrittenIn;
    if run == [] {
      NothingDone();
    } else {
      var a, alive := run[0].a, run[0].alive;
      InvKept(p, a, alive);
      Controlled(p);
      StepEnds(p, a, alive);
      SameConfig(p, a, alive);
      RunHistory(Apply(p, a, alive), run[1..], q);
      ActionsCons(run);
      forall id
        ensures q.At(id).written == p.At(id).written + WrittenIn(Actions(run), id)
        ensures q.At(id).writeOpen == (p.At(id).writeOpen && CloseWrite(id) !in Actions(run))
      {
        StepWrites(p, a, alive, id);
        WrittenCons(Actions(run), id);
        BytesAssoc(p.At(id).written, if a.Write? && a.id == id then a.data else [], WrittenIn(Actions(run)[1..], id));
      }
    }
  }

  lemma SameConfig(p: Proc, a: Action, alive: bool)
    requires p.cfg.Resolved() && Enabled(p, a, alive)
    ensures Apply(p, a, alive).cfg == p.cfg
  {
    hide S.Feed, S.Texts, S.AtEof, ApplyRead, ApplyEof, Emitted, ApplyWrite, ApplyStop, Enqueued, ApplyReceive;
  }

  lemma NothingDone()
    ensures Actions([]) == [] && WaitResults([]) == [] && forall id :: WrittenIn([], id) == []
  {
  }

  lemma WrittenCons(done: seq<Action>, id: StreamID)
    requires done != []
    ensures WrittenIn(done, id)
         == (if done[0].Write? && done[0].id == id then done[0].data else []) + WrittenIn(done[1..], id)
  {
  }

  lemma WaitResultsCons(done: seq<Action>)
    requires done != []
    ensures WaitResults(done) == (if done[0].WaitDone? then [done[0].w] else []) + WaitResults(done[1..])
  {
  }

  // ---- A consumer that keeps receiving ----

  function Buffered(p: Proc): nat { if p.merge.lines.Some? then |p.merge.lines.value.buf| else 0 }

  /** With the child gone and its pipes closed, only a full channel can hold the goroutines up, whatever
      the overflow policy, stopped or not: while done is not closed one of them can move, or else the
      channel is full and its consumer can. */
  lemma OnlyFullHolds(p: Proc)
    requires Inv(p) && !p.stdout.writeOpen && !p.stderr.writeOpen && !p.ctl.done
    ensures || (exists a :: Internal(a) && Enabled(p, a, false))
            || (Enabled(p, Receive, false) && Buffered(p) == p.cfg.bufferLines)
  {
    hide MergeInv, BytesInv;
    if p.ctl.starter == Returned && !(p.stdout.launched && !p.stdout.finished)
       && !(p.stderr.launched && !p.stderr.finished) {
      assert p.ctl.wg == 0;
    }
    var a := NextAction(p);
    assert Internal(a) && (Enabled(p, a, false) || a.Release?);
    if a.Release? { FullWhenHeld(p, a.id); }
  }

  lemma FullWhenHeld(p: Proc, id: StreamID)
    requires p.merge.lines.Some? && !SendReady(p.merge, p.cfg.bufferLines) && MergeInv(p) && p.cfg.Resolved()
    ensures Enabled(p, Receive, false) && Buffered(p) == p.cfg.bufferLines
  {
    hide FatesInv;
  }

  /** What is left to do, for the goroutines and the consumer together. */
  function WorkAndLines(p: Proc): nat { 2 * Work(p) + Buffered(p) }

  lemma StepShrinks(p: Proc, a: Action)
    requires Inv(p) && Enabled(p, a, false) && (Internal(a) || a.Receive?)
    ensures WorkAndLines(Apply(p, a, false)) < WorkAndLines(p)
  {
    Controlled(p);
    BufferedAfter(p, a);
    if Internal(a) {
      InternalWorks(p, a, false);
    } else {
      ReceiveWorks(p);
    }
    hide Inv, Apply, Enabled, Work, Buffered;
  }

  lemma BufferedAfter(p: Proc, a: Action)
    requires p.cfg.Resolved() && Enabled(p, a, false) && (Internal(a) || a.Receive?)
    requires p.ctl.starter == Registered ==> p.merge.lines.None?
    ensures Buffered(Apply(p, a, false)) <= Buffered(p) + 1
    ensures a.Receive? ==> Buffered(Apply(p, a, false)) == Buffered(p) - 1
  {
    hide S.Feed, S.Texts, S.AtEof, ApplyRead, ApplyEof, Emitted;
  }

  lemma ReceiveWorks(p: Proc)
    requires p.cfg.Resolved() && Enabled(p, Receive, false)
    ensures Work(Apply(p, Receive, false)) == Work(p)
  {
    hide DrainWork;
  }

  lemma OthersWait(p: Proc, a: Action, alive: bool)
    requires p.cfg.Resolved() && Enabled(p, a, alive) && !p.stdout.writeOpen && !p.stderr.writeOpen
    requires !Internal(a) && !a.Receive?
    ensures WorkAndLines(Apply(p, a, alive)) == WorkAndLines(p)
  {
    assert a == Cancel || a == SignalStop;
    hide DrainWork;
  }

  /** The steps of the goroutines and of the consumer. */
  function Moves(run: seq<Event>): nat {
    if run == [] then 0 else Bit(Internal(run[0].a) || run[0].a.Receive?) + Moves(run[1..])
  }

  /** Whoever cancels or stops in between, goroutines and consumer together take a bounded number of
      steps, and come to rest only with done closed and the channel empty. */
  lemma {:induction false} ReadingBounded(p: Proc, run: seq<Event>, q: Proc)
    requires Inv(p) && !p.stdout.writeOpen && !p.stderr.writeOpen && IsRun(p, run, q)
    ensures Inv(q) && !q.stdout.writeOpen && !q.stderr.writeOpen
    ensures Moves(run) + WorkAndLines(q) <= WorkAndLines(p)
    ensures !(q.ctl.done && Buffered(q) == 0) ==>
              exists a :: (Internal(a) || a == Receive) && Enabled(q, a, false)
    decreases |run|
  {
    hide Inv, Apply, Enabled, WorkAndLines;
    if run == [] {
      MoreToDo(q);
    } else {
      var a, alive := run[0].a, run[0].alive;
      InvKept(p, a, alive);
      Controlled(p);
      StepWrites(p, a, alive, Stdout);
      StepWrites(p, a, alive, Stderr);
      if Internal(a) || a.Receive? { MovesShrink(p, a, alive); } else { OthersWait(p, a, alive); }
      ReadingBounded(Apply(p, a, alive), run[1..], q);
    }
  }

  lemma MovesShrink(p: Proc, a: Action, alive: bool)
    requires Inv(p) && p.cfg.Resolved() && Enabled(p, a, alive) && (Internal(a) || a.Receive?)
    ensures WorkAndLines(Apply(p, a, alive)) < WorkAndLines(p)
  {
    hide Inv, WorkAndLines;
    AliveIsOnlyForWait(p, a, alive);
    StepShrinks(p, a);
  }

  lemma AliveIsOnlyForWait(p: Proc, a: Action, alive: bool)
    requires p.cfg.Resolved() && Enabled(p, a, alive)
    ensures (Internal(a) || a.Receive?) ==> Enabled(p, a, false) && Apply(p, a, false) == Apply(p, a, alive)
  {
  }

  lemma MoreToDo(q: Proc)
    requires Inv(q) && !q.stdout.writeOpen && !q.stderr.writeOpen
    ensures !(q.ctl.done && Buffered(q) == 0) ==>
              exists a :: (Internal(a) || a == Receive) && Enabled(q, a, false)
  {
    hide Inv;
    if !q.ctl.done {
      OnlyFullHolds(q);
    } else if Buffered(q) > 0 {
      assert Enabled(q, Receive, false);
    }
  }

  /** Such a run: it ends with done closed and everything received. */
  lemma {:induction false} ReadToTheEnd(p: Proc) returns (run: seq<Event>, q: Proc)
    requires Inv(p) && !p.stdout.writeOpen && !p.stderr.writeOpen
    ensures IsRun(p, run, q) && |run| <= WorkAndLines(p) && q.ctl.done && Buffered(q) == 0
    ensures forall e :: e in run ==> !e.alive && (Internal(e.a) || e.a == Receive)
    decreases WorkAndLines(p)
  {
    hide Inv, Apply, Enabled, WorkAndLines, Buffered;
    Controlled(p);
    if p.ctl.done && Buffered(p) == 0 {
      run, q := [], p;
    } else {
      MoreToDo(p);
      var a :| (Internal(a) || a == Receive) && Enabled(p, a, false);
      InvKept(p, a, false);
      StepWrites(p, a, false, Stdout);
      StepWrites(p, a, false, Stderr);
      StepShrinks(p, a);
      var rest;
      rest, q := ReadToTheEnd(Apply(p, a, false));
      run := [Event(a, false)] + rest;
      assert run[1..] == rest;
    }
  }

  /** What it is for, in terms of the events alone: under Block, when nobody cancelled or stopped, a
      consumer that received until done was closed and the channel empty was given, per stream and in
      order, exactly the splitter's pieces of exactly the bytes that were written. */
  lemma EverythingArrives(cfg: Config, run: seq<Event>, q: Proc, id: StreamID)
    requires cfg.Resolved() && cfg.streamLines && cfg.overflow == Block && IsRun(Init(cfg), run, q)
    requires Cancel !in Actions(run) && SignalStop !in Actions(run)
    requires q.ctl.done && Buffered(q) == 0
    ensures Concat(q.At(id).chunks) == WrittenIn(Actions(run), id)
    ensures OfStream(q.merge.received, id) == S.Texts(S.Drain(q.At(id).chunks, cfg.maxLineBytes))
  {
    hide Inv, IsRun, OfStream, Emissions, Subsequence, Actions, WrittenIn, Buffered;
    InitInv(cfg);
    InitEmpty(cfg, id);
    RunHistory(Init(cfg), run, q);
    assert Reachable(q);
    AllReceived(q, id);
    assert [] + WrittenIn(Actions(run), id) == WrittenIn(Actions(run), id);
  }

  lemma InitEmpty(cfg: Config, id: StreamID)
    ensures Init(cfg).cfg == cfg && Init(cfg).At(id).written == [] && !Init(cfg).ctl.ctxDone && !Init(cfg).ctl.stop
  {
  }

  lemma AllReceived(q: Proc, id: StreamID)
    requires Reachable(q) && q.cfg.Resolved() && q.cfg.streamLines && q.cfg.overflow == Block
    requires !q.ctl.ctxDone && !q.ctl.stop && q.ctl.done && Buffered(q) == 0
    ensures Concat(q.At(id).chunks) == q.At(id).written
    ensures OfStream(q.merge.received, id) == S.Texts(S.Drain(q.At(id).chunks, q.cfg.maxLineBytes))
  {
    hide Reachable, OfStream, Emissions, Subsequence;
    StreamEndToEnd(q, id);
    ClosingOrder(q);
    MergeAccounting(q);
    assert q.merge.received + [] == q.merge.received;
  }
}
