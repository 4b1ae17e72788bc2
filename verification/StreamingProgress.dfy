/** Teardown always completes: once a process is torn down, its own goroutines can always take a
    step, each such step brings them closer to done, and nobody outside can push them back. */
module StreamingProgress {
  import opened Bytes
  import opened Outcomes
  import opened Streaming
  import opened StreamingSafety
  import S = LineSplitter

  /** The child is gone, no process holds a write end of its pipes, and a send that would block is
      released by the stop channel or the start context. The consumer promises nothing. */
  ghost predicate TornDown(p: Proc) {
    && !p.stdout.writeOpen && !p.stderr.writeOpen
    && (p.ctl.stop || p.ctl.ctxDone || p.cfg.overflow == DropNewest || !p.cfg.streamLines)
  }

  function Bit(b: bool): nat { if b then 1 else 0 }

  /** Work left in a drain: unread bytes weigh more than accumulated ones, which weigh more than
      texts waiting to be emitted. */
  function DrainWork(d: Drain): nat {
    3 * |d.unread| + 2 * |d.acc| + |d.pending| + Bit(!d.eof) + Bit(!d.finished)
  }

  function StartWork(s: Starter): nat { 4 - Rank(s) }

  function ReapWork(r: Reaper): nat {
    match r
    case NotLaunched => 6 case AwaitDrains => 5 case AwaitExit => 4 case Waited(_) => 3
    case Wrote => 2 case ClosedLines => 1 case ReaperDone => 0
  }

  function Work(p: Proc): nat {
    DrainWork(p.stdout) + DrainWork(p.stderr) + StartWork(p.ctl.starter) + ReapWork(p.ctl.reaper)
  }

  // ---- No reachable state is stuck ----

  function DrainAction(p: Proc, id: StreamID): Action
    requires p.At(id).launched && !p.At(id).finished
  {
    var d := p.At(id);
    if d.pending != [] then
      if p.merge.lines.None? then Skip(id)
      else if SendReady(p.merge, p.cfg.bufferLines) then Send(id)
      else if p.cfg.overflow == DropNewest then Drop(id)
      else Release(id)
    else if d.eof then DrainDone(id)
    else if d.unread == [] then Eof(id)
    else Read(id, 1)
  }

  /** A step some goroutine of the package can take. */
  function NextAction(p: Proc): Action {
    if p.ctl.starter != Returned then StartStep
    else if p.stdout.launched && !p.stdout.finished then DrainAction(p, Stdout)
    else if p.stderr.launched && !p.stderr.finished then DrainAction(p, Stderr)
    else match p.ctl.reaper
      case AwaitExit => WaitDone(Neither)
      case Waited(_) => Publish
      case Wrote => CloseLines
      case ClosedLines => CloseDone
      case _ => DrainsDone
  }

  lemma NotStuck(p: Proc)
    requires Inv(p) && TornDown(p) && !p.ctl.done
    ensures Internal(NextAction(p)) && Enabled(p, NextAction(p), false)
  {
    hide MergeInv, BytesInv;
    if p.ctl.starter == Returned && !(p.stdout.launched && !p.stdout.finished)
       && !(p.stderr.launched && !p.stderr.finished) {
      assert p.ctl.wg == 0;
    }
  }

  // ---- Every internal step does work ----

  lemma {:induction false} FlushPieces(acc: Bytes, max: nat)
    requires max > 0
    ensures |S.Flush(acc, max).pieces| + |S.Flush(acc, max).acc| <= |acc|
    decreases |acc|
  {
    if |acc| >= max { FlushPieces(acc[max..], max); }
  }

  /** A read of n bytes emits no more pieces than the bytes it takes out of circulation. */
  lemma {:induction false} FeedPieces(acc: Bytes, chunk: Bytes, max: nat)
    requires max > 0
    ensures |S.Feed(acc, chunk, max).pieces| + |S.Feed(acc, chunk, max).acc| <= |acc| + |chunk|
    decreases |chunk|
  {
    var i := IndexOf(chunk, NL);
    if chunk != [] {
      if i < |chunk| { FeedPieces([], chunk[i + 1..], max); } else { FlushPieces(acc + chunk, max); }
    }
  }

  lemma ReadWork(cfg: Config, d: Drain, id: StreamID, n: nat)
    requires cfg.Resolved() && 0 < n <= |d.unread| && d.pending == []
    ensures DrainWork(ApplyRead(cfg, d, id, n)) < DrainWork(d)
  {
    if cfg.Splits(id) { FeedPieces(d.acc, d.unread[..n], cfg.maxLineBytes); }
  }

  lemma EofWork(d: Drain)
    requires Reading(d)
    ensures DrainWork(ApplyEof(d)) < DrainWork(d)
  {
  }

  lemma LaunchedWork(d: Drain)
    ensures DrainWork(d.(launched := true)) == DrainWork(d)
  {
  }

  lemma StartWorks(p: Proc)
    requires p.ctl.starter != Returned && p.ctl.reaper == NotLaunched
    ensures Work(ApplyStart(p)) < Work(p)
  {
    LaunchedWork(p.stdout);
    LaunchedWork(p.stderr);
    hide DrainWork;
    match p.ctl.starter { case Registered => case MadeLines => case LaunchedStdout => case _ => }
  }

  lemma DrainWorks(p: Proc, id: StreamID, d: Drain)
    requires DrainWork(d) < DrainWork(p.At(id))
    ensures forall m :: Work(p.With(id, d).(merge := m)) < Work(p)
  {
    hide DrainWork;
  }

  lemma EmitWork(d: Drain, fate: Fate)
    requires d.pending != []
    ensures DrainWork(Emitted(d, fate)) < DrainWork(d)
  {
  }

  lemma EmissionWorks(p: Proc, a: Action, alive: bool)
    requires p.cfg.Resolved() && Enabled(p, a, alive)
    requires a.Send? || a.Drop? || a.Release? || a.Skip?
    requires a.Send? ==> !p.merge.lines.value.closed
    ensures Work(Apply(p, a, alive)) < Work(p)
  {
    var f := if a.Send? then Sent else if a.Drop? then Dropped else if a.Release? then Released else NoChannel;
    EmitWork(p.At(a.id), f);
    DrainWorks(p, a.id, Emitted(p.At(a.id), f));
    assert Apply(p, a, alive) == p.With(a.id, Emitted(p.At(a.id), f)).(merge := Apply(p, a, alive).merge) by {
      hide Work;
    }
    hide *;
  }

  lemma DrainDoneWorks(p: Proc, id: StreamID)
    requires !p.At(id).finished && p.ctl.wg > 0
    ensures Work(ApplyDrainDone(p, id)) < Work(p)
  {
    var d := p.At(id).(finished := true);
    DrainWorks(p, id, d);
    assert p.With(id, d).(merge := p.merge) == p.With(id, d);
  }

  lemma ReaperWorks(p: Proc, a: Action, alive: bool)
    requires p.cfg.Resolved() && Enabled(p, a, alive)
    requires a.DrainsDone? || a.WaitDone? || a.Publish? || a.CloseLines? || a.CloseDone?
    ensures Work(Apply(p, a, alive)) < Work(p)
  {
  }

  lemma InternalWorks(p: Proc, a: Action, alive: bool)
    requires Inv(p) && Internal(a) && Enabled(p, a, alive)
    ensures Work(Apply(p, a, alive)) < Work(p)
  {
    match a {
      case StartStep => StartWorks(p);
      case Read(id, n) =>
        var d := ApplyRead(p.cfg, p.At(id), id, n);
        ReadWork(p.cfg, p.At(id), id, n);
        DrainWorks(p, id, d);
        assert p.With(id, d).(merge := p.merge) == p.With(id, d);
      case Eof(id) =>
        var d := ApplyEof(p.At(id));
        EofWork(p.At(id));
        DrainWorks(p, id, d);
        assert p.With(id, d).(merge := p.merge) == p.With(id, d);
      case Send(id) =>
        assert !p.merge.lines.value.closed by { SendKeepsControl(p, id); }
        hide Inv;
        EmissionWorks(p, a, alive);
      case Drop(id) => EmissionWorks(p, a, alive);
      case Release(id) => EmissionWorks(p, a, alive);
      case Skip(id) => EmissionWorks(p, a, alive);
      case DrainDone(id) =>
        assert Busy(p.At(id)) == 1;
        DrainDoneWorks(p, id);
      case _ => ReaperWorks(p, a, alive);
    }
  }

  lemma OutsideHarmless(p: Proc, a: Action, alive: bool)
    requires p.cfg.Resolved() && TornDown(p) && !Internal(a) && Enabled(p, a, alive)
    ensures Work(Apply(p, a, alive)) == Work(p)
  {
  }

  lemma StaysTornDown(p: Proc, a: Action, alive: bool)
    requires p.cfg.Resolved() && TornDown(p) && Enabled(p, a, alive)
    ensures TornDown(Apply(p, a, alive))
  {
  }

  // ---- Whole runs ----

  function InternalSteps(run: seq<Event>): nat {
    if run == [] then 0 else Bit(Internal(run[0].a)) + InternalSteps(run[1..])
  }

  /** However the outside interferes, a torn-down process takes at most Work(p) more steps of its
      own, and it cannot come to rest before done: no interleaving livelocks or deadlocks it. */
  lemma {:induction false} TeardownBounded(p: Proc, run: seq<Event>, q: Proc)
    requires Inv(p) && TornDown(p) && IsRun(p, run, q)
    ensures Inv(q) && TornDown(q)
    ensures InternalSteps(run) + Work(q) <= Work(p)
    ensures !q.ctl.done ==> exists a :: Internal(a) && Enabled(q, a, false)
    decreases |run|
  {
    if run == [] {
      if !q.ctl.done { NotStuck(q); }
    } else {
      var a, alive := run[0].a, run[0].alive;
      hide Inv, TornDown, Apply, Work;
      InvKept(p, a, alive);
      StaysTornDown(p, a, alive);
      if Internal(a) { InternalWorks(p, a, alive); } else { OutsideHarmless(p, a, alive); }
      TeardownBounded(Apply(p, a, alive), run[1..], q);
    }
  }

  /** And left to itself it does reach done, even with a full channel nobody reads. */
  lemma {:induction false} TeardownCompletes(p: Proc) returns (run: seq<Event>, q: Proc)
    requires Inv(p) && TornDown(p)
    ensures IsRun(p, run, q) && InternalSteps(run) == |run| <= Work(p)
    ensures q.ctl.done && Inv(q)
    ensures forall e :: e in run ==> !e.alive
    decreases Work(p)
  {
    if p.ctl.done {
      run, q := [], p;
    } else {
      var a := NextAction(p);
      assert p.cfg.Resolved();
      NotStuck(p);
      hide Inv, TornDown, Apply, Work, NextAction;
      InvKept(p, a, false);
      StaysTornDown(p, a, false);
      InternalWorks(p, a, false);
      var rest;
      rest, q := TeardownCompletes(Apply(p, a, false));
      run := [Event(a, false)] + rest;
      assert run[1..] == rest;
    }
  }
}
