/** One started process as a step machine (running.go, stream.go): the goroutine of Start that
    launches the drains, one drain per piped stream, the reaper, and everyone outside who may
    receive, cancel, close, write or exit at any moment. Each action is one atomic step. */
module Streaming {
  import opened Bytes
  import opened Outcomes
  import S = LineSplitter

  datatype StreamID = Stdout | Stderr

  datatype Line = Line(stream: StreamID, text: Bytes)

  datatype Overflow = Block | DropNewest

  /** startConfig after resolve. */
  datatype Config = Config(
    streamLines: bool,
    bufferLines: nat,
    overflow: Overflow,
    maxLineBytes: nat,
    onStdout: bool, onStderr: bool,
    stdoutTee: bool, stderrTee: bool)
  {
    predicate Resolved() { bufferLines > 0 && maxLineBytes > 0 }

    predicate OnLine(id: StreamID) { if id == Stdout then onStdout else onStderr }

    /** wantsStdout and wantsStderr. */
    predicate Piped(id: StreamID) {
      streamLines || OnLine(id) || (if id == Stdout then stdoutTee else stderrTee)
    }

    /** lineSink.wantsLines: otherwise the stream is copied through unsplit. */
    predicate Splits(id: StreamID) { streamLines || OnLine(id) }
  }

  const DEFAULT_BUFFER_LINES := 1024

  function Resolve(c: Config, bufferLines: int, maxLineBytes: int): (r: Config)
    ensures r.Resolved()
    ensures r.bufferLines == if bufferLines > 0 then bufferLines else 1024
    ensures r.maxLineBytes == if maxLineBytes > 0 then maxLineBytes else 1048576
    ensures r == c.(bufferLines := r.bufferLines, maxLineBytes := r.maxLineBytes)
  {
    c.(bufferLines := if bufferLines <= 0 then DEFAULT_BUFFER_LINES else bufferLines,
       maxLineBytes := S.EffectiveMax(maxLineBytes))
  }

  /** What became of one emitted text at the channel. */
  datatype Fate = Sent | Dropped | Released | NoChannel

  /** A drain goroutine, its pipe, and the history of both. */
  datatype Drain = Drain(
    launched: bool,
    written: Bytes,        // everything the child ever wrote
    unread: Bytes,         // in the pipe
    writeOpen: bool,       // some process still holds the write end
    chunks: seq<Bytes>,    // the reads so far
    acc: Bytes,
    pending: seq<Bytes>,   // texts of the last read still to be emitted
    eof: bool,
    finished: bool,        // drainWG.Done has run
    log: seq<(Bytes, Fate)>)

  const NEW_DRAIN := Drain(false, [], [], true, [], [], [], false, false, [])

  datatype Chan = Chan(buf: seq<Line>, closed: bool)

  /** How far Start has come since it registered the handle. */
  datatype Starter = Registered | MadeLines | LaunchedStdout | LaunchedStderr | Returned

  /** What cmd.Wait left behind: a process state, only an error, or neither. */
  datatype WaitResult = State(outcome: Outcome) | Error | Neither

  datatype Published = Ended(outcome: Outcome) | ReapFailed

  datatype Reaper = NotLaunched | AwaitDrains | AwaitExit | Waited(w: WaitResult) | Wrote | ClosedLines | ReaperDone

  /** The merged channel (nil until launchDrains makes it) and its history. */
  datatype Merge = Merge(
    lines: Option<Chan>,
    sent: seq<Line>,       // every line that ever entered the channel
    received: seq<Line>,   // every line a consumer took out
    dropped: nat)

  datatype Control = Control(
    starter: Starter,
    wg: nat,
    stop: bool,            // close(p.stop) has run
    stopOnce: bool,        // stopOnce.Do has run
    ctxDone: bool,
    reaper: Reaper,
    published: Option<Published>,
    done: bool,
    panicked: bool)

  datatype Proc = Proc(cfg: Config, stdout: Drain, stderr: Drain, merge: Merge, ctl: Control) {
    function At(id: StreamID): Drain { if id == Stdout then stdout else stderr }

    function With(id: StreamID, d: Drain): Proc {
      if id == Stdout then this.(stdout := d) else this.(stderr := d)
    }
  }

  function Init(cfg: Config): Proc {
    Proc(cfg, NEW_DRAIN, NEW_DRAIN, Merge(None, [], [], 0),
         Control(Registered, 0, false, false, false, NotLaunched, None, false, false))
  }

  // ---- Actions ----

  datatype Action =
    // Start, after registration
    | StartStep
    // a drain
    | Read(id: StreamID, n: nat)
    | Eof(id: StreamID)
    | Send(id: StreamID)
    | Drop(id: StreamID)
    | Release(id: StreamID)
    | Skip(id: StreamID)
    | DrainDone(id: StreamID)
    // the reaper
    | DrainsDone
    | WaitDone(w: WaitResult)
    | Publish
    | CloseLines
    | CloseDone
    // everyone else
    | Write(id: StreamID, data: Bytes)
    | CloseWrite(id: StreamID)
    | Receive
    | Cancel
    | SignalStop

  /** The package's own goroutines, as opposed to the child, the consumer and the callers. */
  predicate Internal(a: Action) {
    !(a.Write? || a.CloseWrite? || a.Receive? || a.Cancel? || a.SignalStop?)
  }

  predicate Emitting(d: Drain) { d.launched && d.pending != [] }

  predicate Reading(d: Drain) { d.launched && d.pending == [] && !d.eof }

  /** A send is ready when there is room, and also on a closed channel, where it panics. */
  predicate SendReady(m: Merge, bufferLines: nat) {
    m.lines.Some? && (|m.lines.value.buf| < bufferLines || m.lines.value.closed)
  }

  /** `alive` says whether the child still runs when the action is taken. */
  predicate Enabled(p: Proc, a: Action, alive: bool) {
    match a
    case StartStep => p.ctl.starter != Returned
    case Read(id, n) => Reading(p.At(id)) && 0 < n <= |p.At(id).unread| && n <= S.READ_BUF_SIZE
    case Eof(id) => Reading(p.At(id)) && p.At(id).unread == [] && !p.At(id).writeOpen
    case Send(id) => Emitting(p.At(id)) && SendReady(p.merge, p.cfg.bufferLines)
    case Drop(id) =>
      && Emitting(p.At(id)) && p.merge.lines.Some? && p.cfg.overflow == DropNewest
      && !SendReady(p.merge, p.cfg.bufferLines)
    case Release(id) =>
      && Emitting(p.At(id)) && p.merge.lines.Some? && p.cfg.overflow == Block
      && (p.ctl.ctxDone || p.ctl.stop)
    case Skip(id) => Emitting(p.At(id)) && p.merge.lines.None?
    case DrainDone(id) => Drained(p.At(id)) && !p.At(id).finished
    case DrainsDone => p.ctl.reaper == AwaitDrains && p.ctl.wg == 0
    case WaitDone(w) => p.ctl.reaper == AwaitExit && !alive
    case Publish => p.ctl.reaper.Waited?
    case CloseLines => p.ctl.reaper == Wrote
    case CloseDone => p.ctl.reaper == ClosedLines
    case Write(id, data) => p.At(id).writeOpen
    case CloseWrite(id) => p.At(id).writeOpen
    case Receive => p.merge.lines.Some? && p.merge.lines.value.buf != []
    case Cancel => true
    case SignalStop => true
  }

  /** drainOne has returned: end of stream seen and everything emitted. */
  predicate Drained(d: Drain) { d.launched && d.eof && d.pending == [] }

  function ApplyStart(p: Proc): Proc {
    match p.ctl.starter
    case Registered =>
      p.(merge := p.merge.(lines := if p.cfg.streamLines then Some(Chan([], false)) else None),
         ctl := p.ctl.(starter := MadeLines))
    case MadeLines => Launch(p, Stdout, LaunchedStdout)
    case LaunchedStdout => Launch(p, Stderr, LaunchedStderr)
    case LaunchedStderr => p.(ctl := p.ctl.(starter := Returned, reaper := AwaitDrains))
    case Returned => p
  }

  /** drainWG.Add(1) and the go statement, for a stream that has a pipe. */
  function Launch(p: Proc, id: StreamID, next: Starter): Proc {
    if p.cfg.Piped(id) then
      p.With(id, p.At(id).(launched := true)).(ctl := p.ctl.(starter := next, wg := p.ctl.wg + 1))
    else p.(ctl := p.ctl.(starter := next))
  }

  function ApplyRead(cfg: Config, d: Drain, id: StreamID, n: nat): Drain
    requires n <= |d.unread| && cfg.Resolved()
  {
    var chunk := d.unread[..n];
    var d' := d.(unread := d.unread[n..], chunks := d.chunks + [chunk]);
    if cfg.Splits(id) then
      var f := S.Feed(d.acc, chunk, cfg.maxLineBytes);
      d'.(acc := f.acc, pending := S.Texts(f.pieces))
    else d'
  }

  function ApplyEof(d: Drain): Drain { d.(eof := true, acc := [], pending := S.Texts(S.AtEof(d.acc))) }

  /** The head of `pending` leaves emit with the given fate. */
  function Emitted(d: Drain, fate: Fate): Drain
    requires d.pending != []
  {
    d.(pending := d.pending[1..], log := d.log + [(d.pending[0], fate)])
  }

  function Enqueued(m: Merge, l: Line): Merge
    requires m.lines.Some?
  {
    m.(lines := Some(m.lines.value.(buf := m.lines.value.buf + [l])), sent := m.sent + [l])
  }

  /** A send on a closed channel panics. */
  function ApplySend(p: Proc, id: StreamID): Proc
    requires p.merge.lines.Some? && p.At(id).pending != []
  {
    if p.merge.lines.value.closed then p.(ctl := p.ctl.(panicked := true))
    else p.With(id, Emitted(p.At(id), Sent)).(merge := Enqueued(p.merge, Line(id, p.At(id).pending[0])))
  }

  /** A WaitGroup that goes negative panics. */
  function ApplyDrainDone(p: Proc, id: StreamID): Proc {
    if p.ctl.wg == 0 then p.(ctl := p.ctl.(panicked := true))
    else p.With(id, p.At(id).(finished := true)).(ctl := p.ctl.(wg := p.ctl.wg - 1))
  }

  /** What reap writes into outcome or waitErr. */
  function Verdict(w: WaitResult): Published {
    match w
    case State(o) => Ended(o)
    case Error => ReapFailed
    case Neither => Ended(Exited(0))
  }

  /** close(p.lines): closing twice panics, and a nil channel is left alone. */
  function ApplyCloseLines(p: Proc): Proc {
    if p.merge.lines.None? then p.(ctl := p.ctl.(reaper := ClosedLines))
    else
      var c := p.merge.lines.value;
      p.(merge := p.merge.(lines := Some(c.(closed := true))),
         ctl := p.ctl.(reaper := ClosedLines, panicked := p.ctl.panicked || c.closed))
  }

  /** signalStop: closing p.stop twice would panic, and stopOnce is there to prevent it. */
  function ApplyStop(c: Control): Control {
    if c.stopOnce then c else c.(stopOnce := true, stop := true, panicked := c.panicked || c.stop)
  }

  function ApplyWrite(d: Drain, data: Bytes): Drain {
    d.(written := d.written + data, unread := d.unread + data)
  }

  function ApplyReceive(m: Merge): Merge
    requires m.lines.Some? && m.lines.value.buf != []
  {
    var c := m.lines.value;
    m.(lines := Some(c.(buf := c.buf[1..])), received := m.received + [c.buf[0]])
  }

  function Apply(p: Proc, a: Action, alive: bool): Proc
    requires p.cfg.Resolved() && Enabled(p, a, alive)
  {
    match a
    case StartStep => ApplyStart(p)
    case Read(id, n) => p.With(id, ApplyRead(p.cfg, p.At(id), id, n))
    case Eof(id) => p.With(id, ApplyEof(p.At(id)))
    case Send(id) => ApplySend(p, id)
    case Drop(id) =>
      p.With(id, Emitted(p.At(id), Dropped)).(merge := p.merge.(dropped := p.merge.dropped + 1))
    case Release(id) => p.With(id, Emitted(p.At(id), Released))
    case Skip(id) => p.With(id, Emitted(p.At(id), NoChannel))
    case DrainDone(id) => ApplyDrainDone(p, id)
    case DrainsDone => p.(ctl := p.ctl.(reaper := AwaitExit))
    case WaitDone(w) => p.(ctl := p.ctl.(reaper := Waited(w)))
    case Publish => p.(ctl := p.ctl.(reaper := Wrote, published := Some(Verdict(p.ctl.reaper.w))))
    case CloseLines => ApplyCloseLines(p)
    case CloseDone =>
      p.(ctl := p.ctl.(reaper := ReaperDone, done := true, panicked := p.ctl.panicked || p.ctl.done))
    case Write(id, data) => p.With(id, ApplyWrite(p.At(id), data))
    case CloseWrite(id) => p.With(id, p.At(id).(writeOpen := false))
    case Receive => p.(merge := ApplyReceive(p.merge))
    case Cancel => p.(ctl := p.ctl.(ctxDone := true))
    case SignalStop => p.(ctl := ApplyStop(p.ctl))
  }

  // ---- Runs ----

  /** An action, and whether the child was alive when it was taken. */
  datatype Event = Event(a: Action, alive: bool)

  ghost predicate IsRun(p: Proc, run: seq<Event>, q: Proc)
    decreases |run|
  {
    p.cfg.Resolved() &&
    if run == [] then q == p
    else Enabled(p, run[0].a, run[0].alive) && IsRun(Apply(p, run[0].a, run[0].alive), run[1..], q)
  }

  ghost predicate Reachable(q: Proc) {
    exists cfg: Config, run :: cfg.Resolved() && IsRun(Init(cfg), run, q)
  }
}
