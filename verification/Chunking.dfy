/** When the cuts of the reader show in what drainLines emits (stream.go:240-274), for every stream
    and every bound on the length of a read. */
module Chunking {
  import opened Bytes
  import opened LineSplitter

  // ---- Flushing in two goes ----

  lemma {:induction false} FlushCompose(a: Bytes, b: Bytes, max: nat)
    requires max > 0
    ensures Flush(a + b, max) == Joined(Flush(a, max), Flush(Flush(a, max).acc + b, max))
    decreases |a|
  {
    if |a| < max {
      JoinedAssoc(Fed([], a), Flush(a + b, max), Fed([], []));
    } else {
      var head, tail := a[..max], a[max..];
      assert (a + b)[..max] == head && (a + b)[max..] == tail + b;
      FlushCompose(tail, b, max);
      JoinedAssoc(Fed([Fragment(head)], []), Flush(tail, max), Flush(Flush(tail, max).acc + b, max));
    }
  }

  lemma {:induction false} FlushSize(a: Bytes, max: nat)
    requires max > 0
    ensures |Flush(a, max).acc| == |a| % max && |Flush(a, max).pieces| == |a| / max
    decreases |a|
  {
    if |a| >= max {
      FlushSize(a[max..], max);
      OneMoreTime(|a| - max, max);
    }
  }

  lemma OneMoreTime(n: nat, m: nat)
    requires m > 0
    ensures (n + m) % m == n % m && (n + m) / m == n / m + 1
  {
    var q, r := n / m, n % m;
    assert n + m == (q + 1) * m + r;
    Divided(n + m, q + 1, r, m);
  }

  lemma Divided(n: nat, q: nat, r: nat, m: nat)
    requires m > 0 && n == q * m + r && r < m
    ensures n / m == q && n % m == r
  {
    var q', r' := n / m, n % m;
    assert (q - q') * m == r' - r;
    if q > q' { Grows(q - q', m); } else if q' > q { Grows(q' - q, m); }
  }

  lemma Grows(k: nat, m: nat)
    requires k >= 1
    ensures k * m >= m
  {
  }

  lemma FlushShape(a: Bytes, max: nat)
    requires max > 0 && NewlineFree(a)
    ensures NewlineFree(Flush(a, max).acc) && |Flush(a, max).acc| < max
    ensures |a| < max ==> Flush(a, max) == Fed([], a)
  {
    FlushLossless(a, max);
    AccountsAcc(Flush(a, max), a, max);
  }

  // ---- The uncut emissions ----

  /** What a reader that hands over one byte at a time has emitted: every run is cut into cap-sized
      fragments before its newline arrives. */
  function Canon(s: Bytes, max: nat): seq<Piece>
    requires max > 0
    decreases |s|
  {
    var i := IndexOf(s, NL);
    if i < |s| then
      var f := Flush(s[..i], max); f.pieces + ([Line(f.acc + [NL])] + Canon(s[i + 1..], max))
    else
      var f := Flush(s, max); f.pieces + AtEof(f.acc)
  }

  lemma CanonAt(run: Bytes, t: Bytes, max: nat)
    requires max > 0 && NewlineFree(run)
    ensures var f := Flush(run, max);
            Canon(run + [NL] + t, max) == f.pieces + ([Line(f.acc + [NL])] + Canon(t, max))
  {
    var s := run + [NL] + t;
    IndexOfIs(s, NL, |run|);
    assert s[..|run|] == run && s[|run| + 1..] == t;
  }

  lemma CanonEnd(run: Bytes, max: nat)
    requires max > 0 && NewlineFree(run)
    ensures Canon(run, max) == Flush(run, max).pieces + AtEof(Flush(run, max).acc)
  {
    IndexOfIs(run, NL, |run|);
  }

  /** A stream is newline-free, or has a first line. */
  lemma FirstLine(s: Bytes) returns (run: Bytes, t: Bytes)
    ensures NewlineFree(run) && run == s[..IndexOf(s, NL)]
    ensures if IndexOf(s, NL) < |s| then s == run + [NL] + t && t == s[IndexOf(s, NL) + 1..] else s == run
  {
    var i := IndexOf(s, NL);
    run := s[..i];
    t := if i < |s| then s[i + 1..] else [];
  }

  /** The fragments of a newline-free front can be taken off. */
  lemma CanonStep(run: Bytes, s: Bytes, max: nat)
    requires max > 0 && NewlineFree(run)
    ensures Canon(run + s, max) == Flush(run, max).pieces + Canon(Flush(run, max).acc + s, max)
  {
    hide Canon, Flush;
    var f := Flush(run, max);
    FlushShape(run, max);
    var x, t := FirstLine(s);
    FlushCompose(run, x, max);
    var g := Flush(f.acc + x, max);
    NewlineFreeSum(run, x);
    NewlineFreeSum(f.acc, x);
    if IndexOf(s, NL) < |s| {
      assert run + s == (run + x) + [NL] + t && f.acc + s == (f.acc + x) + [NL] + t;
      CanonAt(run + x, t, max);
      CanonAt(f.acc + x, t, max);
      PiecesAssoc(f.pieces, g.pieces, [Line(g.acc + [NL])] + Canon(t, max));
    } else {
      CanonEnd(run + x, max);
      CanonEnd(f.acc + x, max);
      PiecesAssoc(f.pieces, g.pieces, AtEof(g.acc));
    }
  }

  lemma NewlineFreeSum(a: Bytes, b: Bytes)
    requires NewlineFree(a) && NewlineFree(b)
    ensures NewlineFree(a + b)
  {
  }

  lemma PiecesAssoc(a: seq<Piece>, b: seq<Piece>, c: seq<Piece>)
    ensures a + b + c == a + (b + c)
  {
  }

  // ---- Streams whose runs cannot be cut visibly ----

  /** Every terminated run is below the cap, or so placed that a read of at most `bound` bytes cannot
      bring its newline together with enough of the run to leave a fragment out. */
  predicate RunsUncut(s: Bytes, max: nat, bound: nat)
    requires max > 0
    decreases |s|
  {
    var i := IndexOf(s, NL);
    i < |s| ==> (i < max || i % max + 2 > bound) && RunsUncut(s[i + 1..], max, bound)
  }

  /** The same without a bound: every terminated run is below the cap; the last run is arbitrary. */
  predicate TerminatedBelow(s: Bytes, max: nat)
    decreases |s|
  {
    var i := IndexOf(s, NL);
    i < |s| ==> i < max && TerminatedBelow(s[i + 1..], max)
  }

  lemma UncutAt(run: Bytes, t: Bytes, max: nat, bound: nat)
    requires max > 0 && NewlineFree(run)
    ensures RunsUncut(run + [NL] + t, max, bound) <==>
              (|run| < max || |run| % max + 2 > bound) && RunsUncut(t, max, bound)
    ensures RunsUncut(run, max, bound)
  {
    var s := run + [NL] + t;
    IndexOfIs(s, NL, |run|);
    assert s[|run| + 1..] == t;
    IndexOfIs(run, NL, |run|);
  }

  lemma UncutStep(run: Bytes, s: Bytes, max: nat, bound: nat)
    requires max > 0 && NewlineFree(run) && RunsUncut(run + s, max, bound)
    ensures RunsUncut(Flush(run, max).acc + s, max, bound)
  {
    hide RunsUncut, Flush;
    var acc := Flush(run, max).acc;
    FlushShape(run, max);
    var x, t := FirstLine(s);
    NewlineFreeSum(run, x);
    NewlineFreeSum(acc, x);
    if IndexOf(s, NL) < |s| {
      assert run + s == (run + x) + [NL] + t && acc + s == (acc + x) + [NL] + t;
      UncutAt(run + x, t, max, bound);
      UncutAt(acc + x, t, max, bound);
      FlushCompose(run, x, max);
      FlushSize(run, max);
      FlushSize(run + x, max);
      FlushSize(acc + x, max);
      AccShorter(run, max);
    } else {
      UncutAt(acc + x, [], max, bound);
    }
  }

  lemma AccShorter(run: Bytes, max: nat)
    requires max > 0
    ensures |Flush(run, max).acc| <= |run|
    ensures |Flush(run, max).acc| < |run| ==> |run| >= max
  {
    FlushSize(run, max);
    var q := |run| / max;
    assert |run| == q * max + |run| % max;
    if q >= 1 { Grows(q, max); } else { assert q * max == 0; }
  }

  // ---- Uncut streams: every reader emits the same ----

  function PiecesFrom(acc: Bytes, chunks: seq<Bytes>, max: nat): seq<Piece>
    requires max > 0
  {
    var f := FeedAll(acc, chunks, max); f.pieces + AtEof(f.acc)
  }

  /** A chunk too short to hold newline and overlong part finds the run below the cap. */
  lemma ShortChunk(have: nat, i: nat, max: nat, bound: nat)
    requires max > 0 && have < max && i + 1 <= bound
    requires have + i < max || (have + i) % max + 2 > bound
    ensures have + i < max
  {
    var n := have + i;
    var q, r := n / max, n % max;
    assert n == q * max + r;
    if n >= max {
      OneMoreTime(n - max, max);
      Grows(q, max);
    }
  }

  lemma {:induction false} FeedIsCanon(acc: Bytes, chunk: Bytes, rest: Bytes, max: nat, bound: nat)
    requires max > 0 && |acc| < max && NewlineFree(acc) && |chunk| <= bound
    requires RunsUncut(acc + chunk + rest, max, bound)
    ensures var f := Feed(acc, chunk, max);
            && Canon(acc + chunk + rest, max) == f.pieces + Canon(f.acc + rest, max)
            && RunsUncut(f.acc + rest, max, bound)
    decreases |chunk|
  {
    hide Canon, RunsUncut, Flush, Feed;
    var x, tail := FirstLine(chunk);
    NewlineFreeSum(acc, x);
    if chunk == [] {
      FeedTail(acc, chunk, max);
      assert acc + chunk + rest == acc + rest;
      assert [] + Canon(acc + rest, max) == Canon(acc + rest, max);
    } else if IndexOf(chunk, NL) < |chunk| {
      var run, t := acc + x, tail + rest;
      assert acc + chunk + rest == run + [NL] + t;
      UncutAt(run, t, max, bound);
      ShortChunk(|acc|, |x|, max, bound);
      CanonAt(run, t, max);
      FlushShape(run, max);
      FeedAtNewline(acc, chunk, max);
      assert acc + chunk[..|x| + 1] == run + [NL];
      assert t == [] + tail + rest;
      FeedIsCanon([], tail, rest, max, bound);
      var f := Feed([], tail, max);
      PiecesAssoc([Line(run + [NL])], f.pieces, Canon(f.acc + rest, max));
      assert [] + ([Line(run + [NL])] + Canon(t, max)) == [Line(run + [NL])] + Canon(t, max);
    } else {
      FeedTail(acc, chunk, max);
      CanonStep(acc + chunk, rest, max);
      UncutStep(acc + chunk, rest, max, bound);
    }
  }

  predicate ReadsFit(chunks: seq<Bytes>, bound: nat) { forall i :: 0 <= i < |chunks| ==> |chunks[i]| <= bound }

  lemma {:induction false} FeedAllIsCanon(acc: Bytes, chunks: seq<Bytes>, max: nat, bound: nat)
    requires max > 0 && |acc| < max && NewlineFree(acc) && ReadsFit(chunks, bound)
    requires RunsUncut(acc + Concat(chunks), max, bound)
    ensures PiecesFrom(acc, chunks, max) == Canon(acc + Concat(chunks), max)
    decreases |chunks|
  {
    hide Canon, RunsUncut, Feed, FeedAll, Flush;
    FeedAllIs(acc, chunks, max);
    if chunks == [] {
      assert acc + Concat(chunks) == acc;
      CanonEnd(acc, max);
      FlushShape(acc, max);
    } else {
      var rest := Concat(chunks[1..]);
      var f := Feed(acc, chunks[0], max);
      assert acc + Concat(chunks) == acc + chunks[0] + rest;
      FeedIsCanon(acc, chunks[0], rest, max, bound);
      FeedLossless(acc, chunks[0], max);
      AccountsAcc(f, acc + chunks[0], max);
      FeedAllIsCanon(f.acc, chunks[1..], max, bound);
      var g := FeedAll(f.acc, chunks[1..], max);
      PiecesAssoc(f.pieces, g.pieces, AtEof(g.acc));
    }
  }

  // ---- All other streams: two readers that differ ----

  lemma {:induction false} OneByteUncut(s: Bytes, max: nat)
    requires max > 0
    ensures RunsUncut(s, max, 1)
    decreases |s|
  {
    var i := IndexOf(s, NL);
    if i < |s| { OneByteUncut(s[i + 1..], max); }
  }

  lemma {:induction false} BytewiseFits(s: Bytes)
    ensures ReadsFit(Bytewise(s), 1)
  {
    if s != [] { BytewiseFits(s[1..]); }
  }

  /** The one-byte reader emits the uncut emissions of every stream. */
  lemma BytewiseIsCanon(acc: Bytes, s: Bytes, max: nat)
    requires max > 0 && |acc| < max && NewlineFree(acc)
    ensures PiecesFrom(acc, Bytewise(s), max) == Canon(acc + s, max)
  {
    hide Canon, RunsUncut, Bytewise;
    BytewiseFits(s);
    BytewiseConcat(s);
    OneByteUncut(acc + s, max);
    FeedAllIsCanon(acc, Bytewise(s), max, 1);
  }

  lemma PiecesAppend(acc: Bytes, a: seq<Bytes>, b: seq<Bytes>, max: nat)
    requires max > 0
    ensures var f := FeedAll(acc, a, max);
            PiecesFrom(acc, a + b, max) == f.pieces + PiecesFrom(f.acc, b, max)
  {
    hide FeedAll;
    FeedAllAppend(acc, a, b, max);
    var f := FeedAll(acc, a, max);
    var g := FeedAll(f.acc, b, max);
    PiecesAssoc(f.pieces, g.pieces, AtEof(g.acc));
  }

  /** A newline-free stream comes to one flush, however it is cut. */
  lemma {:induction false} NewlineFreeIsFlush(acc: Bytes, chunks: seq<Bytes>, max: nat)
    requires max > 0 && |acc| < max && NewlineFree(acc) && NewlineFree(Concat(chunks))
    ensures FeedAll(acc, chunks, max) == Flush(acc + Concat(chunks), max)
    decreases |chunks|
  {
    hide FeedAll, Feed, Flush;
    FeedAllIs(acc, chunks, max);
    if chunks == [] {
      assert acc + Concat(chunks) == acc;
      FlushShape(acc, max);
    } else {
      var c, rest := chunks[0], Concat(chunks[1..]);
      SplitFree(c, rest);
      NewlineFreeSum(acc, c);
      IndexOfIs(c, NL, |c|);
      FeedTail(acc, c, max);
      FlushShape(acc + c, max);
      assert c == [] ==> acc + c == acc;
      NewlineFreeIsFlush(Flush(acc + c, max).acc, chunks[1..], max);
      FlushCompose(acc + c, rest, max);
      assert acc + Concat(chunks) == acc + c + rest;
    }
  }

  lemma SplitFree(a: Bytes, b: Bytes)
    requires NewlineFree(a + b)
    ensures NewlineFree(a) && NewlineFree(b)
  {
    assert forall j :: 0 <= j < |a| ==> (a + b)[j] == a[j];
    assert forall j :: 0 <= j < |b| ==> (a + b)[|a| + j] == b[j];
  }

  /** A whole line read byte by byte leaves nothing behind. */
  lemma LineLeavesNothing(run: Bytes, max: nat)
    requires max > 0 && NewlineFree(run)
    ensures FeedAll([], Bytewise(run) + [[NL]], max).acc == []
  {
    hide FeedAll, Feed, Flush, Bytewise;
    BytewiseConcat(run);
    NewlineFreeIsFlush([], Bytewise(run), max);
    assert [] + run == run;
    FlushShape(run, max);
    FeedAllAppend([], Bytewise(run), [[NL]], max);
    var acc := Flush(run, max).acc;
    FeedByte(acc, NL, max);
    FeedAllIs(acc, [[NL]], max);
    assert [[NL]][1..] == [];
    FeedAllIs([], [], max);
  }

  lemma FitsSum(a: seq<Bytes>, b: seq<Bytes>, bound: nat)
    requires ReadsFit(a, bound) && ReadsFit(b, bound)
    ensures ReadsFit(a + b, bound)
  {
  }

  lemma FitsMore(a: seq<Bytes>, bound: nat, more: nat)
    requires ReadsFit(a, bound) && bound <= more
    ensures ReadsFit(a, more)
  {
  }

  /** The run of a first line cut where it shows: the last read brings the newline and one byte more
      of the run than the last fragment leaves over. */
  lemma CutHere(run: Bytes, t: Bytes, max: nat, bound: nat) returns (c: seq<Bytes>)
    requires max > 0 && NewlineFree(run) && |run| >= max && |run| % max + 2 <= bound
    ensures Concat(c) == run + [NL] + t && ReadsFit(c, bound)
    ensures |PiecesFrom([], c, max)| < |Canon(run + [NL] + t, max)|
  {
    hide Canon, FeedAll, Feed, Flush, Bytewise, Concat;
    var r := |run| % max;
    var x, y := run[..|run| - (r + 1)], run[|run| - (r + 1)..];
    var last := y + [NL];
    assert run == x + y;
    SplitFree(x, y);
    c := Bytewise(x) + ([last] + Bytewise(t));
    // the cuts make up the stream and are short enough
    BytewiseConcat(x);
    BytewiseConcat(t);
    ConcatAppend(Bytewise(x), [last] + Bytewise(t));
    ConcatCons(last, Bytewise(t));
    assert x + (last + t) == run + [NL] + t;
    BytewiseFits(x);
    BytewiseFits(t);
    FitsMore(Bytewise(x), 1, bound);
    FitsMore(Bytewise(t), 1, bound);
    FitsSum([last], Bytewise(t), bound);
    FitsSum(Bytewise(x), [last] + Bytewise(t), bound);
    // what is emitted
    var f := Flush(x, max);
    FlushShape(x, max);
    NewlineFreeIsFlush([], Bytewise(x), max);
    assert [] + x == x;
    PiecesAppend([], Bytewise(x), [last] + Bytewise(t), max);
    LineAtOnce(f.acc, y, t, max);
    // what the one-byte reader emits
    CanonStep(x, y + [NL] + t, max);
    assert x + (y + [NL] + t) == run + [NL] + t;
    NewlineFreeSum(f.acc, y);
    CanonAt(f.acc + y, t, max);
    assert f.acc + (y + [NL] + t) == f.acc + y + [NL] + t;
    FlushSize(x, max);
    FlushSize(f.acc + y, max);
    Overlong(|run|, max);
  }

  lemma ConcatCons(c: Bytes, more: seq<Bytes>)
    ensures Concat([c] + more) == c + Concat(more)
  {
    assert ([c] + more)[1..] == more;
  }

  lemma Overlong(n: nat, max: nat)
    requires max > 0 && n >= max
    ensures n % max + 1 <= n && ((n - (n % max + 1)) % max + n % max + 1) / max >= 1
  {
    var q, r := n / max, n % max;
    OneMoreTime(n - max, max);
    Grows(q, max);
    JustBelow(n, q, r, max);
    OneMoreTime(r, max);
  }

  lemma JustBelow(n: nat, q: nat, r: nat, m: nat)
    requires m > 0 && q >= 1 && n == q * m + r
    ensures n > r && (n - (r + 1)) % m == m - 1
  {
    Grows(q, m);
    assert (q - 1) * m == q * m - m;
    Divided(n - (r + 1), q - 1, m - 1, m);
  }

  /** One read brings the rest of a line whole, and the stream goes on byte by byte. */
  lemma LineAtOnce(acc: Bytes, y: Bytes, t: Bytes, max: nat)
    requires max > 0 && |acc| < max && NewlineFree(acc) && NewlineFree(y)
    ensures PiecesFrom(acc, [y + [NL]] + Bytewise(t), max) == [Line(acc + y + [NL])] + Canon(t, max)
  {
    hide Canon, FeedAll, Feed, Flush, Bytewise;
    var last := y + [NL];
    IndexOfIs(last, NL, |y|);
    FeedAtNewline(acc, last, max);
    assert last[|y| + 1..] == [] && acc + last[..|y| + 1] == acc + y + [NL];
    FeedTail([], [], max);
    assert [Line(acc + y + [NL])] + [] == [Line(acc + y + [NL])];
    FeedAllIs(acc, [last], max);
    assert [last][1..] == [];
    FeedAllIs([], [], max);
    PiecesAppend(acc, [last], Bytewise(t), max);
    BytewiseIsCanon([], t, max);
    assert [] + t == t;
  }

  /** Otherwise there are two readers within the bound whose emissions differ in number. */
  lemma {:induction false} CutsShow(s: Bytes, max: nat, bound: nat) returns (c: seq<Bytes>, d: seq<Bytes>)
    requires max > 0 && bound > 0 && !RunsUncut(s, max, bound)
    ensures Concat(c) == Concat(d) == s && ReadsFit(c, bound) && ReadsFit(d, bound)
    ensures |Drain(c, max)| != |Drain(d, max)|
    decreases |s|
  {
    hide Canon, FeedAll, Feed, Flush, Bytewise, Concat, ReadsFit;
    var run, t := FirstLine(s);
    UncutAt(run, t, max, bound);
    if |run| >= max && |run| % max + 2 <= bound {
      c := CutHere(run, t, max, bound);
      d := Bytewise(s);
      BytewiseConcat(s);
      BytewiseFits(s);
      FitsMore(d, 1, bound);
      BytewiseIsCanon([], s, max);
      assert [] + s == s;
    } else {
      var c', d' := CutsShow(t, max, bound);
      var front := Bytewise(run) + [[NL]];
      LineLeavesNothing(run, max);
      PiecesAppend([], front, c', max);
      PiecesAppend([], front, d', max);
      c, d := front + c', front + d';
      FrontOf(run, c', t, bound);
      FrontOf(run, d', t, bound);
    }
  }

  lemma FrontOf(run: Bytes, c: seq<Bytes>, t: Bytes, bound: nat)
    requires bound > 0 && ReadsFit(c, bound) && Concat(c) == t
    ensures var more := Bytewise(run) + [[NL]] + c; Concat(more) == run + [NL] + t && ReadsFit(more, bound)
  {
    hide Concat, Bytewise;
    BytewiseConcat(run);
    BytewiseFits(run);
    FitsMore(Bytewise(run), 1, bound);
    FitsSum(Bytewise(run), [[NL]], bound);
    FitsSum(Bytewise(run) + [[NL]], c, bound);
    ConcatSnoc(Bytewise(run), [NL]);
    ConcatAppend(Bytewise(run) + [[NL]], c);
  }

  // ---- When the cuts of the reader do not matter ----

  ghost predicate SameForAll(s: Bytes, max: nat, bound: nat)
    requires max > 0
  {
    forall c, d :: Concat(c) == s && Concat(d) == s && ReadsFit(c, bound) && ReadsFit(d, bound) ==>
      Texts(Drain(c, max)) == Texts(Drain(d, max))
  }

  /** All ways to cut a stream into reads of at most `bound` bytes emit the same, if and only if no
      terminated run has a length L >= max with L % max + 2 <= bound. */
  lemma CutsInvisibleIff(s: Bytes, max: nat, bound: nat)
    requires max > 0 && bound > 0
    ensures SameForAll(s, max, bound) <==> RunsUncut(s, max, bound)
  {
    hide Canon, FeedAll, RunsUncut, ReadsFit, Concat;
    if RunsUncut(s, max, bound) {
      forall c, d | Concat(c) == s && Concat(d) == s && ReadsFit(c, bound) && ReadsFit(d, bound)
        ensures Texts(Drain(c, max)) == Texts(Drain(d, max))
      {
        assert [] + s == s;
        FeedAllIsCanon([], c, max, bound);
        FeedAllIsCanon([], d, max, bound);
      }
    } else {
      var c, d := CutsShow(s, max, bound);
      assert |Texts(Drain(c, max))| != |Texts(Drain(d, max))|;
    }
  }

  /** For the reader drainLines has. */
  lemma ReaderInvisibleIff(s: Bytes, max: nat)
    requires max > 0
    ensures SameForAll(s, max, READ_BUF_SIZE) <==> RunsUncut(s, max, READ_BUF_SIZE)
  {
    hide SameForAll, RunsUncut;
    CutsInvisibleIff(s, max, READ_BUF_SIZE);
  }

  /** For a reader without any bound: if and only if every terminated run is below the cap. */
  lemma ChunkingInvisibleIff(s: Bytes, max: nat)
    requires max > 0
    ensures (forall c, d :: Concat(c) == s && Concat(d) == s ==> Texts(Drain(c, max)) == Texts(Drain(d, max)))
            <==> TerminatedBelow(s, max)
  {
    hide RunsUncut, TerminatedBelow, Drain, Concat;
    CutsInvisibleIff(s, max, |s| + 1);
    UnboundedUncut(s, max, |s| + 1);
    forall c | Concat(c) == s ensures ReadsFit(c, |s| + 1) { ChunksFit(c); }
  }

  lemma {:induction false} ChunksFit(chunks: seq<Bytes>)
    ensures ReadsFit(chunks, |Concat(chunks)| + 1)
  {
    if chunks != [] {
      ChunksFit(chunks[1..]);
      assert forall i :: 0 < i < |chunks| ==> chunks[i] == chunks[1..][i - 1];
    }
  }

  lemma {:induction false} UnboundedUncut(s: Bytes, max: nat, bound: nat)
    requires max > 0 && bound > |s|
    ensures RunsUncut(s, max, bound) <==> TerminatedBelow(s, max)
    decreases |s|
  {
    var i := IndexOf(s, NL);
    if i < |s| { UnboundedUncut(s[i + 1..], max, bound); }
  }

  /** So a last run without a newline may have any length: "aaa" under a cap of 2 is always "aa", "a". */
  lemma UnterminatedIsInvisible(run: Bytes, max: nat, bound: nat)
    requires max > 0 && bound > 0 && NewlineFree(run)
    ensures SameForAll(run, max, bound)
  {
    hide SameForAll, RunsUncut;
    UncutAt(run, [], max, bound);
    CutsInvisibleIff(run, max, bound);
  }

  // ---- What is left at the end of the stream ----

  /** Everything behind the last newline. */
  function LastRun(s: Bytes): (r: Bytes)
    ensures NewlineFree(r)
    decreases |s|
  {
    var i := IndexOf(s, NL);
    if i < |s| then LastRun(s[i + 1..]) else s
  }

  ghost predicate FollowsLastNewline(s: Bytes, r: Bytes) {
    |r| <= |s| && NewlineFree(r) && r == s[|s| - |r|..] && (|r| < |s| ==> s[|s| - |r| - 1] == NL)
  }

  lemma {:induction false} LastRunIs(s: Bytes)
    ensures FollowsLastNewline(s, LastRun(s))
    decreases |s|
  {
    hide LastRun, FollowsLastNewline;
    var run, t := FirstLine(s);
    LastRunAt(run, t);
    if IndexOf(s, NL) < |s| {
      LastRunIs(t);
      SameLastNewline(run + [NL], t, LastRun(t));
    } else {
      AllOfIt(run);
    }
  }

  lemma AllOfIt(run: Bytes)
    requires NewlineFree(run)
    ensures FollowsLastNewline(run, run)
  {
  }

  lemma SameLastNewline(front: Bytes, t: Bytes, r: Bytes)
    requires FollowsLastNewline(t, r) && front != [] && front[|front| - 1] == NL
    ensures FollowsLastNewline(front + t, r)
  {
    var s := front + t;
    assert s[|s| - |r|..] == t[|t| - |r|..];
    assert s[|s| - |r| - 1] == if |r| < |t| then t[|t| - |r| - 1] else NL;
  }

  lemma LastRunAt(run: Bytes, t: Bytes)
    requires NewlineFree(run)
    ensures LastRun(run + [NL] + t) == LastRun(t) && LastRun(run) == run
  {
    var s := run + [NL] + t;
    IndexOfIs(s, NL, |run|);
    assert s[|run| + 1..] == t;
    IndexOfIs(run, NL, |run|);
  }

  /** What the accumulator holds of a stream, whoever read it. */
  function Left(s: Bytes, max: nat): Bytes
    requires max > 0
  {
    Flush(LastRun(s), max).acc
  }

  lemma {:induction false} LastRunSum(a: Bytes, b: Bytes)
    ensures LastRun(a + b) == if NewlineFree(b) then LastRun(a) + b else LastRun(b)
    decreases |a|
  {
    hide LastRun;
    var run, t := FirstLine(a);
    if IndexOf(a, NL) < |a| {
      LastRunAt(run, t);
      LastRunAt(run, t + b);
      assert a + b == run + [NL] + (t + b);
      LastRunSum(t, b);
    } else {
      LastRunAt(run, []);
      var x, u := FirstLine(b);
      NewlineFreeSum(run, x);
      if IndexOf(b, NL) < |b| {
        assert a + b == (run + x) + [NL] + u;
        LastRunAt(run + x, u);
        LastRunAt(x, u);
        assert b[IndexOf(b, NL)] == NL;
      } else {
        LastRunAt(run + x, []);
      }
    }
  }

  lemma LeftSum(a: Bytes, b: Bytes, max: nat)
    requires max > 0
    ensures Left(Left(a, max) + b, max) == Left(a + b, max)
  {
    hide LastRun, Flush;
    var acc := Left(a, max);
    FlushShape(LastRun(a), max);
    LastRunSum(a, b);
    LastRunSum(acc, b);
    LastRunAt(acc, []);
    FlushCompose(LastRun(a), b, max);
  }

  lemma {:induction false} FeedLeaves(acc: Bytes, chunk: Bytes, max: nat)
    requires max > 0 && |acc| < max && NewlineFree(acc)
    ensures Feed(acc, chunk, max).acc == Left(acc + chunk, max)
    decreases |chunk|
  {
    hide LastRun, Flush, Feed;
    var x, t := FirstLine(chunk);
    NewlineFreeSum(acc, x);
    FlushShape(acc, max);
    if IndexOf(chunk, NL) < |chunk| {
      assert acc + chunk == (acc + x) + [NL] + t;
      LastRunAt(acc + x, t);
      FeedAtNewline(acc, chunk, max);
      FeedLeaves([], t, max);
      assert [] + t == t;
    } else {
      LastRunAt(acc + chunk, []);
      FeedTail(acc, chunk, max);
      assert chunk == [] ==> acc + chunk == acc;
    }
  }

  lemma {:induction false} FeedAllLeaves(acc: Bytes, chunks: seq<Bytes>, max: nat)
    requires max > 0 && |acc| < max && NewlineFree(acc)
    ensures FeedAll(acc, chunks, max).acc == Left(acc + Concat(chunks), max)
    decreases |chunks|
  {
    hide LastRun, Flush, Feed, FeedAll, Left;
    FeedAllIs(acc, chunks, max);
    if chunks == [] {
      assert acc + Concat(chunks) == acc + [];
      FeedLeaves(acc, [], max);
      FeedTail(acc, [], max);
    } else {
      var rest := Concat(chunks[1..]);
      var f := Feed(acc, chunks[0], max);
      FeedLeaves(acc, chunks[0], max);
      FeedLossless(acc, chunks[0], max);
      AccountsAcc(f, acc + chunks[0], max);
      FeedAllLeaves(f.acc, chunks[1..], max);
      LeftSum(acc + chunks[0], rest, max);
      assert acc + Concat(chunks) == acc + chunks[0] + rest;
    }
  }

  lemma {:induction false} FlushTail(a: Bytes, max: nat)
    requires max > 0
    ensures |a| % max <= |a| && Flush(a, max).acc == a[|a| - |a| % max..]
    decreases |a|
  {
    if |a| < max {
      Divided(|a|, 0, |a|, max);
    } else {
      FlushTail(a[max..], max);
      OneMoreTime(|a| - max, max);
    }
  }

  /** Whatever the cuts, the accumulator at the end of the stream holds the end of the last run, which is
      what follows the last newline: as many bytes as the cap-sized fragments leave over. */
  lemma AccumulatorHolds(chunks: seq<Bytes>, max: nat)
    requires max > 0
    ensures FollowsLastNewline(Concat(chunks), LastRun(Concat(chunks)))
    ensures var last := LastRun(Concat(chunks));
            |last| % max <= |last| && FeedAll([], chunks, max).acc == last[|last| - |last| % max..]
  {
    hide *;
    LastRunIs(Concat(chunks));
    EmptyFront(Concat(chunks));
    FeedAllLeaves([], chunks, max);
    LeftIs(Concat(chunks), max);
    FlushTail(LastRun(Concat(chunks)), max);
  }

  lemma EmptyFront(s: Bytes)
    ensures [] + s == s && NewlineFree([])
  {
  }

  lemma LeftIs(s: Bytes, max: nat)
    requires max > 0
    ensures Left(s, max) == Flush(LastRun(s), max).acc
  {
  }

  /** For every chunking all emissions follow the documented rule for line ends, if and only if the
      stream does not end in a carriage return, or its last run is a whole number of caps long. */
  lemma StreamDocumentedIff(chunks: seq<Bytes>, max: nat)
    requires max > 0
    ensures Texts(Drain(chunks, max)) == Bodies(Drain(chunks, max)) <==>
              !EndsInCr(Concat(chunks)) || |LastRun(Concat(chunks))| % max == 0
  {
    hide FeedAll, Flush, LastRun, Drain, Texts, Bodies, Concat;
    AccDocumentedIff(chunks, max);
    FeedAllLeaves([], chunks, max);
    assert [] + Concat(chunks) == Concat(chunks);
    FlushSize(LastRun(Concat(chunks)), max);
  }
}
