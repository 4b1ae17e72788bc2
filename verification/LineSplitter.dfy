/** The incremental line splitter behind streamed output (drainLines in stream.go): a capped
    accumulator fed one read at a time, against the one-shot split of the whole stream. */
module LineSplitter {
  import opened Bytes

  const READ_BUF_SIZE := 32768
  const DEFAULT_MAX_LINE := 1048576

  /** One emission, with the raw bytes it stands for. */
  datatype Piece = Line(raw: Bytes) | Fragment(raw: Bytes) | Remainder(raw: Bytes)

  /** Only a fragment is emitted verbatim. */
  function Text(p: Piece): Bytes { if p.Fragment? then p.raw else TrimLineEnd(p.raw) }

  function Texts(ps: seq<Piece>): (ts: seq<Bytes>)
    ensures |ts| == |ps| && forall i :: 0 <= i < |ps| ==> ts[i] == Text(ps[i])
  {
    seq(|ps|, i requires 0 <= i < |ps| => Text(ps[i]))
  }

  function Raws(ps: seq<Piece>): (rs: seq<Bytes>)
    ensures |rs| == |ps| && forall i :: 0 <= i < |ps| ==> rs[i] == ps[i].raw
  {
    seq(|ps|, i requires 0 <= i < |ps| => ps[i].raw)
  }

  /** A "\n" and then a "\r" are dropped, each when present: a lone trailing "\r" goes too. */
  function TrimLineEnd(b: Bytes): Bytes {
    var c := if b != [] && b[|b| - 1] == NL then b[..|b| - 1] else b;
    if c != [] && c[|c| - 1] == CR then c[..|c| - 1] else c
  }

  // ---- One read ----

  datatype Fed = Fed(pieces: seq<Piece>, acc: Bytes)

  /** Cap-sized fragments leave a newline-free accumulator until it is below the cap. */
  function Flush(acc: Bytes, max: nat): Fed
    requires max > 0
    decreases |acc|
  {
    if |acc| < max then Fed([], acc)
    else var f := Flush(acc[max..], max); Fed([Fragment(acc[..max])] + f.pieces, f.acc)
  }

  /** The effect of one read on the accumulator. */
  function Feed(acc: Bytes, chunk: Bytes, max: nat): Fed
    requires max > 0
    decreases |chunk|
  {
    var i := IndexOf(chunk, NL);
    if chunk == [] then Fed([], acc)
    else if i < |chunk| then
      var f := Feed([], chunk[i + 1..], max); Fed([Line(acc + chunk[..i + 1])] + f.pieces, f.acc)
    else Flush(acc + chunk, max)
  }

  /** The effect of a sequence of reads. */
  function FeedAll(acc: Bytes, chunks: seq<Bytes>, max: nat): Fed
    requires max > 0
    decreases |chunks|
  {
    if chunks == [] then Fed([], acc)
    else
      var f := Feed(acc, chunks[0], max);
      var g := FeedAll(f.acc, chunks[1..], max);
      Fed(f.pieces + g.pieces, g.acc)
  }

  /** What end of stream adds. */
  function AtEof(acc: Bytes): seq<Piece> { if acc == [] then [] else [Remainder(acc)] }

  /** Everything a stream read as `chunks` is emitted as. */
  function Drain(chunks: seq<Bytes>, max: nat): seq<Piece>
    requires max > 0
  {
    var f := FeedAll([], chunks, max); f.pieces + AtEof(f.acc)
  }

  function EffectiveMax(max: int): nat { if max <= 0 then DEFAULT_MAX_LINE else max }

  /** drainLines. `chunks` are the successive results of src.Read, the last of which comes with the
      end of the stream; `peak` is the largest accumulator ever held. */
  method DrainLines(chunks: seq<Bytes>, maxLineBytes: int) returns (emitted: seq<Bytes>, ghost peak: nat)
    requires chunks != []
    requires forall i :: 0 <= i < |chunks| ==> |chunks[i]| <= READ_BUF_SIZE
    ensures var max := if maxLineBytes > 0 then maxLineBytes else 1048576;
            emitted == Texts(Drain(chunks, max)) && peak <= max - 1 + 32768
  {
    var max := EffectiveMax(maxLineBytes);
    var acc: Bytes := [];
    emitted := [];
    peak := 0;
    var n := 0;
    ghost var all := FeedAll([], chunks, max);
    ghost var done: seq<Piece> := [];
    assert chunks[0..] == chunks;
    while n < |chunks|
      invariant n <= |chunks|
      invariant |acc| < max
      invariant peak <= max - 1 + READ_BUF_SIZE
      invariant emitted == Texts(done)
      invariant Pending(all, done, FeedAll(acc, chunks[n..], max))
    {
      ghost var was, accWas := done, acc;
      var more;
      ghost var height;
      more, acc, height := TakeChunk(acc, chunks[n], max);
      emitted := emitted + more;
      done := done + Feed(accWas, chunks[n], max).pieces;
      RawsAppend(was, Feed(accWas, chunks[n], max).pieces);
      peak := if height > peak then height else peak;
      FeedAllStep(accWas, chunks[n..], max);
      assert chunks[n..][1..] == chunks[n + 1..];
      n := n + 1;
    }
    assert all == Fed(done, acc);
    if |acc| > 0 {
      emitted := emitted + [TrimLineEnd(acc)];
      assert Texts(done + [Remainder(acc)]) == emitted;
    }
  }

  ghost predicate Pending(all: Fed, done: seq<Piece>, rest: Fed) {
    all == Fed(done + rest.pieces, rest.acc)
  }

  lemma FeedAllStep(acc: Bytes, chunks: seq<Bytes>, max: nat)
    requires max > 0 && chunks != []
    ensures var f := Feed(acc, chunks[0], max);
            forall all, done :: Pending(all, done, FeedAll(acc, chunks, max)) ==>
              Pending(all, done + f.pieces, FeedAll(f.acc, chunks[1..], max))
  {
    var f := Feed(acc, chunks[0], max);
    var g := FeedAll(f.acc, chunks[1..], max);
    forall all, done | Pending(all, done, FeedAll(acc, chunks, max))
      ensures Pending(all, done + f.pieces, g)
    {
      assert done + (f.pieces + g.pieces) == done + f.pieces + g.pieces;
    }
  }

  /** The two inner loops: whole lines first, then cap-sized fragments of what is left. */
  method TakeChunk(acc0: Bytes, chunk0: Bytes, max: nat)
    returns (emitted: seq<Bytes>, acc: Bytes, ghost peak: nat)
    requires |acc0| < max && |chunk0| <= READ_BUF_SIZE
    ensures emitted == Texts(Feed(acc0, chunk0, max).pieces)
    ensures acc == Feed(acc0, chunk0, max).acc && |acc| < max
    ensures peak <= max - 1 + READ_BUF_SIZE
  {
    hide Feed, Texts, Flush;
    var chunk;
    ghost var done;
    emitted, acc, chunk, done, peak := TakeLines(acc0, chunk0, max);
    FeedTail(acc, chunk, max);
    RawsAppend(done, Feed(acc, chunk, max).pieces);
    if chunk != [] {
      acc := acc + chunk;
      peak := if |acc| > peak then |acc| else peak;
      var more;
      more, acc := FlushAcc(acc, max);
      emitted := emitted + more;
    } else {
      NoTexts();
    }
  }

  /** Lines, as long as there is a newline in the chunk. */
  method TakeLines(acc0: Bytes, chunk0: Bytes, max: nat)
    returns (emitted: seq<Bytes>, acc: Bytes, chunk: Bytes, ghost done: seq<Piece>, ghost peak: nat)
    requires |acc0| < max && |chunk0| <= READ_BUF_SIZE
    ensures Pending(Feed(acc0, chunk0, max), done, Feed(acc, chunk, max)) && emitted == Texts(done)
    ensures |acc| < max && |chunk| <= READ_BUF_SIZE && IndexOf(chunk, NL) == |chunk|
    ensures peak <= max - 1 + READ_BUF_SIZE
  {
    hide Feed, Pending, Texts;
    emitted, acc, chunk, done, peak := [], acc0, chunk0, [], 0;
    NoTexts();
    NothingDone(Feed(acc, chunk, max));
    var i := IndexOf(chunk, NL);
    while i < |chunk|
      invariant i == IndexOf(chunk, NL)
      invariant |acc| < max && |chunk| <= READ_BUF_SIZE
      invariant peak <= max - 1 + READ_BUF_SIZE
      invariant emitted == Texts(done)
      invariant Pending(Feed(acc0, chunk0, max), done, Feed(acc, chunk, max))
      decreases |chunk|
    {
      LineDone(Feed(acc0, chunk0, max), done, acc, chunk, max);
      acc := acc + chunk[..i + 1];
      peak := if |acc| > peak then |acc| else peak;
      emitted := emitted + [TrimLineEnd(acc)];
      done := done + [Line(acc)];
      acc := [];
      chunk := chunk[i + 1..];
      i := IndexOf(chunk, NL);
    }
  }

  lemma NoTexts()
    ensures Texts([]) == []
  {
  }

  lemma NothingDone(f: Fed)
    ensures Pending(f, [], f)
  {
    assert [] + f.pieces == f.pieces;
  }

  lemma LineDone(all: Fed, done: seq<Piece>, acc: Bytes, chunk: Bytes, max: nat)
    requires max > 0 && IndexOf(chunk, NL) < |chunk| && Pending(all, done, Feed(acc, chunk, max))
    ensures var i := IndexOf(chunk, NL);
            var p := Line(acc + chunk[..i + 1]);
            && Pending(all, done + [p], Feed([], chunk[i + 1..], max))
            && Texts(done + [p]) == Texts(done) + [TrimLineEnd(p.raw)]
  {
    FeedAtNewline(acc, chunk, max);
    hide Feed;
    var p := Line(acc + chunk[..IndexOf(chunk, NL) + 1]);
    var f := Feed([], chunk[IndexOf(chunk, NL) + 1..], max);
    assert done + ([p] + f.pieces) == done + [p] + f.pieces;
  }

  lemma FeedTail(acc: Bytes, chunk: Bytes, max: nat)
    requires max > 0 && IndexOf(chunk, NL) == |chunk|
    ensures Feed(acc, chunk, max) == if chunk == [] then Fed([], acc) else Flush(acc + chunk, max)
  {
  }

  /** The cap: fragments leave the accumulator until it is below it. */
  method FlushAcc(acc0: Bytes, max: nat) returns (emitted: seq<Bytes>, acc: Bytes)
    requires max > 0
    ensures emitted == Texts(Flush(acc0, max).pieces) && acc == Flush(acc0, max).acc && |acc| < max
  {
    emitted, acc := [], acc0;
    ghost var all := Flush(acc0, max);
    ghost var done: seq<Piece> := [];
    while |acc| >= max
      invariant emitted == Texts(done)
      invariant Pending(all, done, Flush(acc, max))
      decreases |acc|
    {
      emitted := emitted + [acc[..max]];
      done := done + [Fragment(acc[..max])];
      acc := acc[max..];
    }
    assert all == Fed(done, acc);
  }

  // ---- Nothing is lost ----

  ghost predicate NewlineFree(b: Bytes) { forall j :: 0 <= j < |b| ==> b[j] != NL }

  ghost predicate EndsInOnlyNewline(b: Bytes) {
    b != [] && b[|b| - 1] == NL && forall j :: 0 <= j < |b| - 1 ==> b[j] != NL
  }

  /** The shape of a piece that may stand anywhere in the stream. */
  ghost predicate InnerPiece(p: Piece, max: nat) {
    || (p.Line? && EndsInOnlyNewline(p.raw))
    || (p.Fragment? && |p.raw| == max && NewlineFree(p.raw))
  }

  ghost predicate LastPiece(p: Piece, max: nat) {
    p.Remainder? && 0 < |p.raw| < max && NewlineFree(p.raw)
  }

  /** What one step owes: the raw pieces and the accumulator left are the bytes put in. */
  ghost predicate Accounts(f: Fed, bytes: Bytes, max: nat) {
    && Concat(Raws(f.pieces)) + f.acc == bytes
    && |f.acc| < max && NewlineFree(f.acc)
    && forall i :: 0 <= i < |f.pieces| ==> InnerPiece(f.pieces[i], max)
  }

  lemma AccountsCons(p: Piece, f: Fed, bytes: Bytes, max: nat)
    requires Accounts(f, bytes, max) && InnerPiece(p, max)
    ensures Accounts(Fed([p] + f.pieces, f.acc), p.raw + bytes, max)
  {
    assert Raws([p] + f.pieces) == [p.raw] + Raws(f.pieces);
    assert p.raw + (Concat(Raws(f.pieces)) + f.acc) == p.raw + Concat(Raws(f.pieces)) + f.acc;
  }

  lemma AccountsAppend(f: Fed, g: Fed, a: Bytes, b: Bytes, max: nat)
    requires Accounts(f, a, max) && Accounts(g, f.acc + b, max)
    ensures Accounts(Fed(f.pieces + g.pieces, g.acc), a + b, max)
  {
    hide Concat, Raws, InnerPiece;
    RawsAppend(f.pieces, g.pieces);
    ConcatAppend(Raws(f.pieces), Raws(g.pieces));
    Regroup(Concat(Raws(f.pieces)), Concat(Raws(g.pieces)), f.acc, g.acc, a, b);
  }

  lemma Regroup(x: Bytes, y: Bytes, u: Bytes, v: Bytes, a: Bytes, b: Bytes)
    requires x + u == a && y + v == u + b
    ensures x + y + v == a + b
  {
    calc {
      x + y + v;
      x + (y + v);
      x + (u + b);
      x + u + b;
      a + b;
    }
  }

  lemma AccountsAcc(f: Fed, bytes: Bytes, max: nat)
    requires Accounts(f, bytes, max)
    ensures |f.acc| < max && NewlineFree(f.acc)
  {
  }

  lemma AccountsNil(acc: Bytes, max: nat)
    requires |acc| < max && NewlineFree(acc)
    ensures Accounts(Fed([], acc), acc, max)
  {
    assert Concat(Raws([])) == [];
    assert [] + acc == acc;
  }

  lemma {:induction false} FlushLossless(acc: Bytes, max: nat)
    requires max > 0 && NewlineFree(acc)
    ensures Accounts(Flush(acc, max), acc, max)
    decreases |acc|
  {
    if |acc| >= max {
      var head, tail := acc[..max], acc[max..];
      assert acc == head + tail;
      FlushLossless(tail, max);
      AccountsCons(Fragment(head), Flush(tail, max), tail, max);
    } else {
      AccountsNil(acc, max);
    }
  }

  /** The step at a newline, and the step at the end of a read. */
  lemma FeedAtNewline(acc: Bytes, chunk: Bytes, max: nat)
    requires max > 0 && IndexOf(chunk, NL) < |chunk|
    ensures var i := IndexOf(chunk, NL);
            var f := Feed([], chunk[i + 1..], max);
            Feed(acc, chunk, max) == Fed([Line(acc + chunk[..i + 1])] + f.pieces, f.acc)
  {
  }

  lemma LineShape(acc: Bytes, chunk: Bytes, i: nat)
    requires NewlineFree(acc) && i < |chunk| && i == IndexOf(chunk, NL)
    ensures EndsInOnlyNewline(acc + chunk[..i + 1])
    ensures acc + chunk == acc + chunk[..i + 1] + chunk[i + 1..]
  {
  }

  lemma {:induction false} FeedLossless(acc: Bytes, chunk: Bytes, max: nat)
    requires max > 0 && |acc| < max && NewlineFree(acc)
    ensures Accounts(Feed(acc, chunk, max), acc + chunk, max)
    decreases |chunk|
  {
    hide Accounts, Feed;
    if IndexOf(chunk, NL) < |chunk| {
      var i := IndexOf(chunk, NL);
      var line, rest := acc + chunk[..i + 1], chunk[i + 1..];
      LineShape(acc, chunk, i);
      FeedAtNewline(acc, chunk, max);
      FeedLossless([], rest, max);
      assert [] + rest == rest;
      AccountsCons(Line(line), Feed([], rest, max), rest, max);
    } else {
      FeedLosslessLast(acc, chunk, max);
    }
  }

  lemma FeedLosslessLast(acc: Bytes, chunk: Bytes, max: nat)
    requires max > 0 && |acc| < max && NewlineFree(acc)
    requires IndexOf(chunk, NL) == |chunk|
    ensures Accounts(Feed(acc, chunk, max), acc + chunk, max)
  {
    if chunk == [] {
      assert acc == acc + chunk;
      AccountsNil(acc, max);
    } else {
      assert NewlineFree(chunk);
      FlushLossless(acc + chunk, max);
    }
  }

  lemma RawsAppend(a: seq<Piece>, b: seq<Piece>)
    ensures Raws(a + b) == Raws(a) + Raws(b)
    ensures Texts(a + b) == Texts(a) + Texts(b)
  {
  }

  lemma {:induction false} FeedAllLossless(acc: Bytes, chunks: seq<Bytes>, max: nat)
    requires max > 0 && |acc| < max && NewlineFree(acc)
    ensures Accounts(FeedAll(acc, chunks, max), acc + Concat(chunks), max)
    decreases |chunks|
  {
    hide Accounts, Feed;
    if chunks == [] {
      assert acc == acc + Concat(chunks);
      AccountsNil(acc, max);
    } else {
      var first, rest := chunks[0], Concat(chunks[1..]);
      var f := Feed(acc, first, max);
      FeedLossless(acc, first, max);
      AccountsAcc(f, acc + first, max);
      FeedAllLossless(f.acc, chunks[1..], max);
      var g := FeedAll(f.acc, chunks[1..], max);
      assert acc + first + rest == acc + Concat(chunks);
      AccountsAppend(f, g, acc + first, rest, max);
    }
  }

  /** For every stream and every way it is cut into reads, the emissions stand one to one for raw
      pieces whose concatenation is the stream: lines with exactly one newline at their end,
      newline-free fragments of exactly the cap, and possibly one last newline-free remainder
      below the cap. */
  lemma DrainLossless(chunks: seq<Bytes>, max: nat)
    requires max > 0
    ensures var ps := Drain(chunks, max);
            && Concat(Raws(ps)) == Concat(chunks)
            && (forall i :: 0 <= i < |ps| ==>
                 InnerPiece(ps[i], max) || (i == |ps| - 1 && LastPiece(ps[i], max)))
  {
    FeedAllLossless([], chunks, max);
    assert [] + Concat(chunks) == Concat(chunks);
    var f := FeedAll([], chunks, max);
    if f.acc == [] {
      assert f.pieces + AtEof(f.acc) == f.pieces;
    } else {
      assert Raws(f.pieces + AtEof(f.acc)) == Raws(f.pieces) + [f.acc];
      ConcatSnoc(Raws(f.pieces), f.acc);
    }
  }

  /** One stretch of the stream after another. */
  function Joined(f: Fed, g: Fed): Fed { Fed(f.pieces + g.pieces, g.acc) }

  lemma JoinedAssoc(f: Fed, g: Fed, h: Fed)
    ensures Joined(Joined(f, g), h) == Joined(f, Joined(g, h))
    ensures Joined(Fed([], f.acc), g) == g
  {
    assert f.pieces + g.pieces + h.pieces == f.pieces + (g.pieces + h.pieces);
    assert [] + g.pieces == g.pieces;
  }

  lemma FeedAllIs(acc: Bytes, chunks: seq<Bytes>, max: nat)
    requires max > 0
    ensures FeedAll(acc, chunks, max) ==
              if chunks == [] then Fed([], acc)
              else var f := Feed(acc, chunks[0], max); Joined(f, FeedAll(f.acc, chunks[1..], max))
  {
  }

  lemma TailOfSum(a: seq<Bytes>, b: seq<Bytes>)
    ensures if a == [] then a + b == b else (a + b)[0] == a[0] && (a + b)[1..] == a[1..] + b
  {
  }

  lemma {:induction false} FeedAllAppend(acc: Bytes, a: seq<Bytes>, b: seq<Bytes>, max: nat)
    requires max > 0
    ensures FeedAll(acc, a + b, max) == Joined(FeedAll(acc, a, max), FeedAll(FeedAll(acc, a, max).acc, b, max))
    decreases |a|
  {
    hide FeedAll, Feed;
    TailOfSum(a, b);
    FeedAllIs(acc, a, max);
    if a == [] {
      JoinedAssoc(Fed([], acc), FeedAll(acc, b, max), Fed([], []));
    } else {
      FeedAllIs(acc, a + b, max);
      var h := Feed(acc, a[0], max);
      FeedAllAppend(h.acc, a[1..], b, max);
      var f := FeedAll(h.acc, a[1..], max);
      JoinedAssoc(h, f, FeedAll(f.acc, b, max));
    }
  }

  /** One more read. */
  lemma FeedAllSnoc(chunks: seq<Bytes>, chunk: Bytes, max: nat)
    requires max > 0
    ensures var f := FeedAll([], chunks, max);
            FeedAll([], chunks + [chunk], max) == Joined(f, Feed(f.acc, chunk, max))
  {
    hide FeedAll, Feed;
    var f := FeedAll([], chunks, max);
    var g := Feed(f.acc, chunk, max);
    FeedAllAppend([], chunks, [chunk], max);
    FeedAllIs(f.acc, [chunk], max);
    assert [chunk][1..] == [];
    FeedAllIs(g.acc, [], max);
    assert g.pieces + [] == g.pieces;
  }

  // ---- Agreement with the one-shot split ----

  /** The reference: split the whole stream at "\n" and trim every piece. */
  function SplitLines(s: Bytes): seq<Bytes>
    decreases |s|
  {
    var i := IndexOf(s, NL);
    if s == [] then []
    else if i == |s| then [TrimLineEnd(s)]
    else [TrimLineEnd(s[..i + 1])] + SplitLines(s[i + 1..])
  }

  /** Every run between newlines is shorter than the cap. */
  predicate RunsBelow(s: Bytes, max: nat)
    decreases |s|
  {
    var i := IndexOf(s, NL);
    i < max && (i < |s| ==> RunsBelow(s[i + 1..], max))
  }

  /** The weakest such condition: an unterminated last run may also just reach the cap, provided it
      does not end in a carriage return. */
  predicate RunsFit(s: Bytes, max: nat)
    decreases |s|
  {
    var i := IndexOf(s, NL);
    if i < |s| then i < max && RunsFit(s[i + 1..], max)
    else i < max || (0 < i == max && s[i - 1] != CR)
  }

  lemma {:induction false} BelowFits(s: Bytes, max: nat)
    requires RunsBelow(s, max)
    ensures RunsFit(s, max)
    decreases |s|
  {
    var i := IndexOf(s, NL);
    if i < |s| { BelowFits(s[i + 1..], max); }
  }

  /** The reference split takes the same first step. */
  lemma SplitLinesAt(s: Bytes, i: nat)
    requires i < |s| && s[i] == NL && NewlineFree(s[..i])
    ensures SplitLines(s) == [TrimLineEnd(s[..i + 1])] + SplitLines(s[i + 1..])
    ensures forall max: nat :: RunsFit(s, max) <==> i < max && RunsFit(s[i + 1..], max)
  {
    forall j | 0 <= j < i ensures s[j] != NL { assert s[..i][j] == s[j]; }
    IndexOfIs(s, NL, i);
  }

  /** What the rest of the stream still has to be split into. */
  ghost predicate Follows(f: Fed, bytes: Bytes, rest: Bytes, max: nat) {
    && NewlineFree(f.acc)
    && RunsFit(f.acc + rest, max)
    && SplitLines(bytes + rest) == Texts(f.pieces) + SplitLines(f.acc + rest)
  }

  lemma {:induction false} FeedFits(acc: Bytes, chunk: Bytes, rest: Bytes, max: nat)
    requires max > 0 && NewlineFree(acc) && RunsFit(acc + chunk + rest, max)
    ensures Follows(Feed(acc, chunk, max), acc + chunk, rest, max)
    decreases |chunk|
  {
    var i := IndexOf(chunk, NL);
    if chunk == [] {
      assert acc + chunk == acc;
      assert Texts([]) + SplitLines(acc + rest) == SplitLines(acc + rest);
    } else if i < |chunk| {
      hide *;
      FeedsLine(acc, chunk, i, rest, max);
      FeedAtNewline(acc, chunk, max);
      FeedFits([], chunk[i + 1..], rest, max);
      assert [] + chunk[i + 1..] == chunk[i + 1..];
      FollowsCons(acc + chunk[..i + 1], Feed([], chunk[i + 1..], max), acc + chunk, chunk[i + 1..], rest, max);
    } else {
      FeedsRun(acc, chunk, rest, max);
    }
  }

  lemma FeedsLine(acc: Bytes, chunk: Bytes, i: nat, rest: Bytes, max: nat)
    requires max > 0 && NewlineFree(acc) && RunsFit(acc + chunk + rest, max)
    requires i == IndexOf(chunk, NL) < |chunk|
    ensures NewlineFree([]) && RunsFit([] + chunk[i + 1..] + rest, max)
    ensures SplitLines(acc + chunk + rest) == [TrimLineEnd(acc + chunk[..i + 1])] + SplitLines(chunk[i + 1..] + rest)
  {
    hide RunsFit, SplitLines, TrimLineEnd;
    var line, tail := acc + chunk[..i + 1], chunk[i + 1..];
    var whole := acc + chunk + rest;
    assert whole == line + (tail + rest);
    assert whole[..|line| - 1] == acc + chunk[..i];
    SplitLinesAt(whole, |line| - 1);
    assert whole[..|line|] == line && whole[|line|..] == tail + rest == [] + tail + rest;
  }

  lemma FeedsRun(acc: Bytes, chunk: Bytes, rest: Bytes, max: nat)
    requires max > 0 && NewlineFree(acc) && RunsFit(acc + chunk + rest, max)
    requires chunk != [] && IndexOf(chunk, NL) == |chunk|
    ensures Follows(Feed(acc, chunk, max), acc + chunk, rest, max)
  {
    var run := acc + chunk;
    if |run| < max {
      assert Texts([]) + SplitLines(run + rest) == SplitLines(run + rest);
    } else {
      FlushWholeRun(run, rest, max);
    }
  }

  /** A last run that just reaches the cap leaves as one fragment, which is its own trimming. */
  lemma FlushWholeRun(run: Bytes, rest: Bytes, max: nat)
    requires max > 0 && NewlineFree(run) && RunsFit(run + rest, max)
    requires max <= |run| <= IndexOf(run + rest, NL)
    ensures rest == [] && Follows(Flush(run, max), run, rest, max)
  {
    assert rest == [] && run + rest == run && |run| == max;
    assert run[max..] == [] && run[..max] == run;
    assert Flush(run, max) == Fed([Fragment(run)], []);
    IndexOfIs(run, NL, max);
    assert SplitLines(run) == [run];
  }

  lemma FollowsCons(line: Bytes, f: Fed, bytes: Bytes, tail: Bytes, rest: Bytes, max: nat)
    requires Follows(f, tail, rest, max)
    requires SplitLines(bytes + rest) == [TrimLineEnd(line)] + SplitLines(tail + rest)
    ensures Follows(Fed([Line(line)] + f.pieces, f.acc), bytes, rest, max)
  {
    hide SplitLines, TrimLineEnd, RunsFit, Texts;
    OneMoreLine(line, f.pieces);
    LinesAssoc(TrimLineEnd(line), Texts(f.pieces), SplitLines(f.acc + rest));
  }

  lemma OneMoreLine(line: Bytes, ps: seq<Piece>)
    ensures Texts([Line(line)] + ps) == [TrimLineEnd(line)] + Texts(ps)
  {
    hide TrimLineEnd;
  }

  lemma LinesAssoc(line: Bytes, a: seq<Bytes>, b: seq<Bytes>)
    ensures [line] + (a + b) == [line] + a + b
  {
  }

  function Emitted(acc: Bytes, chunks: seq<Bytes>, max: nat): seq<Bytes>
    requires max > 0
  {
    var f := FeedAll(acc, chunks, max); Texts(f.pieces + AtEof(f.acc))
  }

  lemma EmittedStep(acc: Bytes, chunks: seq<Bytes>, max: nat)
    requires max > 0 && chunks != []
    ensures var f := Feed(acc, chunks[0], max);
            Emitted(acc, chunks, max) == Texts(f.pieces) + Emitted(f.acc, chunks[1..], max)
  {
    hide Feed;
    var f := Feed(acc, chunks[0], max);
    var g := FeedAll(f.acc, chunks[1..], max);
    RawsAppend(f.pieces, g.pieces + AtEof(g.acc));
    assert f.pieces + g.pieces + AtEof(g.acc) == f.pieces + (g.pieces + AtEof(g.acc));
  }

  lemma EmittedNothing(acc: Bytes, max: nat)
    requires max > 0 && NewlineFree(acc)
    ensures Emitted(acc, [], max) == SplitLines(acc)
  {
    if acc != [] { IndexOfIs(acc, NL, |acc|); }
    assert [] + AtEof(acc) == AtEof(acc);
  }

  lemma {:induction false} FeedAllFits(acc: Bytes, chunks: seq<Bytes>, max: nat)
    requires max > 0 && NewlineFree(acc) && RunsFit(acc + Concat(chunks), max)
    ensures Emitted(acc, chunks, max) == SplitLines(acc + Concat(chunks))
    decreases |chunks|
  {
    if chunks == [] {
      assert acc + Concat(chunks) == acc;
      EmittedNothing(acc, max);
    } else {
      var rest := Concat(chunks[1..]);
      var f := Feed(acc, chunks[0], max);
      assert acc + Concat(chunks) == acc + chunks[0] + rest;
      hide Emitted, FeedAll, Feed, SplitLines, RunsFit, Texts;
      FeedFits(acc, chunks[0], rest, max);
      EmittedStep(acc, chunks, max);
      FeedAllFits(f.acc, chunks[1..], max);
    }
  }

  lemma DrainFits(chunks: seq<Bytes>, max: nat)
    requires max > 0 && RunsFit(Concat(chunks), max)
    ensures Texts(Drain(chunks, max)) == SplitLines(Concat(chunks))
  {
    assert [] + Concat(chunks) == Concat(chunks);
    FeedAllFits([], chunks, max);
  }

  /** Below the cap the emissions are the one-shot split, for every way the stream is cut. */
  lemma ChunkIndependence(chunks: seq<Bytes>, max: nat)
    requires max > 0 && RunsBelow(Concat(chunks), max)
    ensures Texts(Drain(chunks, max)) == SplitLines(Concat(chunks))
  {
    BelowFits(Concat(chunks), max);
    DrainFits(chunks, max);
  }

  // ---- The condition is exact ----

  /** The reader that hands over one byte at a time. */
  function Bytewise(s: Bytes): seq<Bytes> {
    if s == [] then [] else [[s[0]]] + Bytewise(s[1..])
  }

  lemma {:induction false} BytewiseConcat(s: Bytes)
    ensures Concat(Bytewise(s)) == s
  {
    if s != [] { BytewiseConcat(s[1..]); }
  }

  lemma SplitLinesLonger(run: Bytes, s: Bytes)
    requires NewlineFree(run) && s != []
    ensures |SplitLines(run + s)| == |SplitLines(s)|
  {
    hide SplitLines;
    var i := IndexOf(s, NL);
    IndexBehind(run, s, i);
    SplitCount(s);
    SplitCount(run + s);
    if i < |s| { assert (run + s)[|run| + i + 1..] == s[i + 1..]; }
  }

  lemma IndexBehind(run: Bytes, s: Bytes, i: nat)
    requires NewlineFree(run) && i == IndexOf(s, NL)
    ensures IndexOf(run + s, NL) == |run| + i
  {
    IndexOfIs(run + s, NL, |run| + i);
  }

  lemma SplitCount(s: Bytes)
    requires s != []
    ensures var i := IndexOf(s, NL); |SplitLines(s)| == if i == |s| then 1 else 1 + |SplitLines(s[i + 1..])|
  {
    hide TrimLineEnd;
  }

  lemma FeedByte(acc: Bytes, b: Byte, max: nat)
    requires max > 0 && |acc| < max
    ensures Feed(acc, [b], max) ==
              if b == NL then Fed([Line(acc + [b])], [])
              else if |acc| + 1 < max then Fed([], acc + [b])
              else Fed([Fragment(acc + [b])], [])
  {
    IndexOfIs([b], NL, if b == NL then 0 else 1);
    if b == NL {
      assert [b][..1] == [b] && [b][1..] == [];
    } else if |acc| + 1 == max {
      var run := acc + [b];
      assert run[..max] == run && run[max..] == [];
      assert Flush([], max) == Fed([], []);
      assert Flush(run, max) == Fed([Fragment(run)], []);
    }
  }

  /** Read byte by byte, a stream never yields fewer emissions than the reference split, and the
      very same ones only if its runs fit. */
  ghost predicate Tells(e: seq<Bytes>, s: Bytes, max: nat) {
    |e| >= |SplitLines(s)| && (e == SplitLines(s) ==> RunsFit(s, max))
  }

  lemma {:induction false} BytewiseTells(acc: Bytes, s: Bytes, max: nat)
    requires max > 0 && |acc| < max && NewlineFree(acc)
    ensures Tells(Emitted(acc, Bytewise(s), max), acc + s, max)
    decreases |s|
  {
    hide Emitted, Tells, Bytewise, Feed;
    if s == [] {
      NothingTells(acc, max);
    } else {
      var b, rest := s[0], s[1..];
      BytewiseStep(acc, s, max);
      FeedByte(acc, b, max);
      assert acc + [b] + rest == acc + s;
      assert [] + rest == rest;
      if b == NL {
        BytewiseTells([], rest, max);
        BytewiseAtNewline(acc, rest, max);
      } else if |acc| + 1 < max {
        BytewiseTells(acc + [b], rest, max);
        var e := Emitted(acc + [b], Bytewise(rest), max);
        assert Texts([]) + e == e;
      } else {
        BytewiseTells([], rest, max);
        BytewiseAtCap(acc + [b], rest, max);
        assert Texts([Fragment(acc + [b])]) == [acc + [b]];
      }
    }
  }

  lemma NothingTells(acc: Bytes, max: nat)
    requires max > 0 && |acc| < max && NewlineFree(acc)
    ensures Tells(Emitted(acc, Bytewise([]), max), acc + [], max)
  {
    assert acc + [] == acc;
    IndexOfIs(acc, NL, |acc|);
  }

  lemma BytewiseStep(acc: Bytes, s: Bytes, max: nat)
    requires max > 0 && s != []
    ensures var f := Feed(acc, [s[0]], max);
            Emitted(acc, Bytewise(s), max) == Texts(f.pieces) + Emitted(f.acc, Bytewise(s[1..]), max)
  {
    hide Emitted, Feed;
    EmittedStep(acc, Bytewise(s), max);
    assert Bytewise(s)[1..] == Bytewise(s[1..]);
  }

  lemma BytewiseAtNewline(acc: Bytes, rest: Bytes, max: nat)
    requires max > 0 && |acc| < max && NewlineFree(acc)
    requires Tells(Emitted([], Bytewise(rest), max), rest, max)
    ensures Tells(Texts([Line(acc + [NL])]) + Emitted([], Bytewise(rest), max), acc + [NL] + rest, max)
  {
    var whole := acc + [NL] + rest;
    assert whole[|acc| + 1..] == rest && whole[..|acc| + 1] == acc + [NL] && whole[..|acc|] == acc;
    SplitLinesAt(whole, |acc|);
    var e := Emitted([], Bytewise(rest), max);
    assert (Texts([Line(acc + [NL])]) + e)[1..] == e;
  }

  lemma BytewiseAtCap(run: Bytes, rest: Bytes, max: nat)
    requires max > 0 && |run| == max && NewlineFree(run)
    requires Tells(Emitted([], Bytewise(rest), max), rest, max)
    ensures Tells([run] + Emitted([], Bytewise(rest), max), run + rest, max)
  {
    if rest == [] {
      assert run + rest == run;
      IndexOfIs(run, NL, max);
      assert SplitLines(run) == [TrimLineEnd(run)];
      var e := [run] + Emitted([], Bytewise(rest), max);
      assert e[0] == run;
      if run[max - 1] == CR { assert |TrimLineEnd(run)| < |run|; }
    } else {
      SplitLinesLonger(run, rest);
    }
  }

  /** All chunkings agree with the one-shot split exactly for streams whose runs fit. */
  lemma AgreesWithSplitIffRunsFit(s: Bytes, max: nat)
    requires max > 0
    ensures (forall chunks :: Concat(chunks) == s ==> Texts(Drain(chunks, max)) == SplitLines(s))
            <==> RunsFit(s, max)
  {
    assert [] + s == s;
    if RunsFit(s, max) {
      forall chunks | Concat(chunks) == s ensures Texts(Drain(chunks, max)) == SplitLines(s) {
        DrainFits(chunks, max);
      }
    } else {
      BytewiseConcat(s);
      BytewiseTells([], s, max);
    }
  }

  // ---- The documented rule for line ends ----

  predicate EndsInCr(b: Bytes) { b != [] && b[|b| - 1] == CR }

  /** As documented: a "\n", and a "\r" in front of it. */
  function Body(raw: Bytes): Bytes {
    if raw != [] && raw[|raw| - 1] == NL then
      var c := raw[..|raw| - 1];
      if EndsInCr(c) then c[..|c| - 1] else c
    else raw
  }

  /** What is emitted for the raw bytes: of a line what precedes its line end, "\r\n" or "\n"; a fragment
      as it is; of a remainder everything but a last carriage return. */
  lemma LineEnds(x: Bytes)
    ensures Text(Line(x + [CR, NL])) == Text(Fragment(x)) == Text(Remainder(x + [CR])) == x
    ensures x == [] || x[|x| - 1] != CR ==> Text(Line(x + [NL])) == x
    ensures x == [] || x[|x| - 1] !in {CR, NL} ==> Text(Remainder(x)) == x
  {
    hide TrimLineEnd;
    TrimNl(x + [CR]);
    TrimNl(x);
    if x == [] || x[|x| - 1] != NL { TrimNoNl(x); }
    TrimNoNl(x + [CR]);
    assert x + [CR, NL] == x + [CR] + [NL] && (x + [CR])[..|x|] == x;
  }

  lemma TrimNl(c: Bytes)
    ensures TrimLineEnd(c + [NL]) == if c != [] && c[|c| - 1] == CR then c[..|c| - 1] else c
  {
    var b := c + [NL];
    assert b[|b| - 1] == NL && b[..|b| - 1] == c;
  }

  lemma TrimNoNl(b: Bytes)
    requires b == [] || b[|b| - 1] != NL
    ensures TrimLineEnd(b) == if b != [] && b[|b| - 1] == CR then b[..|b| - 1] else b
  {
  }

  function Bodies(ps: seq<Piece>): (bs: seq<Bytes>)
    ensures |bs| == |ps| && forall i :: 0 <= i < |ps| ==> bs[i] == Body(ps[i].raw)
  {
    seq(|ps|, i requires 0 <= i < |ps| => Body(ps[i].raw))
  }

  /** For every chunking a piece is emitted as documented, unless it is an unterminated last one that
      ends in a carriage return. */
  lemma PieceDocumentedIff(chunks: seq<Bytes>, max: nat, i: nat)
    requires max > 0 && i < |Drain(chunks, max)|
    ensures var p := Drain(chunks, max)[i];
            Text(p) == Body(p.raw) <==> !(p.Remainder? && EndsInCr(p.raw))
  {
    DrainLossless(chunks, max);
  }

  /** The whole stream: what is emitted is as documented if and only if it does not end in a carriage
      return that is still in the accumulator (Chunking.StreamDocumentedIff says when that is). */
  lemma AccDocumentedIff(chunks: seq<Bytes>, max: nat)
    requires max > 0
    ensures Texts(Drain(chunks, max)) == Bodies(Drain(chunks, max)) <==>
              !(FeedAll([], chunks, max).acc != [] && EndsInCr(Concat(chunks)))
  {
    var ps := Drain(chunks, max);
    LeftOver(chunks, max);
    hide *;
    forall i | 0 <= i < |ps| ensures Text(ps[i]) == Body(ps[i].raw) <==> !(ps[i].Remainder? && EndsInCr(ps[i].raw)) {
      PieceDocumentedIff(chunks, max, i);
    }
    if Texts(ps) == Bodies(ps) {
      forall i | 0 <= i < |ps| ensures Text(ps[i]) == Body(ps[i].raw) { assert Texts(ps)[i] == Bodies(ps)[i]; }
    }
  }

  /** What is left in the accumulator at the end of the stream becomes its one unterminated piece. */
  lemma LeftOver(chunks: seq<Bytes>, max: nat)
    requires max > 0
    ensures var ps, acc := Drain(chunks, max), FeedAll([], chunks, max).acc;
            && (forall i :: 0 <= i < |ps| && ps[i].Remainder? ==> acc != [] && ps[i].raw == acc)
            && (acc != [] ==> ps != [] && ps[|ps| - 1] == Remainder(acc))
            && (acc != [] ==> (EndsInCr(Concat(chunks)) <==> EndsInCr(acc)))
  {
    hide FeedAll, Concat, EndsInCr, EndsInOnlyNewline;
    FeedAllLossless([], chunks, max);
    assert [] + Concat(chunks) == Concat(chunks);
    var f := FeedAll([], chunks, max);
    assert forall i :: 0 <= i < |f.pieces| ==> InnerPiece(f.pieces[i], max);
    EndOfConcat(Concat(Raws(f.pieces)), f.acc);
  }

  lemma EndOfConcat(a: Bytes, b: Bytes)
    ensures b != [] ==> (EndsInCr(a + b) <==> EndsInCr(b))
  {
  }

  /** The one-shot split with the documented rule. */
  function DocumentedSplit(s: Bytes): seq<Bytes>
    decreases |s|
  {
    var i := IndexOf(s, NL);
    if s == [] then []
    else if i == |s| then [Body(s)]
    else [Body(s[..i + 1])] + DocumentedSplit(s[i + 1..])
  }

  lemma {:induction false} SplitDocumentedIff(s: Bytes)
    ensures SplitLines(s) == DocumentedSplit(s) <==> !EndsInCr(s)
    decreases |s|
  {
    hide TrimLineEnd, Body;
    var i := IndexOf(s, NL);
    if i < |s| {
      var head, tail := s[..i + 1], s[i + 1..];
      SplitDocumentedIff(tail);
      TerminatedBody(head);
      SameTail(Body(head), SplitLines(tail), DocumentedSplit(tail));
    } else if s != [] {
      UnterminatedBody(s);
    }
  }

  lemma SameTail(x: Bytes, a: seq<Bytes>, b: seq<Bytes>)
    ensures [x] + a == [x] + b <==> a == b
  {
    assert ([x] + a)[1..] == a && ([x] + b)[1..] == b;
  }

  lemma TerminatedBody(raw: Bytes)
    requires raw != [] && raw[|raw| - 1] == NL
    ensures TrimLineEnd(raw) == Body(raw)
  {
  }

  lemma UnterminatedBody(raw: Bytes)
    requires raw != [] && raw[|raw| - 1] != NL
    ensures TrimLineEnd(raw) == Body(raw) <==> !EndsInCr(raw)
  {
  }

  /** When the runs fit the cap, the documented split is what is emitted, for every chunking, if and
      only if the stream does not end in a carriage return. */
  lemma DrainDocumentedIff(chunks: seq<Bytes>, max: nat)
    requires max > 0 && RunsFit(Concat(chunks), max)
    ensures Texts(Drain(chunks, max)) == DocumentedSplit(Concat(chunks)) <==> !EndsInCr(Concat(chunks))
  {
    DrainFits(chunks, max);
    SplitDocumentedIff(Concat(chunks));
  }

  /** A stream it is not true of: "a\r", read at once, comes out as "a". */
  lemma LoneCarriageReturn(max: nat)
    requires max > 2
    ensures Texts(Drain([[97, CR]], max)) == [[97]] && DocumentedSplit([97, CR]) == [[97, CR]]
  {
    var s: Bytes := [97, CR];
    assert Concat([s]) == s + Concat([]) == s;
    IndexOfIs(s, NL, 2);
    DrainFits([s], max);
    assert s[..1] == [97] && TrimLineEnd(s) == [97];
    assert SplitLines(s) == [TrimLineEnd(s)];
  }
}
