/** UTF-8 as Go's unicode/utf8 reads it (section 3 of RFC 3629): decoding is total, an
    ill-formed sequence costs one byte and yields U+FFFD. */
module Utf8 {
  import opened Bytes

  /** A Unicode scalar value: no surrogates. */
  type Rune = r: int | 0 <= r <= 0x10FFFF && !(0xD800 <= r <= 0xDFFF)

  const RUNE_ERROR: Rune := 0xFFFD
  const BACKSLASH: Rune := 0x5C

  /** One decoding step: a well-formed scalar or one ill-formed byte. */
  datatype Token = Good(r: Rune) | Bad

  predicate Cont(b: Byte) { 0x80 <= b <= 0xBF }

  /** utf8.RuneStart. */
  predicate RuneStart(b: Byte) { !Cont(b) }

  predicate Well2(s: Bytes) { |s| >= 2 && 0xC2 <= s[0] <= 0xDF && Cont(s[1]) }

  predicate Well3(s: Bytes) {
    && |s| >= 3 && 0xE0 <= s[0] <= 0xEF && Cont(s[1]) && Cont(s[2])
    && (s[0] == 0xE0 ==> s[1] >= 0xA0)
    && (s[0] == 0xED ==> s[1] <= 0x9F)
  }

  predicate Well4(s: Bytes) {
    && |s| >= 4 && 0xF0 <= s[0] <= 0xF4 && Cont(s[1]) && Cont(s[2]) && Cont(s[3])
    && (s[0] == 0xF0 ==> s[1] >= 0x90)
    && (s[0] == 0xF4 ==> s[1] <= 0x8F)
  }

  function Scalar2(b0: int, b1: int): int { (b0 - 0xC0) * 64 + (b1 - 0x80) }

  function Scalar3(b0: int, b1: int, b2: int): int {
    (b0 - 0xE0) * 4096 + (b1 - 0x80) * 64 + (b2 - 0x80)
  }

  function Scalar4(b0: int, b1: int, b2: int, b3: int): int {
    (b0 - 0xF0) * 262144 + (b1 - 0x80) * 4096 + (b2 - 0x80) * 64 + (b3 - 0x80)
  }

  /** The token at the front of `s`. */
  function First(s: Bytes): Token
    requires s != []
  {
    if s[0] < 0x80 then Good(s[0])
    else if Well2(s) then Good(Scalar2(s[0], s[1]))
    else if Well3(s) then Good(Scalar3(s[0], s[1], s[2]))
    else if Well4(s) then Good(Scalar4(s[0], s[1], s[2], s[3]))
    else Bad
  }

  /** Its width in bytes. */
  function Width(s: Bytes): (w: nat)
    requires s != []
    ensures 1 <= w <= |s| && w <= 4
    ensures forall j :: 1 <= j < w ==> Cont(s[j])
  {
    if s[0] < 0x80 then 1
    else if Well2(s) then 2
    else if Well3(s) then 3
    else if Well4(s) then 4
    else 1
  }

  function Tokens(s: Bytes): seq<Token> {
    if s == [] then [] else [First(s)] + Tokens(s[Width(s)..])
  }

  /** What `for _, r := range s` visits. */
  function Value(t: Token): Rune { match t case Good(r) => r case Bad => RUNE_ERROR }

  function Values(ts: seq<Token>): (rs: seq<Rune>)
    ensures |rs| == |ts| && forall i :: 0 <= i < |ts| ==> rs[i] == Value(ts[i])
  {
    seq(|ts|, i requires 0 <= i < |ts| => Value(ts[i]))
  }

  /** utf8.ValidString: every token is well-formed. */
  predicate Valid(s: Bytes) { forall t :: t in Tokens(s) ==> t.Good? }

  /** utf8.AppendRune. */
  function Encode(r: Rune): (s: Bytes)
    ensures 1 <= |s| <= 4
  {
    if r < 0x80 then [r]
    else if r < 0x800 then Encode2(r)
    else if r < 0x10000 then Encode3(r)
    else Encode4(r)
  }

  function Encode2(r: Rune): Bytes
    requires 0x80 <= r < 0x800
  {
    [0xC0 + r / 64, 0x80 + r % 64]
  }

  function Encode3(r: Rune): Bytes
    requires 0x800 <= r < 0x10000
  {
    var h := r / 64;
    [0xE0 + h / 64, 0x80 + h % 64, 0x80 + r % 64]
  }

  function Encode4(r: Rune): Bytes
    requires 0x10000 <= r
  {
    var h := r / 64;
    var g := h / 64;
    [0xF0 + g / 64, 0x80 + g % 64, 0x80 + h % 64, 0x80 + r % 64]
  }

  /** decode(encode(r)) == r for one scalar, and the shape of its encoding. */
  lemma EncodeFirst(r: Rune)
    ensures First(Encode(r)) == Good(r) && Width(Encode(r)) == |Encode(r)|
    ensures RuneStart(Encode(r)[0])
    ensures r < 0x80 ==> Encode(r) == [r]
    ensures r >= 0x80 ==> forall b :: b in Encode(r) ==> b >= 0x80
  {
    if 0x80 <= r < 0x800 {
      Split64(r, r / 64, r % 64);
    } else if 0x800 <= r < 0x10000 {
      var h := r / 64;
      Split64(r, h, r % 64);
      Split64(h, h / 64, h % 64);
      assert Well3(Encode3(r));
    } else if 0x10000 <= r {
      var h := r / 64;
      var g := h / 64;
      Split64(r, h, r % 64);
      Split64(h, g, h % 64);
      Split64(g, g / 64, g % 64);
      assert Well4(Encode4(r));
    }
  }

  lemma Split64(x: int, q: int, m: int)
    requires x == 64 * q + m && 0 <= m < 64
    ensures x / 64 == q && x % 64 == m
  {
  }

  function EncodeAll(rs: seq<Rune>): Bytes {
    if rs == [] then [] else Encode(rs[0]) + EncodeAll(rs[1..])
  }

  function Goods(rs: seq<Rune>): (ts: seq<Token>)
    ensures |ts| == |rs| && forall i :: 0 <= i < |rs| ==> ts[i] == Good(rs[i])
  {
    seq(|rs|, i requires 0 <= i < |rs| => Good(rs[i]))
  }

  /** A decoding step never looks past the next non-continuation byte. */
  lemma FirstLocal(a: Bytes, b: Bytes)
    requires a != []
    requires b == [] || RuneStart(b[0]) || First(a).Good?
    ensures First(a + b) == First(a) && Width(a + b) == Width(a)
  {
    var s := a + b;
    assert s[0] == a[0];
    if |a| >= 2 { assert s[1] == a[1]; } else if b != [] { assert s[1] == b[0]; }
    if |a| >= 3 { assert s[2] == a[2]; } else if |a| == 2 && b != [] { assert s[2] == b[0]; }
    if |a| >= 4 { assert s[3] == a[3]; } else if |a| == 3 && b != [] { assert s[3] == b[0]; }
  }

  lemma TokensStep(s: Bytes)
    ensures Tokens(s) == if s == [] then [] else [First(s)] + Tokens(s[Width(s)..])
  {
  }

  lemma DropFront(a: Bytes, b: Bytes, w: nat)
    requires w <= |a|
    ensures (a + b)[w..] == a[w..] + b
  {
  }

  lemma Regroup(t: Token, x: seq<Token>, y: seq<Token>)
    ensures [t] + (x + y) == [t] + x + y
  {
  }

  /** A string cut in front of a non-continuation byte decodes piecewise, ill-formed or not. */
  lemma {:induction false} TokensSplit(a: Bytes, b: Bytes)
    requires b == [] || RuneStart(b[0])
    ensures Tokens(a + b) == Tokens(a) + Tokens(b)
    decreases |a|
  {
    hide *;
    TokensStep(a);
    if a == [] {
      assert a + b == b;
    } else {
      FirstLocal(a, b);
      TokensStep(a + b);
      DropFront(a, b, Width(a));
      TokensSplit(a[Width(a)..], b);
      Regroup(First(a), Tokens(a[Width(a)..]), Tokens(b));
    }
  }

  /** Encoding after decoding: the front of a string re-encodes to the bytes it came from. */
  lemma FirstEncoded(s: Bytes)
    requires s != [] && First(s).Good?
    ensures Encode(First(s).r) == s[..Width(s)]
  {
    var r: int := First(s).r;
    if s[0] < 0x80 {
    } else if Well2(s) {
      Split64(r, s[0] - 0xC0, s[1] - 0x80);
    } else if Well3(s) {
      var h: int := Scalar2(s[0] - 0x20, s[1]);
      Split64(r, h, s[2] - 0x80);
      Split64(h, s[0] - 0xE0, s[1] - 0x80);
    } else {
      var h: int := Scalar3(s[0] - 0x10, s[1], s[2]);
      var g: int := Scalar2(s[0] - 0x30, s[1]);
      Split64(r, h, s[3] - 0x80);
      Split64(h, g, s[2] - 0x80);
      Split64(g, s[0] - 0xF0, s[1] - 0x80);
    }
  }

  /** The encoding of a scalar, in numbers: one byte below 0x80, else a lead byte of its range and
      continuation bytes of six bits each. */
  lemma EncodingIs(r: Rune)
    ensures var e := Encode(r);
            var bits := (i: nat) => if i < |e| then e[i] as int - 0x80 else 0;
            && (r < 0x80 ==> e == [r])
            && (0x80 <= r < 0x800 ==> |e| == 2 && r == (bits(0) - 0x40) * 64 + bits(1))
            && (0x800 <= r < 0x10000 ==> |e| == 3 && r == (bits(0) - 0x60) * 4096 + bits(1) * 64 + bits(2))
            && (0x10000 <= r ==>
                 |e| == 4 && r == (bits(0) - 0x70) * 262144 + bits(1) * 4096 + bits(2) * 64 + bits(3))
            && forall i :: 1 <= i < |e| ==> 0 <= bits(i) < 64
  {
    var h := r / 64;
    var g := h / 64;
    assert r == 64 * h + r % 64 && h == 64 * g + h % 64 && g == 64 * (g / 64) + g % 64;
  }

  /** What decoding is, given the encoding: the scalar whose encoding the string begins with, over the
      width of that; one ill-formed byte when there is none. */
  lemma DecodingStepIff(s: Bytes, r: Rune)
    requires s != []
    ensures First(s) == Good(r) <==> Encode(r) <= s
    ensures First(s) == Good(r) ==> Width(s) == |Encode(r)|
    ensures First(s).Bad? ==> Width(s) == 1
  {
    hide Encode;
    if First(s) == Good(r) {
      FirstEncoded(s);
    }
    if Encode(r) <= s {
      EncodeFirst(r);
      var rest := s[|Encode(r)|..];
      assert s == Encode(r) + rest;
      FirstLocal(Encode(r), rest);
    }
  }

  /** decode(encode(rs)) == rs. */
  lemma {:induction false} DecodeEncode(rs: seq<Rune>)
    ensures Tokens(EncodeAll(rs)) == Goods(rs)
    ensures Valid(EncodeAll(rs))
  {
    if rs != [] {
      var e, rest := Encode(rs[0]), EncodeAll(rs[1..]);
      EncodeFirst(rs[0]);
      FirstLocal(e, rest);
      DecodeEncode(rs[1..]);
      assert (e + rest)[|e|..] == rest;
      assert Goods(rs) == [Good(rs[0])] + Goods(rs[1..]);
    }
  }

  /** What survives a text format that replaces ill-formed bytes by U+FFFD. */
  function Scrub(s: Bytes): Bytes { EncodeAll(Values(Tokens(s))) }

  lemma ValidTail(s: Bytes)
    requires s != [] && Valid(s)
    ensures First(s).Good? && Valid(s[Width(s)..])
  {
    var ts := Tokens(s);
    assert ts[0] == First(s) && ts[0] in ts;
    forall t | t in Tokens(s[Width(s)..]) ensures t.Good? {
      assert t in ts[1..];
    }
  }

  lemma ScrubStep(s: Bytes)
    requires s != [] && First(s).Good?
    ensures Scrub(s) == Encode(First(s).r) + Scrub(s[Width(s)..])
  {
    hide First, Width, Encode;
    assert Values(Tokens(s))[1..] == Values(Tokens(s[Width(s)..]));
  }

  /** encode(decode(s)) == s exactly on well-formed strings. */
  lemma {:induction false} ScrubIdentity(s: Bytes)
    requires Valid(s)
    ensures Scrub(s) == s
    decreases |s|
  {
    hide *;
    if s == [] {
      ScrubEmpty();
    } else {
      ValidTail(s);
      FirstEncoded(s);
      ScrubIdentity(s[Width(s)..]);
      ScrubStep(s);
      assert s[..Width(s)] + s[Width(s)..] == s;
    }
  }

  lemma ScrubEmpty()
    ensures Scrub([]) == []
  {
  }

  lemma ScrubFixesExactlyValid(s: Bytes)
    ensures Scrub(s) == s <==> Valid(s)
    ensures Valid(Scrub(s))
  {
    DecodeEncode(Values(Tokens(s)));
    if Valid(s) { ScrubIdentity(s); }
  }

  /** On well-formed strings decoding loses nothing. */
  lemma TokensInjective(a: Bytes, b: Bytes)
    requires Valid(a) && Tokens(a) == Tokens(b)
    ensures a == b
  {
    assert Valid(b);
    ScrubIdentity(a);
    ScrubIdentity(b);
  }

  /** A prefix of a well-formed string that stops at a rune start is well-formed. */
  lemma {:induction false} PrefixValid(s: Bytes, cut: nat)
    requires Valid(s) && cut < |s| && RuneStart(s[cut])
    ensures Valid(s[..cut])
  {
    TokensSplit(s[..cut], s[cut..]);
    assert s == s[..cut] + s[cut..];
    forall t | t in Tokens(s[..cut]) ensures t.Good? {
      assert t in Tokens(s);
    }
  }

  /** In a well-formed string a rune starts at most three bytes before any position. */
  lemma {:induction false} RuneStartNearby(s: Bytes, i: nat) returns (j: nat)
    requires Valid(s) && i < |s|
    ensures j <= i <= j + 3 && RuneStart(s[j])
    decreases |s|
  {
    var w := Width(s);
    ValidTail(s);
    FirstEncoded(s);
    if i < w {
      j := 0;
    } else {
      var k := RuneStartNearby(s[w..], i - w);
      j := k + w;
    }
  }
}
