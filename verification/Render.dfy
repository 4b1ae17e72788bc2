/** Bounded, escape-safe rendering of captured output in error texts (errors.go). */
module Render {
  import opened Bytes
  import opened Utf8

  const PREVIEW_LIMIT := 200

  /** "…" */
  const ELLIPSIS: Bytes := [0xE2, 0x80, 0xA6]

  predicate Control(r: Rune) { (r < 0x20 && r != 10 && r != 9) || r == 0x7F }

  predicate Bidi(r: Rune) {
    0x202A <= r <= 0x202E || 0x2066 <= r <= 0x2069 || r == 0x200E || r == 0x200F
  }

  predicate Safe(r: Rune) { !Control(r) && !Bidi(r) }

  function Hex(d: int): (r: Rune)
    requires 0 <= d < 16
    ensures Safe(r) && r < 0x80
  {
    if d < 10 then 0x30 + d else 0x57 + d
  }

  /** What sanitize writes for one decoded rune: itself, \xNN or \uNNNN. */
  function Escape(r: Rune): (rs: seq<Rune>)
    ensures forall x :: x in rs ==> Safe(x)
    ensures Safe(r) ==> rs == [r]
  {
    if Control(r) then [BACKSLASH, 0x78, Hex(r / 16), Hex(r % 16)]
    else if Bidi(r) then
      [BACKSLASH, 0x75, Hex(r / 4096), Hex(r / 256 % 16), Hex(r / 16 % 16), Hex(r % 16)]
    else [r]
  }

  function EscapeAll(rs: seq<Rune>): seq<Rune> {
    if rs == [] then [] else Escape(rs[0]) + EscapeAll(rs[1..])
  }

  /** sanitize: decode, escape every rune, encode. */
  function Sanitized(s: Bytes): Bytes { EncodeAll(EscapeAll(Values(Tokens(s)))) }

  lemma {:induction false} EncodeAllAppend(a: seq<Rune>, b: seq<Rune>)
    ensures EncodeAll(a + b) == EncodeAll(a) + EncodeAll(b)
  {
    if a == [] {
      assert a + b == b;
    } else {
      assert (a + b)[1..] == a[1..] + b;
      EncodeAllAppend(a[1..], b);
    }
  }

  lemma SanitizedStep(s: Bytes)
    requires s != []
    ensures Sanitized(s) == EncodeAll(Escape(Value(First(s)))) + Sanitized(s[Width(s)..])
  {
    var vs := Values(Tokens(s));
    assert vs[1..] == Values(Tokens(s[Width(s)..]));
    EncodeAllAppend(Escape(vs[0]), EscapeAll(vs[1..]));
  }

  /** sanitize as the loop over a string builder that it is. */
  method Sanitize(s: Bytes) returns (b: Bytes)
    ensures b == Sanitized(s)
  {
    b := [];
    var rest := s;
    while rest != []
      invariant b + Sanitized(rest) == Sanitized(s)
      decreases |rest|
    {
      SanitizedStep(rest);
      var before := b;
      b := b + EncodeAll(Escape(Value(First(rest))));
      assert b + Sanitized(rest[Width(rest)..]) == before + Sanitized(rest);
      rest := rest[Width(rest)..];
    }
    assert Sanitized(rest) == [];
  }

  /** The i-th lower-case hexadecimal digit. */
  function Digit(i: int): Byte
    requires 0 <= i < 16
  {
    "0123456789abcdef"[i] as int
  }

  lemma HexIsDigit(i: int)
    requires 0 <= i < 16
    ensures Hex(i) == Digit(i)
  {
  }

  /** What sanitizing is, from the front of the string: a control character other than tab and newline,
      or DEL, becomes \\xNN; a bidi control becomes \\uNNNN; an ill-formed byte becomes U+FFFD; anything
      else stays as it is. */
  lemma SanitizeCases(s: Bytes)
    requires s != []
    ensures var r, w := Value(First(s)), Width(s);
            var front :=
              if (r < 0x20 && r != 9 && r != 10) || r == 0x7F then [0x5C, 0x78, Digit(r / 16), Digit(r % 16)]
              else if 0x202A <= r <= 0x202E || 0x2066 <= r <= 0x2069 || r == 0x200E || r == 0x200F then
                [0x5C, 0x75, Digit(r / 4096), Digit(r / 256 % 16), Digit(r / 16 % 16), Digit(r % 16)]
              else if First(s).Bad? then [0xEF, 0xBF, 0xBD]
              else s[..w];
            Sanitized(s) == front + Sanitized(s[w..])
  {
    hide Sanitized, Escape, EncodeAll, First, Width, Encode, Digit;
    SanitizedStep(s);
    Rendered(Value(First(s)));
    if First(s).Good? { FirstEncoded(s); } else { ReplacementEncoded(); }
  }

  lemma Rendered(r: Rune)
    ensures EncodeAll(Escape(r))
         == if (r < 0x20 && r != 9 && r != 10) || r == 0x7F then [0x5C, 0x78, Digit(r / 16), Digit(r % 16)]
            else if 0x202A <= r <= 0x202E || 0x2066 <= r <= 0x2069 || r == 0x200E || r == 0x200F then
              [0x5C, 0x75, Digit(r / 4096), Digit(r / 256 % 16), Digit(r / 16 % 16), Digit(r % 16)]
            else Encode(r)
  {
    hide EncodeAll, Encode;
    if Control(r) {
      HexIsDigit(r / 16);
      HexIsDigit(r % 16);
      AsciiIs(Escape(r), [0x5C, 0x78, Digit(r / 16), Digit(r % 16)]);
    } else if Bidi(r) {
      HexIsDigit(r / 4096);
      HexIsDigit(r / 256 % 16);
      HexIsDigit(r / 16 % 16);
      HexIsDigit(r % 16);
      AsciiIs(Escape(r), [0x5C, 0x75, Digit(r / 4096), Digit(r / 256 % 16), Digit(r / 16 % 16), Digit(r % 16)]);
    } else {
      Single(r);
    }
  }

  lemma ReplacementEncoded()
    ensures Encode(RUNE_ERROR) == [0xEF, 0xBF, 0xBD]
  {
  }

  lemma AsciiIs(rs: seq<Rune>, bytes: Bytes)
    requires |rs| == |bytes| && forall i :: 0 <= i < |rs| ==> rs[i] < 0x80 && bytes[i] == rs[i]
    ensures EncodeAll(rs) == bytes
  {
    hide EncodeAll;
    AsciiStays(rs);
  }

  /** Below 0x80 a rune is its byte. */
  lemma {:induction false} AsciiStays(rs: seq<Rune>)
    requires forall i :: 0 <= i < |rs| ==> rs[i] < 0x80
    ensures |EncodeAll(rs)| == |rs| && forall i :: 0 <= i < |rs| ==> EncodeAll(rs)[i] == rs[i]
  {
    if rs != [] {
      AsciiStays(rs[1..]);
      assert EncodeAll(rs) == [rs[0]] + EncodeAll(rs[1..]);
    }
  }

  lemma {:induction false} EscapeAllSafe(rs: seq<Rune>)
    ensures forall x :: x in EscapeAll(rs) ==> Safe(x)
  {
    if rs != [] { EscapeAllSafe(rs[1..]); }
  }

  lemma {:induction false} EscapeAllFixesSafe(rs: seq<Rune>)
    requires forall x :: x in rs ==> Safe(x)
    ensures EscapeAll(rs) == rs
  {
    if rs != [] { EscapeAllFixesSafe(rs[1..]); }
  }

  lemma ValuesOfGoods(rs: seq<Rune>)
    ensures Values(Goods(rs)) == rs
  {
  }

  /** The bytes a terminal sees carry no control byte except \n and \t. */
  predicate QuietBytes(s: Bytes) {
    forall b :: b in s ==> (b >= 0x20 || b == 10 || b == 9) && b != 0x7F
  }

  lemma {:induction false} SafeRunesAreQuiet(rs: seq<Rune>)
    requires forall x :: x in rs ==> Safe(x)
    ensures QuietBytes(EncodeAll(rs))
  {
    if rs != [] {
      EncodeFirst(rs[0]);
      SafeRunesAreQuiet(rs[1..]);
      assert rs[0] in rs;
      assert forall b :: b in Encode(rs[0]) ==> (b >= 0x20 || b == 10 || b == 9) && b != 0x7F;
    }
  }

  /** For every byte string, sanitize yields well-formed UTF-8 holding no control character but
      \n and \t, no DEL and no bidi control, and a second pass changes nothing. */
  lemma SanitizeLaws(s: Bytes)
    ensures Valid(Sanitized(s))
    ensures forall t :: t in Tokens(Sanitized(s)) ==> t.Good? && Safe(t.r)
    ensures QuietBytes(Sanitized(s))
    ensures Sanitized(Sanitized(s)) == Sanitized(s)
  {
    var rs := EscapeAll(Values(Tokens(s)));
    EscapeAllSafe(Values(Tokens(s)));
    DecodeEncode(rs);
    ValuesOfGoods(rs);
    EscapeAllFixesSafe(rs);
    SafeRunesAreQuiet(rs);
    forall t | t in Tokens(Sanitized(s)) ensures t.Good? && Safe(t.r) {
      var i :| 0 <= i < |Goods(rs)| && Goods(rs)[i] == t;
      assert rs[i] in rs;
    }
  }

  // ---- Size ----

  lemma Encoded1(r: Rune)
    requires r < 0x80
    ensures |Encode(r)| == 1
  {
  }

  lemma EscapeSize(s: Bytes)
    requires s != []
    ensures |EncodeAll(Escape(Value(First(s))))| <= 4 * Width(s)
  {
    var r := Value(First(s));
    var e := Escape(r);
    if Control(r) {
      assert Width(s) == 1;
      assert e[1..][1..][1..][1..] == [];
      Encoded1(e[0]); Encoded1(e[1]); Encoded1(e[2]); Encoded1(e[3]);
      EncodeAllAppend([e[0], e[1]], [e[2], e[3]]);
      EncodeAllAppend([e[0]], [e[1]]);
      EncodeAllAppend([e[2]], [e[3]]);
      assert e == [e[0], e[1]] + [e[2], e[3]];
      assert [e[0], e[1]] == [e[0]] + [e[1]] && [e[2], e[3]] == [e[2]] + [e[3]];
      Single(e[0]); Single(e[1]); Single(e[2]); Single(e[3]);
    } else if Bidi(r) {
      assert Width(s) == 3;
      var a, b := e[..3], e[3..];
      assert e == a + b;
      EncodeAllAppend(a, b);
      Triple(a);
      Triple(b);
    } else {
      Single(r);
      if First(s).Good? { FirstEncoded(s); } else { assert |Encode(RUNE_ERROR)| == 3; }
    }
  }

  lemma Single(r: Rune)
    ensures EncodeAll([r]) == Encode(r)
  {
    assert EncodeAll([r][1..]) == [];
  }

  lemma Triple(a: seq<Rune>)
    requires |a| == 3
    ensures |EncodeAll(a)| <= 12
    ensures (forall x :: x in a ==> x < 0x80) ==> |EncodeAll(a)| == 3
  {
    assert a == [a[0]] + ([a[1]] + [a[2]]);
    EncodeAllAppend([a[0]], [a[1]] + [a[2]]);
    EncodeAllAppend([a[1]], [a[2]]);
    Single(a[0]); Single(a[1]); Single(a[2]);
    assert a[0] in a && a[1] in a && a[2] in a;
  }

  lemma {:induction false} SanitizedSize(s: Bytes)
    ensures |Sanitized(s)| <= 4 * |s|
    decreases |s|
  {
    if s != [] {
      SanitizedStep(s);
      EscapeSize(s);
      SanitizedSize(s[Width(s)..]);
    }
  }

  /** Sanitizing commutes with a cut in front of a rune start, well-formed or not. */
  lemma SanitizedSplit(a: Bytes, b: Bytes)
    requires b == [] || RuneStart(b[0])
    ensures Sanitized(a + b) == Sanitized(a) + Sanitized(b)
  {
    TokensSplit(a, b);
    var va, vb := Values(Tokens(a)), Values(Tokens(b));
    assert Values(Tokens(a + b)) == va + vb;
    EscapeAllAppend(va, vb);
    EncodeAllAppend(EscapeAll(va), EscapeAll(vb));
  }

  lemma {:induction false} EscapeAllAppend(a: seq<Rune>, b: seq<Rune>)
    ensures EscapeAll(a + b) == EscapeAll(a) + EscapeAll(b)
  {
    if a == [] {
      assert a + b == b;
    } else {
      assert (a + b)[1..] == a[1..] + b;
      EscapeAllAppend(a[1..], b);
    }
  }

  lemma EllipsisSanitized()
    ensures Sanitized(ELLIPSIS) == ELLIPSIS
  {
    assert Well3(ELLIPSIS) && Width(ELLIPSIS) == 3;
    SanitizedStep(ELLIPSIS);
    FirstEncoded(ELLIPSIS);
    Single(First(ELLIPSIS).r);
    assert ELLIPSIS[3..] == [];
  }

  // ---- Preview ----

  /** The cut is the last rune start at or below the limit (0 when there is none). */
  ghost predicate IsCut(s: Bytes, cut: nat)
    requires |s| > PREVIEW_LIMIT
  {
    && cut <= 200
    && (cut > 0 ==> !(0x80 <= s[cut] <= 0xBF))
    && forall k :: cut < k <= 200 ==> 0x80 <= s[k] <= 0xBF
  }

  ghost predicate IsPreview(s: Bytes, p: Bytes) {
    if |s| <= 200 then p == s
    else exists cut: nat :: IsCut(s, cut) && p == s[..cut] + [0xE2, 0x80, 0xA6]
  }

  method Preview(s: Bytes) returns (p: Bytes)
    ensures IsPreview(s, p)
  {
    if |s| <= PREVIEW_LIMIT {
      return s;
    }
    var cut := PREVIEW_LIMIT;
    while cut > 0 && !RuneStart(s[cut])
      invariant 0 <= cut <= PREVIEW_LIMIT
      invariant forall k :: cut < k <= PREVIEW_LIMIT ==> Cont(s[k])
    {
      cut := cut - 1;
    }
    assert IsCut(s, cut);
    p := s[..cut] + ELLIPSIS;
  }

  lemma PreviewDeterministic(s: Bytes, p: Bytes, q: Bytes)
    requires IsPreview(s, p) && IsPreview(s, q)
    ensures p == q
  {
    if |s| > PREVIEW_LIMIT {
      var i: nat :| IsCut(s, i) && p == s[..i] + ELLIPSIS;
      var j: nat :| IsCut(s, j) && q == s[..j] + ELLIPSIS;
      assert i == j;
    }
  }

  /** On well-formed text a cut keeps 197 to 200 bytes, and what it keeps is well-formed. */
  lemma PreviewOfValid(s: Bytes, cut: nat)
    requires Valid(s) && |s| > PREVIEW_LIMIT && IsCut(s, cut)
    ensures 197 <= cut <= 200
    ensures Valid(s[..cut])
  {
    var j := RuneStartNearby(s, PREVIEW_LIMIT);
    assert j <= cut;
    PrefixValid(s, cut);
  }

  /** Whatever the child wrote, the rendered preview takes at most 803 bytes. */
  lemma PreviewBound(s: Bytes, p: Bytes)
    requires IsPreview(s, p)
    ensures |Sanitized(p)| <= 4 * PREVIEW_LIMIT + 3
  {
    if |s| <= PREVIEW_LIMIT {
      SanitizedSize(s);
    } else {
      var cut: nat :| IsCut(s, cut) && p == s[..cut] + ELLIPSIS;
      SanitizedSplit(s[..cut], ELLIPSIS);
      SanitizedSize(s[..cut]);
      EllipsisSanitized();
    }
  }

  /** The bound is tight: a run of more than 200 escape characters renders to 803 bytes. */
  lemma BoundIsReached(s: Bytes, p: Bytes)
    requires |s| > PREVIEW_LIMIT && IsPreview(s, p)
    requires forall i :: 0 <= i < |s| ==> s[i] == 27
    ensures |Sanitized(p)| == 803
  {
    hide Sanitized;
    var cut: nat :| IsCut(s, cut) && p == s[..cut] + ELLIPSIS;
    CutAtOnce(s, cut);
    EscapesRendered(s[..PREVIEW_LIMIT]);
  }

  lemma CutAtOnce(s: Bytes, cut: nat)
    requires |s| > PREVIEW_LIMIT && IsCut(s, cut) && s[PREVIEW_LIMIT] == 27
    ensures cut == PREVIEW_LIMIT
  {
    assert RuneStart(s[PREVIEW_LIMIT]);
  }

  lemma EscapesRendered(s: Bytes)
    requires |s| == PREVIEW_LIMIT && forall i :: 0 <= i < |s| ==> s[i] == 27
    ensures |Sanitized(s + ELLIPSIS)| == 803
  {
    hide Sanitized;
    SanitizedSplit(s, ELLIPSIS);
    EllipsisSanitized();
    EscapesOnly(s);
  }

  lemma {:induction false} EscapesOnly(s: Bytes)
    requires forall i :: 0 <= i < |s| ==> s[i] == 27
    ensures |Sanitized(s)| == 4 * |s|
  {
    if s != [] {
      SanitizedStep(s);
      var e := Escape(27);
      EncodeAllAppend([e[0]], e[1..]);
      assert e == [e[0]] + e[1..];
      Single(e[0]);
      Triple(e[1..]);
      EscapesOnly(s[1..]);
    }
  }

  // ---- Diagnostic ----

  predicate Space(r: Rune) {
    || 9 <= r <= 13 || r == 32 || r == 0x85 || r == 0xA0 || r == 0x1680
    || 0x2000 <= r <= 0x200A || r == 0x2028 || r == 0x2029 || r == 0x202F || r == 0x205F || r == 0x3000
  }

  function TrimLeftSpace(s: Bytes): Bytes {
    if s != [] && First(s).Good? && Space(First(s).r) then TrimLeftSpace(s[Width(s)..]) else s
  }

  /** `s` ends in the encoding of a space of `w` bytes. */
  predicate EndsInSpace(s: Bytes, w: nat) {
    && 0 < w <= |s|
    && var tail := s[|s| - w..];
       First(tail).Good? && Width(tail) == w && Space(First(tail).r)
  }

  function TrimRightSpace(s: Bytes): Bytes {
    if EndsInSpace(s, 1) then TrimRightSpace(s[..|s| - 1])
    else if EndsInSpace(s, 2) then TrimRightSpace(s[..|s| - 2])
    else if EndsInSpace(s, 3) then TrimRightSpace(s[..|s| - 3])
    else s
  }

  /** strings.TrimSpace. */
  function TrimSpace(s: Bytes): Bytes { TrimRightSpace(TrimLeftSpace(s)) }

  lemma SpaceIs(r: Rune)
    ensures Space(r) <==>
              r in {9, 10, 11, 12, 13, 32, 0x85, 0xA0, 0x1680, 0x2000, 0x2001, 0x2002, 0x2003, 0x2004, 0x2005,
                    0x2006, 0x2007, 0x2008, 0x2009, 0x200A, 0x2028, 0x2029, 0x202F, 0x205F, 0x3000}
    ensures Space(r) ==> |Encode(r)| <= 3
  {
  }

  ghost predicate AllSpaces(rs: seq<Rune>) { forall i :: 0 <= i < |rs| ==> Space(rs[i]) }

  lemma {:induction false} TrimLeftLaws(s: Bytes) returns (before: seq<Rune>)
    ensures AllSpaces(before) && s == EncodeAll(before) + TrimLeftSpace(s)
    ensures forall c: Rune :: Space(c) ==> !(Encode(c) <= TrimLeftSpace(s))
    decreases |s|
  {
    hide First, Width, Encode, Space, EncodeAll, AllSpaces;
    if s != [] && First(s).Good? && Space(First(s).r) {
      var rest := TrimLeftLaws(s[Width(s)..]);
      before := OneMoreBefore(s, rest, TrimLeftSpace(s));
    } else {
      before := [];
      NoSpaces(s);
      forall c: Rune | Space(c) ensures !(Encode(c) <= s) {
        if s != [] { DecodingStepIff(s, c); } else { NeverEmpty(c); }
      }
    }
  }

  lemma NeverEmpty(c: Rune)
    ensures |Encode(c)| > 0
  {
  }

  lemma NoSpaces(s: Bytes)
    ensures AllSpaces([]) && s == EncodeAll([]) + s == s + EncodeAll([])
  {
  }

  lemma OneMoreBefore(s: Bytes, rest: seq<Rune>, t: Bytes) returns (before: seq<Rune>)
    requires s != [] && First(s).Good? && Space(First(s).r)
    requires AllSpaces(rest) && s[Width(s)..] == EncodeAll(rest) + t
    ensures AllSpaces(before) && s == EncodeAll(before) + t
  {
    hide First, Width, Encode, Space;
    FirstEncoded(s);
    before := [First(s).r] + rest;
    assert before[1..] == rest && s == s[..Width(s)] + s[Width(s)..];
    assert EncodeAll(before) == Encode(First(s).r) + EncodeAll(rest);
  }

  /** The last scalar of the string, if it is a space. */
  lemma SpaceAtEnd(s: Bytes, w: nat)
    ensures EndsInSpace(s, w) ==>
              var c := First(s[|s| - w..]).r; Space(c) && s[|s| - w..] == Encode(c) && |Encode(c)| == w
    ensures forall c: Rune :: Space(c) && 0 < w <= |s| && s[|s| - w..] == Encode(c) ==> EndsInSpace(s, w)
  {
    hide First, Width, Encode, Space;
    if 0 < w <= |s| {
      var tail := s[|s| - w..];
      if EndsInSpace(s, w) { FirstEncoded(tail); }
      forall c: Rune | Space(c) && tail == Encode(c) ensures EndsInSpace(s, w) { DecodingStepIff(tail, c); }
    }
  }

  lemma {:induction false} TrimRightLaws(s: Bytes) returns (after: seq<Rune>)
    ensures AllSpaces(after) && s == TrimRightSpace(s) + EncodeAll(after)
    ensures forall c: Rune :: Space(c) ==> var t := TrimRightSpace(s);
              !(|Encode(c)| <= |t| && t[|t| - |Encode(c)|..] == Encode(c))
    decreases |s|
  {
    hide EndsInSpace, Space, Encode, First, Width, AllSpaces, EncodeAll;
    var w := if EndsInSpace(s, 1) then 1 else if EndsInSpace(s, 2) then 2 else if EndsInSpace(s, 3) then 3 else 0;
    if w > 0 {
      WidthFits(s, w);
      var rest := TrimRightLaws(s[..|s| - w]);
      after := OneMoreAfter(s, w, rest, TrimRightSpace(s));
    } else {
      after := [];
      NoSpaces(s);
      forall c: Rune | Space(c) ensures !(|Encode(c)| <= |s| && s[|s| - |Encode(c)|..] == Encode(c)) {
        SpaceIs(c);
        NeverEmpty(c);
        SpaceAtEnd(s, |Encode(c)|);
      }
    }
  }

  lemma OneMoreAfter(s: Bytes, w: nat, rest: seq<Rune>, t: Bytes) returns (after: seq<Rune>)
    requires EndsInSpace(s, w) && w <= |s| && AllSpaces(rest) && s[..|s| - w] == t + EncodeAll(rest)
    ensures AllSpaces(after) && s == t + EncodeAll(after)
  {
    hide EndsInSpace, Space, Encode, First, Width, EncodeAll;
    SpaceAtEnd(s, w);
    WidthFits(s, w);
    var c := First(s[|s| - w..]).r;
    after := rest + [c];
    EncodeAllAppend(rest, [c]);
    Single(c);
    assert s == s[..|s| - w] + Encode(c);
    assert t + EncodeAll(rest) + Encode(c) == t + (EncodeAll(rest) + Encode(c));
  }

  lemma WidthFits(s: Bytes, w: nat)
    ensures EndsInSpace(s, w) ==> 0 < w <= |s| && First(s[|s| - w..]).Good?
  {
  }

  /** strings.TrimSpace takes white space off both ends, all of it and nothing else. */
  lemma TrimSpaceLaws(s: Bytes) returns (before: seq<Rune>, after: seq<Rune>)
    ensures AllSpaces(before) && AllSpaces(after)
    ensures s == EncodeAll(before) + TrimSpace(s) + EncodeAll(after)
    ensures forall c: Rune :: Space(c) ==> var t := TrimSpace(s);
              !(Encode(c) <= t) && !(|Encode(c)| <= |t| && t[|t| - |Encode(c)|..] == Encode(c))
  {
    hide Encode, Space, EndsInSpace, TrimLeftSpace, TrimRightSpace, AllSpaces;
    before := TrimLeftLaws(s);
    var x := TrimLeftSpace(s);
    after := TrimRightLaws(x);
    assert EncodeAll(before) + (TrimRightSpace(x) + EncodeAll(after))
        == EncodeAll(before) + TrimRightSpace(x) + EncodeAll(after);
    forall c: Rune | Space(c) ensures !(Encode(c) <= TrimRightSpace(x)) {
      assert TrimRightSpace(x) <= x;
    }
  }

  /** The stream that is previewed is stderr unless it is blank, else stdout. */
  method Diagnostic(stderr: Bytes, stdout: Bytes) returns (d: Bytes)
    ensures |d| <= 803 && QuietBytes(d) && Valid(d)
    ensures forall t :: t in Tokens(d) ==> t.Good? && Safe(t.r)
    ensures Sanitized(d) == d
    ensures var text := if TrimSpace(stderr) != [] then TrimSpace(stderr) else TrimSpace(stdout);
            (exists p :: IsPreview(text, p) && d == Sanitized(p)) && (d == [] <==> text == [])
  {
    var s := TrimSpace(stderr);
    if s == [] {
      s := TrimSpace(stdout);
    }
    if s == [] {
      d := [];
      assert IsPreview(s, s) && Sanitized(s) == [];
      return;
    }
    var p := Preview(s);
    d := Sanitize(p);
    SanitizeLaws(p);
    PreviewBound(s, p);
    NeverBlank(p);
  }

  lemma NeverBlank(s: Bytes)
    ensures s != [] ==> Sanitized(s) != []
  {
    if s != [] {
      SanitizedStep(s);
      assert |Escape(Value(First(s)))| >= 1;
    }
  }
}
