/** JSON strings as encoding/json writes them, HTML escaping included (section 7 of RFC 8259), and
    the replay key of a cassette, which is a JSON text (processkittest/cassette.go:348-355). */
module JsonText {
  import opened Bytes
  import opened Utf8

  /** JSON text, as a sequence of scalars. */
  type Text = seq<Rune>

  const QUOTE: Rune := '"' as int
  const COMMA: Rune := ',' as int
  const OPEN: Rune := '[' as int
  const CLOSE: Rune := ']' as int

  // ---- Strings ----

  function HexDigit(d: int): Rune
    requires 0 <= d < 16
  {
    if d < 10 then '0' as int + d else 'a' as int + (d - 10)
  }

  function Hex4(r: int): Text
    requires 0 <= r < 0x10000
  {
    var h := r / 16;
    var g := h / 16;
    [HexDigit(g / 16), HexDigit(g % 16), HexDigit(h % 16), HexDigit(r % 16)]
  }

  /** The letter of a two-character escape, when there is one. */
  function Letter(r: Rune): Rune {
    if r == 8 then 'b' as int
    else if r == 12 then 'f' as int
    else if r == 10 then 'n' as int
    else if r == 13 then 'r' as int
    else if r == 9 then 't' as int
    else r
  }

  predicate TwoChar(r: Rune) { r in {QUOTE, BACKSLASH, 8, 9, 10, 12, 13} }

  predicate SixChar(r: Rune) {
    (r < 0x20 && !TwoChar(r)) || r in {'<' as int, '>' as int, '&' as int, 0x2028, 0x2029}
  }

  function EscapeToken(t: Token): (s: Text)
    ensures s != []
  {
    match t
    case Bad => [BACKSLASH, 'u' as int] + Hex4(0xFFFD)
    case Good(r) =>
      if TwoChar(r) then [BACKSLASH, Letter(r)]
      else if SixChar(r) then [BACKSLASH, 'u' as int] + Hex4(r)
      else [r]
  }

  function Of(c: char): Rune
    requires c < 128 as char
  {
    c as int
  }

  /** Four lower-case hexadecimal digits. */
  function Digits(r: int): Text
    requires 0 <= r < 0x10000
  {
    var hex := "0123456789abcdef";
    [Of(hex[r / 4096]), Of(hex[r / 256 % 16]), Of(hex[r / 16 % 16]), Of(hex[r % 16])]
  }

  lemma Hex4IsDigits(r: int)
    requires 0 <= r < 0x10000
    ensures Hex4(r) == Digits(r)
  {
    var h := r / 16;
    assert h / 16 == r / 256 && h / 16 / 16 == r / 4096 && h % 16 == r / 16 % 16;
    DigitIs(r / 4096);
    DigitIs(r / 256 % 16);
    DigitIs(r / 16 % 16);
    DigitIs(r % 16);
    hide HexDigit, Of;
  }

  lemma DigitIs(d: int)
    requires 0 <= d < 16
    ensures HexDigit(d) == Of("0123456789abcdef"[d])
  {
  }

  /** What must be escaped by six characters: an ill-formed byte, as U+FFFD, what HTML gives a meaning to,
      the two line separators and the control characters without a letter of their own. */
  ghost predicate ByNumber(r: Rune) {
    || r in {Of('<'), Of('>'), Of('&'), 0x2028, 0x2029}
    || (r < 0x20 && r !in {8, 9, 10, 12, 13})
  }

  /** How each character is written. */
  lemma EscapesAre(t: Token)
    ensures t.Bad? ==> EscapeToken(t) == [Of('\\'), Of('u'), Of('f'), Of('f'), Of('f'), Of('d')]
    ensures t.Good? && t.r in {Of('"'), Of('\\')} ==> EscapeToken(t) == [Of('\\'), t.r]
    ensures t.Good? && ByNumber(t.r) ==> t.r < 0x10000 && EscapeToken(t) == [Of('\\'), Of('u')] + Digits(t.r)
    ensures t.Good? && t.r >= 0x20 && t.r !in {Of('"'), Of('\\')} && !ByNumber(t.r) ==> EscapeToken(t) == [t.r]
  {
    hide EscapeToken, ByNumber, Digits;
    if t.Bad? {
      BadEscaped();
    } else {
      if ByNumber(t.r) { NumberEscaped(t.r); }
      OthersEscaped(t.r);
    }
  }

  lemma BadEscaped()
    ensures EscapeToken(Bad) == [Of('\\'), Of('u'), Of('f'), Of('f'), Of('f'), Of('d')]
  {
    Hex4IsDigits(0xFFFD);
    assert Digits(0xFFFD) == [Of('f'), Of('f'), Of('f'), Of('d')];
    hide Hex4, Digits;
  }

  lemma NumberEscaped(r: Rune)
    requires ByNumber(r)
    ensures r < 0x10000 && EscapeToken(Good(r)) == [Of('\\'), Of('u')] + Digits(r)
  {
    hide Hex4, Digits;
    Hex4IsDigits(r);
  }

  lemma OthersEscaped(r: Rune)
    ensures r in {Of('"'), Of('\\')} ==> EscapeToken(Good(r)) == [Of('\\'), r]
    ensures r >= 0x20 && r !in {Of('"'), Of('\\')} && !ByNumber(r) ==> EscapeToken(Good(r)) == [r]
  {
    hide Hex4;
  }

  lemma EscapedByLetter()
    ensures EscapeToken(Good(8)) == [Of('\\'), Of('b')] && EscapeToken(Good(9)) == [Of('\\'), Of('t')]
    ensures EscapeToken(Good(10)) == [Of('\\'), Of('n')] && EscapeToken(Good(12)) == [Of('\\'), Of('f')]
    ensures EscapeToken(Good(13)) == [Of('\\'), Of('r')]
  {
  }

  /** The encoder appends: what is written next is `rest`. */
  function EscapeOnto(ts: seq<Token>, rest: Text): Text {
    if ts == [] then rest else EscapeToken(ts[0]) + EscapeOnto(ts[1..], rest)
  }

  function QuoteOnto(ts: seq<Token>, rest: Text): Text { [QUOTE] + EscapeOnto(ts, [QUOTE] + rest) }

  // ---- Reading a string back ----

  function HexValue(c: Rune): int { if c <= '9' as int then c - '0' as int else c - 'a' as int + 10 }

  function Unletter(c: Rune): Rune {
    if c == 'b' as int then 8
    else if c == 'f' as int then 12
    else if c == 'n' as int then 10
    else if c == 'r' as int then 13
    else if c == 't' as int then 9
    else c
  }

  /** The escape or plain scalar at the front; U+FFFD is only ever escaped for an ill-formed byte. */
  function Front(s: Text): (Token, nat)
    requires s != []
  {
    if s[0] != BACKSLASH || |s| == 1 then (Good(s[0]), 1)
    else if s[1] != 'u' as int || |s| < 6 then (Good(Unletter(s[1])), 2)
    else
      var v := HexValue(s[2]) * 4096 + HexValue(s[3]) * 256 + HexValue(s[4]) * 16 + HexValue(s[5]);
      (if v == 0xFFFD || v < 0 || v > 0x10FFFF || 0xD800 <= v <= 0xDFFF then Bad else Good(v), 6)
  }

  lemma HexRead(r: int)
    requires 0 <= r < 0x10000
    ensures var h := Hex4(r);
            HexValue(h[0]) * 4096 + HexValue(h[1]) * 256 + HexValue(h[2]) * 16 + HexValue(h[3]) == r
  {
    var h := r / 16;
    var g := h / 16;
    assert r == 16 * h + r % 16 && h == 16 * g + h % 16 && g == 16 * (g / 16) + g % 16;
  }

  lemma FrontOfToken(t: Token, rest: Text)
    ensures Front(EscapeToken(t) + rest) == (t, |EscapeToken(t)|)
    ensures EscapeToken(t)[0] != QUOTE
  {
    var s := EscapeToken(t) + rest;
    if t.Bad? || SixChar(t.r) {
      var v := if t.Bad? then 0xFFFD else t.r;
      HexRead(v);
      assert t.Good? ==> !TwoChar(t.r);
      assert s[2..6] == Hex4(v);
      assert s[2] == Hex4(v)[0] && s[3] == Hex4(v)[1] && s[4] == Hex4(v)[2] && s[5] == Hex4(v)[3];
    }
  }

  /** The tokens up to the closing quote, and what follows it. */
  function ReadString(s: Text): (seq<Token>, Text) {
    if s == [] then ([], [])
    else if s[0] == QUOTE then ([], s[1..])
    else
      var (t, w) := Front(s);
      if w > |s| then ([], [])
      else
        var (ts, rest) := ReadString(s[w..]);
        ([t] + ts, rest)
  }

  /** A prefix code: the tokens and what follows the closing quote can be read back. */
  lemma {:induction false} ReadBack(ts: seq<Token>, rest: Text)
    ensures ReadString(EscapeOnto(ts, [QUOTE] + rest)) == (ts, rest)
  {
    if ts == [] {
      assert ([QUOTE] + rest)[1..] == rest;
    } else {
      var more := EscapeOnto(ts[1..], [QUOTE] + rest);
      FrontOfToken(ts[0], more);
      ReadBack(ts[1..], rest);
      assert (EscapeToken(ts[0]) + more)[|EscapeToken(ts[0])|..] == more;
      assert ts == [ts[0]] + ts[1..];
    }
  }

  function WriteField(s: Bytes): Text { QuoteOnto(Tokens(s), []) }

  /** An ill-formed byte has become U+FFFD. */
  function ReadField(text: Text): Bytes
    requires text != []
  {
    EncodeAll(Values(ReadString(text[1..]).0))
  }

  /** A byte string written to a JSON file and read back: itself exactly when it is UTF-8. */
  lemma FieldRoundTrip(s: Bytes)
    ensures ReadField(WriteField(s)) == Scrub(s)
    ensures ReadField(WriteField(s)) == s <==> Valid(s)
  {
    var ts := Tokens(s);
    assert WriteField(s)[1..] == EscapeOnto(ts, [QUOTE] + []);
    ReadBack(ts, []);
    ScrubFixesExactlyValid(s);
  }

  // ---- The replay key ----

  function MoreOnto(args: seq<seq<Token>>, rest: Text): Text {
    if args == [] then [CLOSE] + rest else [COMMA] + QuoteOnto(args[0], MoreOnto(args[1..], rest))
  }

  function ArgsOnto(args: seq<seq<Token>>, rest: Text): Text {
    if args == [] then [CLOSE] + rest else QuoteOnto(args[0], MoreOnto(args[1..], rest))
  }

  function KeyText(program: seq<Token>, args: seq<seq<Token>>, dir: seq<Token>): Text {
    [OPEN] + QuoteOnto(program, [COMMA] + ([OPEN] + ArgsOnto(args, [COMMA] + QuoteOnto(dir, [CLOSE]))))
  }

  function AllTokens(args: seq<Bytes>): (r: seq<seq<Token>>)
    ensures |r| == |args| && forall i :: 0 <= i < |args| ==> r[i] == Tokens(args[i])
  {
    seq(|args|, i requires 0 <= i < |args| => Tokens(args[i]))
  }

  /** keyOf */
  function KeyOf(program: Bytes, args: seq<Bytes>, dir: Bytes): Bytes {
    EncodeAll(KeyText(Tokens(program), AllTokens(args), Tokens(dir)))
  }

  lemma Uncons(c: Rune, x: Text, d: Rune, y: Text)
    requires [c] + x == [d] + y
    ensures c == d && x == y
  {
    assert ([c] + x)[0] == c && ([d] + y)[0] == d;
    assert ([c] + x)[1..] == x && ([d] + y)[1..] == y;
  }

  lemma QuoteDecodable(ts: seq<Token>, us: seq<Token>, x: Text, y: Text)
    requires QuoteOnto(ts, x) == QuoteOnto(us, y)
    ensures ts == us && x == y
  {
    hide EscapeOnto, ReadString;
    Uncons(QUOTE, EscapeOnto(ts, [QUOTE] + x), QUOTE, EscapeOnto(us, [QUOTE] + y));
    ReadBack(ts, x);
    ReadBack(us, y);
  }

  lemma {:induction false} MoreDecodable(a: seq<seq<Token>>, b: seq<seq<Token>>, x: Text, y: Text)
    requires MoreOnto(a, x) == MoreOnto(b, y)
    ensures a == b && x == y
  {
    hide QuoteOnto;
    assert MoreOnto(a, x)[0] == (if a == [] then CLOSE else COMMA);
    assert MoreOnto(b, y)[0] == (if b == [] then CLOSE else COMMA);
    if a == [] {
      Uncons(CLOSE, x, CLOSE, y);
    } else {
      var ra, rb := MoreOnto(a[1..], x), MoreOnto(b[1..], y);
      Uncons(COMMA, QuoteOnto(a[0], ra), COMMA, QuoteOnto(b[0], rb));
      QuoteDecodable(a[0], b[0], ra, rb);
      MoreDecodable(a[1..], b[1..], x, y);
      assert a == [a[0]] + a[1..] && b == [b[0]] + b[1..];
    }
  }

  lemma ArgsDecodable(a: seq<seq<Token>>, b: seq<seq<Token>>, x: Text, y: Text)
    requires ArgsOnto(a, x) == ArgsOnto(b, y)
    ensures a == b && x == y
  {
    assert ArgsOnto(a, x)[0] == (if a == [] then CLOSE else QUOTE);
    assert ArgsOnto(b, y)[0] == (if b == [] then CLOSE else QUOTE);
    if a == [] {
      Uncons(CLOSE, x, CLOSE, y);
    } else {
      QuoteDecodable(a[0], b[0], MoreOnto(a[1..], x), MoreOnto(b[1..], y));
      MoreDecodable(a[1..], b[1..], x, y);
      assert a == [a[0]] + a[1..] && b == [b[0]] + b[1..];
    }
  }

  lemma KeyTextDecodable(p: seq<Token>, a: seq<seq<Token>>, d: seq<Token>,
                         p': seq<Token>, a': seq<seq<Token>>, d': seq<Token>)
    requires KeyText(p, a, d) == KeyText(p', a', d')
    ensures p == p' && a == a' && d == d'
  {
    hide QuoteOnto, ArgsOnto;
    var z, z' := QuoteOnto(d, [CLOSE]), QuoteOnto(d', [CLOSE]);
    var y, y' := [OPEN] + ArgsOnto(a, [COMMA] + z), [OPEN] + ArgsOnto(a', [COMMA] + z');
    Uncons(OPEN, QuoteOnto(p, [COMMA] + y), OPEN, QuoteOnto(p', [COMMA] + y'));
    QuoteDecodable(p, p', [COMMA] + y, [COMMA] + y');
    Uncons(COMMA, y, COMMA, y');
    Uncons(OPEN, ArgsOnto(a, [COMMA] + z), OPEN, ArgsOnto(a', [COMMA] + z'));
    ArgsDecodable(a, a', [COMMA] + z, [COMMA] + z');
    Uncons(COMMA, z, COMMA, z');
    QuoteDecodable(d, d', [CLOSE], [CLOSE]);
  }

  lemma TextDecodable(a: Text, b: Text)
    requires EncodeAll(a) == EncodeAll(b)
    ensures a == b
  {
    DecodeEncode(a);
    DecodeEncode(b);
    assert forall i :: 0 <= i < |a| ==> Goods(a)[i] == Good(a[i]);
    assert forall i :: 0 <= i < |b| ==> Goods(b)[i] == Good(b[i]);
    assert |Goods(a)| == |Goods(b)|;
  }

  /** Two invocations share a key exactly when they decode alike, component by component. */
  lemma KeysAgree(p: Bytes, a: seq<Bytes>, d: Bytes, p': Bytes, a': seq<Bytes>, d': Bytes)
    ensures KeyOf(p, a, d) == KeyOf(p', a', d') <==>
              Tokens(p) == Tokens(p') && AllTokens(a) == AllTokens(a') && Tokens(d) == Tokens(d')
  {
    if KeyOf(p, a, d) == KeyOf(p', a', d') {
      TextDecodable(KeyText(Tokens(p), AllTokens(a), Tokens(d)), KeyText(Tokens(p'), AllTokens(a'), Tokens(d')));
      KeyTextDecodable(Tokens(p), AllTokens(a), Tokens(d), Tokens(p'), AllTokens(a'), Tokens(d'));
    }
  }

  ghost predicate AllValid(args: seq<Bytes>) { forall i :: 0 <= i < |args| ==> Valid(args[i]) }

  /** On UTF-8 the key is injective, whatever the other invocation is made of. */
  lemma KeyInjective(p: Bytes, a: seq<Bytes>, d: Bytes, p': Bytes, a': seq<Bytes>, d': Bytes)
    requires Valid(p) && AllValid(a) && Valid(d)
    ensures KeyOf(p, a, d) == KeyOf(p', a', d') <==> p == p' && a == a' && d == d'
  {
    KeysAgree(p, a, d, p', a', d');
    if KeyOf(p, a, d) == KeyOf(p', a', d') {
      TokensInjective(p, p');
      TokensInjective(d, d');
      SameArgs(a, a');
    }
  }

  // ---- Off UTF-8 ----

  /** The first ill-formed byte replaced by another one. */
  function Twin(s: Bytes): (t: Bytes)
    ensures |t| == |s|
  {
    if s == [] then []
    else if First(s).Bad? then [if s[0] == 0xFF then 0xFE else 0xFF] + s[1..]
    else s[..Width(s)] + Twin(s[Width(s)..])
  }

  lemma FrontAlone(s: Bytes)
    requires s != [] && First(s).Good?
    ensures First(s[..Width(s)]) == First(s) && Width(s[..Width(s)]) == Width(s)
  {
  }

  lemma ValidStep(s: Bytes)
    requires s != []
    ensures Valid(s) <==> First(s).Good? && Valid(s[Width(s)..])
  {
    var ts, rest := Tokens(s), Tokens(s[Width(s)..]);
    assert ts == [First(s)] + rest;
    assert First(s) in ts && forall t :: t in rest ==> t in ts;
  }

  lemma TwinOfBad(s: Bytes)
    requires s != [] && First(s).Bad?
    ensures Twin(s) != [] && First(Twin(s)) == Bad && Width(Twin(s)) == Width(s) == 1
    ensures Twin(s)[1..] == s[1..] && Twin(s) != s
  {
    assert Twin(s)[0] != s[0];
  }

  lemma TwinOfGood(s: Bytes)
    requires s != [] && First(s).Good?
    ensures Twin(s) != [] && First(Twin(s)) == First(s) && Width(Twin(s)) == Width(s)
    ensures Twin(s)[Width(s)..] == Twin(s[Width(s)..])
    ensures Twin(s) == s <==> Twin(s[Width(s)..]) == s[Width(s)..]
  {
    hide First, Width;
    var w := Width(s);
    FrontAlone(s);
    FirstLocal(s[..w], Twin(s[w..]));
    hide Twin;
    assert s == s[..w] + s[w..];
    DropFront(s[..w], Twin(s[w..]), w);
    assert s[..w][w..] == [];
    assert Twin(s[w..]) == [] + Twin(s[w..]);
  }

  /** The twin decodes alike, and differs exactly when there was an ill-formed byte to replace. */
  lemma {:induction false} TwinLaws(s: Bytes)
    ensures Tokens(Twin(s)) == Tokens(s) && (Twin(s) == s <==> Valid(s))
    decreases |s|
  {
    if s == [] {
    } else {
      hide *;
      ValidStep(s);
      TokensStep(s);
      TokensStep(Twin(s));
      if First(s).Bad? {
        TwinOfBad(s);
      } else {
        TwinOfGood(s);
        TwinLaws(s[Width(s)..]);
      }
    }
  }

  /** The key tells this program from every other one if and only if it is UTF-8. */
  lemma ProgramToldApartIff(p: Bytes, a: seq<Bytes>, d: Bytes)
    ensures (forall q :: KeyOf(q, a, d) == KeyOf(p, a, d) ==> q == p) <==> Valid(p)
  {
    hide KeyOf, Valid, Tokens, Twin;
    TwinLaws(p);
    KeysAgree(Twin(p), a, d, p, a, d);
    forall q | Valid(p) && KeyOf(q, a, d) == KeyOf(p, a, d) ensures q == p {
      KeysAgree(q, a, d, p, a, d);
      TokensInjective(p, q);
    }
  }

  /** Likewise for the directory. */
  lemma DirToldApartIff(p: Bytes, a: seq<Bytes>, d: Bytes)
    ensures (forall q :: KeyOf(p, a, q) == KeyOf(p, a, d) ==> q == d) <==> Valid(d)
  {
    hide KeyOf, Valid, Tokens, Twin;
    TwinLaws(d);
    KeysAgree(p, a, Twin(d), p, a, d);
    forall q | Valid(d) && KeyOf(p, a, q) == KeyOf(p, a, d) ensures q == d {
      KeysAgree(p, a, q, p, a, d);
      TokensInjective(d, q);
    }
  }

  /** And for the arguments, every one of which has to be. */
  lemma ArgsToldApartIff(p: Bytes, a: seq<Bytes>, d: Bytes)
    ensures (forall b :: KeyOf(p, b, d) == KeyOf(p, a, d) ==> b == a) <==> AllValid(a)
  {
    hide KeyOf, Valid, Tokens, Twin;
    forall i | 0 <= i < |a| && !Valid(a[i]) ensures exists b :: KeyOf(p, b, d) == KeyOf(p, a, d) && b != a {
      var b := a[i := Twin(a[i])];
      TwinLaws(a[i]);
      assert AllTokens(b) == AllTokens(a);
      KeysAgree(p, b, d, p, a, d);
      assert b[i] != a[i];
    }
    forall b | AllValid(a) && KeyOf(p, b, d) == KeyOf(p, a, d) ensures b == a {
      KeysAgree(p, b, d, p, a, d);
      SameArgs(a, b);
    }
  }

  lemma SameArgs(a: seq<Bytes>, b: seq<Bytes>)
    requires AllValid(a) && AllTokens(a) == AllTokens(b)
    ensures a == b
  {
    assert |a| == |AllTokens(a)| == |b|;
    forall i | 0 <= i < |a| ensures a[i] == b[i] {
      assert AllTokens(a)[i] == AllTokens(b)[i];
      TokensInjective(a[i], b[i]);
    }
  }

  /** The key identifies the whole invocation if and only if all of it is UTF-8. */
  lemma KeyIdentifiesIff(p: Bytes, a: seq<Bytes>, d: Bytes)
    ensures (forall p', a', d' :: KeyOf(p', a', d') == KeyOf(p, a, d) ==> p' == p && a' == a && d' == d)
            <==> Valid(p) && AllValid(a) && Valid(d)
  {
    hide KeyOf, Valid, AllValid;
    ProgramToldApartIff(p, a, d);
    ArgsToldApartIff(p, a, d);
    DirToldApartIff(p, a, d);
    forall p', a', d' | Valid(p) && AllValid(a) && Valid(d) && KeyOf(p', a', d') == KeyOf(p, a, d)
      ensures p' == p && a' == a && d' == d
    {
      KeyInjective(p, a, d, p', a', d');
    }
  }

  /** A collision: any two ill-formed bytes are one key. */
  lemma KeyCollision(args: seq<Bytes>, dir: Bytes)
    ensures KeyOf([0x80], args, dir) == KeyOf([0xFF], args, dir)
  {
    assert First([0x80]) == Bad && First([0xFF]) == Bad;
    assert Tokens([0x80]) == [Bad] + Tokens([0x80][1..]) == [Bad];
    assert Tokens([0xFF]) == [Bad] + Tokens([0xFF][1..]) == [Bad];
  }
}
