/** Byte strings: a Go `string` or `[]byte` is a sequence of bytes, text or not. */
module Bytes {
  type Byte = b: int | 0 <= b < 256

  type Bytes = seq<Byte>

  const NL: Byte := 10
  const CR: Byte := 13

  /** Concatenation of a sequence of byte strings. */
  function Concat(parts: seq<Bytes>): Bytes {
    if parts == [] then [] else parts[0] + Concat(parts[1..])
  }

  lemma ConcatIs(parts: seq<Bytes>)
    ensures Concat(parts) == if parts == [] then [] else parts[0] + Concat(parts[1..])
  {
  }

  lemma BytesAssoc(a: Bytes, b: Bytes, c: Bytes)
    ensures a + (b + c) == a + b + c
  {
  }

  lemma {:induction false} ConcatAppend(a: seq<Bytes>, b: seq<Bytes>)
    ensures Concat(a + b) == Concat(a) + Concat(b)
  {
    hide Concat;
    ConcatIs(a);
    if a == [] {
      assert a + b == b;
    } else {
      ConcatIs(a + b);
      assert (a + b)[0] == a[0] && (a + b)[1..] == a[1..] + b;
      ConcatAppend(a[1..], b);
      BytesAssoc(a[0], Concat(a[1..]), Concat(b));
    }
  }

  lemma ConcatSnoc(a: seq<Bytes>, x: Bytes)
    ensures Concat(a + [x]) == Concat(a) + x
  {
    ConcatAppend(a, [x]);
    assert Concat([x]) == x + Concat([]);
  }

  /** Index of the first `b` in `s`, or |s| when there is none. */
  function IndexOf(s: Bytes, b: Byte): (i: nat)
    ensures i <= |s|
    ensures i < |s| ==> s[i] == b
    ensures forall j :: 0 <= j < i ==> s[j] != b
  {
    IndexFrom(s, b, 0)
  }

  function IndexFrom(s: Bytes, b: Byte, from: nat): (i: nat)
    requires from <= |s|
    ensures from <= i <= |s|
    ensures i < |s| ==> s[i] == b
    ensures forall j :: from <= j < i ==> s[j] != b
    decreases |s| - from
  {
    if from == |s| || s[from] == b then from else IndexFrom(s, b, from + 1)
  }

  lemma IndexOfIs(s: Bytes, b: Byte, i: nat)
    requires i <= |s|
    requires forall j :: 0 <= j < i ==> s[j] != b
    requires i < |s| ==> s[i] == b
    ensures IndexOf(s, b) == i
  {
  }
}
