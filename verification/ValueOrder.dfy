// compareCS (internal/exec/exec.go) orders the non-NULL values of one kind.
module ValueOrder {
  import opened Option
  import opened Fold

  lemma {:induction false} TextOrder(a: string, b: string)
    ensures CompareText(b, a) == -CompareText(a, b) && -1 <= CompareText(a, b) <= 1
  {
    if a != [] && b != [] && a[0] == b[0] { TextOrder(a[1..], b[1..]); }
  }

  lemma {:induction false} TextTransitive(a: string, b: string, c: string)
    requires CompareText(a, b) <= 0 && CompareText(b, c) <= 0
    ensures CompareText(a, c) <= 0
    ensures CompareText(a, b) < 0 || CompareText(b, c) < 0 ==> CompareText(a, c) < 0
  {
    if a != [] && b != [] && c != [] && a[0] == b[0] == c[0] { TextTransitive(a[1..], b[1..], c[1..]); }
  }

  // Three values of one kind, none NULL, are ordered by compareCS.
  ghost predicate OrderedValues(coerce: Coercion, exact: bool, a: Value, b: Value, c: Value) {
    var ab, bc := Compare(coerce, a, b, exact), Compare(coerce, b, c, exact);
    var ac, ba := Compare(coerce, a, c, exact), Compare(coerce, b, a, exact);
    && ab.Some? && bc.Some? && ac.Some? && ba == Some(-ab.value)
    && (ab.value <= 0 && bc.value <= 0 ==> ac.value <= 0 && (ab.value < 0 || bc.value < 0 ==> ac.value < 0))
    && (ab.value >= 0 && bc.value >= 0 ==> ac.value >= 0 && (ab.value > 0 || bc.value > 0 ==> ac.value > 0))
  }

  lemma ValuesOrdered(coerce: Coercion, exact: bool, a: Value, b: Value, c: Value)
    requires SameKind(a, b) && SameKind(b, c)
    ensures OrderedValues(coerce, exact, a, b, c)
  {
    hide OrderedValues, Compare;
    if a.Str? { StringsOrdered(coerce, exact, a, b, c); } else { NumbersOrdered(coerce, exact, a, b, c); }
  }

  lemma NumbersOrdered(coerce: Coercion, exact: bool, a: Value, b: Value, c: Value)
    requires SameKind(a, b) && SameKind(b, c) && !a.Str?
    ensures OrderedValues(coerce, exact, a, b, c)
  {
    if a.Int? {
      assert Compare(coerce, a, b, exact) == Some(CompareInt(a.i, b.i));
    }
  }

  lemma StringsOrdered(coerce: Coercion, exact: bool, a: Value, b: Value, c: Value)
    requires a.Str? && b.Str? && c.Str?
    ensures OrderedValues(coerce, exact, a, b, c)
  {
    hide CompareText, Pad, Key;
    var x, y, z := Text(a.s, exact), Text(b.s, exact), Text(c.s, exact);
    assert Compare(coerce, a, b, exact) == Some(CompareText(x, y)) &&
      Compare(coerce, b, c, exact) == Some(CompareText(y, z));
    assert Compare(coerce, a, c, exact) == Some(CompareText(x, z)) &&
      Compare(coerce, b, a, exact) == Some(CompareText(y, x));
    TextOrder(x, y);
    TextOrder(y, z);
    TextOrder(x, z);
    if CompareText(x, y) <= 0 && CompareText(y, z) <= 0 { TextTransitive(x, y, z); }
    if CompareText(z, y) <= 0 && CompareText(y, x) <= 0 { TextTransitive(z, y, x); }
  }

  function Text(s: string, exact: bool): string { if exact then Pad(s) else Key(Pad(s)) }
}
