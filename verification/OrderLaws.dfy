// Which row a sort puts first (the comparator of internal/exec/window.go).
module OrderLaws {
  import opened Option
  import opened Fold
  import opened ValueOrder
  import opened Tds
  import opened Exec
  import opened Comparisons
  import opened WindowKeys

  // ORDER BY over numbers: the smaller first, the larger first under DESC.
  lemma NumbersInOrder(coerce: Coercion, exact: bool, a: int, b: int)
    ensures Less(coerce, [Term(false, exact)], [Int(a)], [Int(b)]) <==> a < b
    ensures Less(coerce, [Term(true, exact)], [Int(a)], [Int(b)]) <==> a > b
  {
  }

  // Over text, as it reads.
  lemma TextInOrder(coerce: Coercion, exact: bool, x: string, y: string, a: string, b: string)
    requires Reads(x, exact, a) && Reads(y, exact, b)
    ensures Less(coerce, [Term(false, exact)], [Str(x)], [Str(y)]) <==> Earlier(a, b)
    ensures Less(coerce, [Term(true, exact)], [Str(x)], [Str(y)]) <==> Earlier(b, a)
  {
    hide Reads, Earlier, CompareText, Pad, Key;
    ReadsAs(x, exact);
    ReadsAs(y, exact);
    ReadsOnce(x, exact, a, if exact then Pad(x) else Key(Pad(x)));
    ReadsOnce(y, exact, b, if exact then Pad(y) else Key(Pad(y)));
    CompareTextDecides(a, b);
  }

  // A later column counts where the earlier ones put neither row first; a NULL beside anything is such a column.
  lemma FirstColumnDecides(coerce: Coercion, t: Term, x: Value, y: Value, order: seq<Term>, a: SortKey, b: SortKey)
    requires |a| == |b| == |order| && (x == Null || y == Null || SameKind(x, y))
    ensures Less(coerce, [t] + order, [x] + a, [y] + b) <==>
      || Less(coerce, [t], [x], [y])
      || (!Less(coerce, [t], [y], [x]) && Less(coerce, order, a, b))
  {
    assert ([t] + order)[1..] == order && ([x] + a)[1..] == a && ([y] + b)[1..] == b;
    assert [t][1..] == [] && [x][1..] == [] && [y][1..] == [];
    if SameKind(x, y) { CompareSign(coerce, x, y, t.exact); }
  }

  // DESC on a column is the other way round.
  lemma DescTurnsRound(coerce: Coercion, exact: bool, x: Value, y: Value)
    requires x == Null || y == Null || SameKind(x, y)
    ensures Less(coerce, [Term(true, exact)], [x], [y]) <==> Less(coerce, [Term(false, exact)], [y], [x])
  {
    if SameKind(x, y) { CompareSign(coerce, x, y, exact); }
  }

  lemma CompareSign(coerce: Coercion, x: Value, y: Value, exact: bool)
    requires SameKind(x, y)
    ensures var c, d := Compare(coerce, x, y, exact), Compare(coerce, y, x, exact);
      c.Some? && d.Some? && (c.value < 0 <==> d.value > 0) && (c.value > 0 <==> d.value < 0)
  {
    hide CompareText, Pad, Key;
    if x.Str? {
      var a, b := if exact then Pad(x.s) else Key(Pad(x.s)), if exact then Pad(y.s) else Key(Pad(y.s));
      CompareTextDecides(a, b);
      CompareTextDecides(b, a);
    }
  }
}
