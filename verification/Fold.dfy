// The value domain and the default string collation (internal/fold/fold.go), with the
// comparison the evaluator builds on it (compareCS in internal/exec/exec.go).

module Option {
  datatype Option<+T> = None | Some(value: T)
}

module Fold {
  import opened Option

  // Column values of the kinds whose comparison needs no conversion; Null is SQL NULL.
  datatype Value = Null | Int(i: int) | Str(s: string) | Bool(b: bool)

  type Row = seq<Value>

  function Lower(c: char): char {
    if 'A' <= c <= 'Z' then c + ('a' - 'A') else c
  }

  // Key folds ASCII letters to lower case and leaves everything else alone.
  function Key(s: string): (k: string)
    ensures |k| == |s|
    ensures forall i :: 0 <= i < |s| ==> k[i] == Lower(s[i])
  {
    seq(|s|, i requires 0 <= i < |s| => Lower(s[i]))
  }

  // Pad drops trailing blanks: strings compare as if the shorter were blank-padded.
  function Pad(s: string): (p: string)
    ensures p <= s
    ensures p != [] ==> p[|p| - 1] != ' '
    ensures forall i :: |p| <= i < |s| ==> s[i] == ' '
  {
    if s != [] && s[|s| - 1] == ' ' then Pad(s[..|s| - 1]) else s
  }

  function CompareText(a: string, b: string): int {
    if a == [] then (if b == [] then 0 else -1)
    else if b == [] then 1
    else if a[0] != b[0] then (if a[0] < b[0] then -1 else 1)
    else CompareText(a[1..], b[1..])
  }

  lemma {:induction false} CompareTextIsEquality(a: string, b: string)
    ensures CompareText(a, b) == 0 <==> a == b
  {
    if a != [] && b != [] && a[0] == b[0] {
      CompareTextIsEquality(a[1..], b[1..]);
      assert a == [a[0]] + a[1..] && b == [b[0]] + b[1..];
    }
  }

  function CompareInt(a: int, b: int): int {
    if a < b then -1 else if a > b then 1 else 0
  }

  // Coercion compares operands of two different kinds; SQL Server's implicit conversions are
  // library calls, so every theorem holds for whatever they answer.
  type Coercion = (Value, Value, bool) -> Option<int>

  predicate SameKind(a: Value, b: Value) {
    (a.Int? && b.Int?) || (a.Str? && b.Str?) || (a.Bool? && b.Bool?)
  }

  // compareCS: NULL is unordered, strings fold unless exact, anything mixed goes to the coercion.
  function Compare(coerce: Coercion, a: Value, b: Value, exact: bool): Option<int> {
    match (a, b)
    case (Null, _) => None
    case (_, Null) => None
    case (Int(x), Int(y)) => Some(CompareInt(x, y))
    case (Bool(x), Bool(y)) => Some(if x == y then 0 else if !x then -1 else 1)
    case (Str(x), Str(y)) =>
      Some(if exact then CompareText(Pad(x), Pad(y)) else CompareText(Key(Pad(x)), Key(Pad(y))))
    case _ => coerce(a, b, exact)
  }

  // Equality found by either collation is found by the folding one with the operands swapped.
  lemma EqualEitherWay(coerce: Coercion, a: Value, b: Value, exact: bool)
    requires SameKind(a, b)
    requires Compare(coerce, a, b, exact) == Some(0)
    ensures Compare(coerce, b, a, false) == Some(0)
  {
    if a.Str? {
      var x, y := Pad(a.s), Pad(b.s);
      CompareTextIsEquality(x, y);
      CompareTextIsEquality(Key(x), Key(y));
      CompareTextIsEquality(Key(y), Key(x));
    }
  }
}
