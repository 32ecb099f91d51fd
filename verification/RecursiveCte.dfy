// Recursive common table expressions (runRecursiveCTE in internal/engine/engine.go): the rows of the anchors,
// then those the recursive arms make of the last rows found, until there are none or the depth runs out.

module RecursiveCte {
  import opened Fold
  import opened Rows

  // A recursive arm, as it answers with the CTE's name standing for some rows.
  type Member = seq<Row> -> seq<Row>

  const MAX_DEPTH := 100

  // The arms in turn on the working rows.
  function Step(arms: seq<Member>, working: seq<Row>): seq<Row> {
    if arms == [] then [] else arms[0](working) + Step(arms[1..], working)
  }

  // The n-th generation.
  function Level(arms: seq<Member>, anchor: seq<Row>, n: nat): seq<Row> {
    if n == 0 then anchor else Step(arms, Level(arms, anchor, n - 1))
  }

  function Levels(arms: seq<Member>, anchor: seq<Row>, n: nat): seq<Row> {
    if n == 0 then [] else Levels(arms, anchor, n - 1) + Level(arms, anchor, n - 1)
  }

  // How many generations are kept: up to the first empty one after the anchor, and never more than 101.
  function Depth(arms: seq<Member>, anchor: seq<Row>, n: nat): nat
    requires n <= MAX_DEPTH
    decreases MAX_DEPTH - n
  {
    if n == MAX_DEPTH || Level(arms, anchor, n) == [] || Level(arms, anchor, n + 1) == [] then n
    else Depth(arms, anchor, n + 1)
  }

  function Result(arms: seq<Member>, anchor: seq<Row>): seq<Row> {
    Levels(arms, anchor, Depth(arms, anchor, 0) + 1)
  }

  lemma StepTurn(arms: seq<Member>, i: nat, working: seq<Row>)
    requires i < |arms|
    ensures Step(arms[..i + 1], working) == Step(arms[..i], working) + arms[i](working)
  {
    StepAppend(arms[..i], arms[i], working);
    assert arms[..i + 1] == arms[..i] + [arms[i]];
  }

  lemma {:induction false} StepAppend(arms: seq<Member>, last: Member, working: seq<Row>)
    ensures Step(arms + [last], working) == Step(arms, working) + last(working)
  {
    if arms == [] {
      assert [last][1..] == [] && arms + [last] == [last];
    } else {
      StepAppend(arms[1..], last, working);
      assert (arms + [last])[1..] == arms[1..] + [last];
    }
  }

  method RunStep(arms: seq<Member>, working: seq<Row>) returns (next: seq<Row>)
    ensures next == Step(arms, working)
  {
    next := [];
    for i := 0 to |arms|
      invariant next == Step(arms[..i], working)
    {
      StepTurn(arms, i, working);
      next := next + arms[i](working);
    }
    assert arms[..|arms|] == arms;
  }

  method RunRecursiveCte(anchors: seq<seq<Row>>, arms: seq<Member>) returns (acc: seq<Row>)
    ensures acc == Result(arms, Flat(rows => rows, anchors))
  {
    acc := [];
    for i := 0 to |anchors|
      invariant acc == Flat(rows => rows, anchors[..i])
    {
      FlatTurn(rows => rows, anchors, i);
      acc := acc + anchors[i];
    }
    assert anchors[..|anchors|] == anchors;
    ghost var anchor := acc;
    var working := acc;
    var depth := 0;
    LevelsStart(arms, anchor);
    while depth < MAX_DEPTH && |working| > 0
      invariant depth <= MAX_DEPTH
      invariant working == Level(arms, anchor, depth) && acc == Levels(arms, anchor, depth + 1)
      invariant Depth(arms, anchor, 0) == Depth(arms, anchor, depth)
    {
      var next := RunStep(arms, working);
      if |next| == 0 { break; }
      acc := acc + next;
      working := next;
      depth := depth + 1;
    }
  }

  lemma LevelsStart(arms: seq<Member>, anchor: seq<Row>)
    ensures Levels(arms, anchor, 1) == anchor
  {
    assert Levels(arms, anchor, 0) + anchor == anchor;
  }

  // ---------- Fixpoint ----------

  // An arm sees each row on its own: no aggregate, no DISTINCT, no use of the name twice.
  ghost predicate Linear(arm: Member) {
    forall a: seq<Row>, b: seq<Row> {:trigger arm(a + b)} :: multiset(arm(a + b)) == multiset(arm(a)) + multiset(arm(b))
  }

  lemma {:induction false} StepLinear(arms: seq<Member>, a: seq<Row>, b: seq<Row>)
    requires forall arm <- arms :: Linear(arm)
    ensures multiset(Step(arms, a + b)) == multiset(Step(arms, a)) + multiset(Step(arms, b))
  {
    if arms != [] {
      assert Linear(arms[0]);
      StepLinear(arms[1..], a, b);
    }
  }

  lemma StepOfNothing(arms: seq<Member>)
    requires forall arm <- arms :: Linear(arm)
    ensures Step(arms, []) == []
  {
    var none: seq<Row> := [];
    StepLinear(arms, none, none);
    assert none + none == none;
    assert |multiset(Step(arms, []))| == 0;
  }

  // Applying the arms to n generations gives the next n.
  lemma {:induction false} StepOfLevels(arms: seq<Member>, anchor: seq<Row>, n: nat)
    requires forall arm <- arms :: Linear(arm)
    ensures multiset(anchor) + multiset(Step(arms, Levels(arms, anchor, n))) == multiset(Levels(arms, anchor, n + 1))
  {
    if n == 0 {
      StepOfNothing(arms);
      LevelsStart(arms, anchor);
    } else {
      StepOfLevels(arms, anchor, n - 1);
      StepLinear(arms, Levels(arms, anchor, n - 1), Level(arms, anchor, n - 1));
    }
  }

  // The generation after the kept ones is empty, or the depth ran out.
  lemma {:induction false} DepthStops(arms: seq<Member>, anchor: seq<Row>, n: nat)
    requires n <= MAX_DEPTH && forall arm <- arms :: Linear(arm)
    ensures Depth(arms, anchor, n) == MAX_DEPTH || Level(arms, anchor, Depth(arms, anchor, n) + 1) == []
    ensures n <= Depth(arms, anchor, n) <= MAX_DEPTH
    decreases MAX_DEPTH - n
  {
    StepOfNothing(arms);
    if n < MAX_DEPTH && Level(arms, anchor, n) != [] && Level(arms, anchor, n + 1) != [] {
      DepthStops(arms, anchor, n + 1);
    }
  }

  // A generation after an empty one is empty.
  lemma {:induction false} EmptyStays(arms: seq<Member>, anchor: seq<Row>, n: nat, k: nat)
    requires forall arm <- arms :: Linear(arm)
    requires n <= k && Level(arms, anchor, n) == []
    ensures Level(arms, anchor, k) == []
  {
    if n < k {
      EmptyStays(arms, anchor, n, k - 1);
      StepOfNothing(arms);
    }
  }

  // The result is the anchors and what the arms make of the result, counting rows, exactly when generation 101
  // is empty; the limit of 100 cuts longer recursions off without an error.
  lemma ResultIsFixpointExactly(arms: seq<Member>, anchor: seq<Row>)
    requires forall arm <- arms :: Linear(arm)
    ensures var acc := Result(arms, anchor);
      multiset(acc) == multiset(anchor) + multiset(Step(arms, acc)) <==> Level(arms, anchor, 101) == []
    ensures Depth(arms, anchor, 0) < 100 ==>
      multiset(Result(arms, anchor)) == multiset(anchor) + multiset(Step(arms, Result(arms, anchor)))
  {
    var n := Depth(arms, anchor, 0) + 1;
    StepOfLevels(arms, anchor, n);
    DepthStops(arms, anchor, 0);
    var next := Level(arms, anchor, n);
    if next == [] { EmptyStays(arms, anchor, n, MAX_DEPTH + 1); }
    assert multiset(Levels(arms, anchor, n + 1)) == multiset(Levels(arms, anchor, n)) + multiset(next);
    if multiset(Levels(arms, anchor, n)) == multiset(Levels(arms, anchor, n)) + multiset(next) {
      assert |multiset(next)| == 0;
    }
  }

  // An arm that always answers is cut off at generation 100: 101 generations come back, and no error.
  lemma EndlessIsCut(r: Row)
    ensures var same: Member := rows => rows;
      Depth([same], [r], 0) == 100 && Level([same], [r], 101) == [r]
  {
    EndlessDepth(r, 0);
    EndlessLevel(r, MAX_DEPTH + 1);
  }

  lemma {:induction false} EndlessLevel(r: Row, n: nat)
    ensures Level([rows => rows], [r], n) == [r]
  {
    if n > 0 {
      EndlessLevel(r, n - 1);
      StepAppend([], rows => rows, [r]);
      var arms: seq<Member> := [];
      assert arms + [rows => rows] == [rows => rows];
    }
  }

  lemma {:induction false} EndlessDepth(r: Row, n: nat)
    requires n <= MAX_DEPTH
    ensures Depth([rows => rows], [r], n) == MAX_DEPTH
    decreases MAX_DEPTH - n
  {
    if n < MAX_DEPTH {
      EndlessLevel(r, n);
      EndlessLevel(r, n + 1);
      EndlessDepth(r, n + 1);
    }
  }
}
