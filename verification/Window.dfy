// Window functions (internal/exec/window.go): the ranking loops over an ordered partition, and what they count.

module Window {
  import opened Arithmetic

  // ---------- Counting ----------

  function Count(n: nat, p: int -> bool): (c: nat)
    ensures c <= n
  {
    if n == 0 then 0 else Count(n - 1, p) + if p(n - 1) then 1 else 0
  }

  lemma {:induction false} CountAgree(n: nat, p: int -> bool, q: int -> bool)
    requires forall j :: 0 <= j < n ==> p(j) == q(j)
    ensures Count(n, p) == Count(n, q)
  {
    if n > 0 { CountAgree(n - 1, p, q); }
  }

  // What holds exactly below i holds i times.
  lemma {:induction false} CountBelow(n: nat, p: int -> bool, i: nat)
    requires i <= n && forall j :: 0 <= j < n ==> (p(j) <==> j < i)
    ensures Count(n, p) == i
  {
    if n > i { CountBelow(n - 1, p, i); } else if n > 0 { CountBelow(n - 1, p, n - 1); }
  }

  // ---------- Ordered partitions ----------

  type Cmp<!K> = (K, K) -> int

  ghost predicate TwoWay<K>(ks: seq<K>, cmp: Cmp<K>) {
    forall i, j :: 0 <= i < |ks| && 0 <= j < |ks| ==> (cmp(ks[i], ks[j]) < 0 <==> cmp(ks[j], ks[i]) > 0)
  }

  ghost predicate Transitive<K>(ks: seq<K>, cmp: Cmp<K>) {
    forall i, j, l ::
      0 <= i < |ks| && 0 <= j < |ks| && 0 <= l < |ks| && cmp(ks[i], ks[j]) <= 0 && cmp(ks[j], ks[l]) <= 0 ==>
      cmp(ks[i], ks[l]) <= 0 && (cmp(ks[i], ks[j]) < 0 || cmp(ks[j], ks[l]) < 0 ==> cmp(ks[i], ks[l]) < 0)
  }

  ghost predicate Sorted<K>(ks: seq<K>, cmp: Cmp<K>) {
    forall i, j :: 0 <= i < j < |ks| ==> cmp(ks[i], ks[j]) <= 0
  }

  ghost predicate TiesBy<K>(ks: seq<K>, cmp: Cmp<K>, eq: (K, K) -> bool) {
    forall i, j :: 0 <= i < |ks| && 0 <= j < |ks| ==> (eq(ks[i], ks[j]) <==> cmp(ks[i], ks[j]) == 0)
  }

  // cmp orders the keys of a partition, ties allowed; the partition is sorted by it; and eq is its tie.
  ghost predicate Ordered<K>(ks: seq<K>, cmp: Cmp<K>, eq: (K, K) -> bool) {
    TwoWay(ks, cmp) && Transitive(ks, cmp) && Sorted(ks, cmp) && TiesBy(ks, cmp, eq)
  }

  // How many rows of the partition come strictly before the i-th; and how many do not come after it.
  ghost function Smaller<K>(ks: seq<K>, cmp: Cmp<K>, i: nat): nat
    requires i < |ks|
  {
    Count(|ks|, j => 0 <= j < |ks| && cmp(ks[j], ks[i]) < 0)
  }

  lemma SmallerIs<K>(ks: seq<K>, cmp: Cmp<K>, p: int -> bool, i: nat)
    requires i < |ks| && forall j :: 0 <= j < |ks| ==> (p(j) <==> cmp(ks[j], ks[i]) < 0)
    ensures Count(|ks|, p) == Smaller(ks, cmp, i)
  {
    CountAgree(|ks|, p, j => 0 <= j < |ks| && cmp(ks[j], ks[i]) < 0);
  }

  ghost function NotLarger<K>(ks: seq<K>, cmp: Cmp<K>, i: nat): nat
    requires i < |ks|
  {
    Count(|ks|, j => 0 <= j < |ks| && cmp(ks[j], ks[i]) <= 0)
  }

  // No earlier row ties with the j-th: so these rows stand one for each different key.
  ghost predicate IsFirst<K>(ks: seq<K>, cmp: Cmp<K>, j: int) {
    0 <= j < |ks| && forall i :: 0 <= i < j ==> cmp(ks[i], ks[j]) != 0
  }

  // How many different keys the first n rows have.
  ghost function Different<K>(ks: seq<K>, cmp: Cmp<K>, n: nat): nat {
    Count(n, j => IsFirst(ks, cmp, j))
  }

  // Rows s up to (not including) e are one group of peers.
  ghost predicate Peers<K>(ks: seq<K>, cmp: Cmp<K>, s: nat, e: nat) {
    && s < e <= |ks|
    && (forall t :: s <= t < e ==> cmp(ks[s], ks[t]) == 0)
    && (s > 0 ==> cmp(ks[s - 1], ks[s]) < 0)
    && (e < |ks| ==> cmp(ks[s], ks[e]) < 0)
  }

  lemma PeerSide<K>(ks: seq<K>, cmp: Cmp<K>, eq: (K, K) -> bool, s: nat, e: nat, t: nat, j: nat)
    requires Ordered(ks, cmp, eq) && Peers(ks, cmp, s, e) && s <= t < e && j < |ks|
    ensures cmp(ks[j], ks[t]) < 0 <==> j < s
    ensures cmp(ks[j], ks[t]) <= 0 <==> j < e
  {
    assert cmp(ks[s], ks[t]) == 0 && cmp(ks[t], ks[s]) == 0;
    if j < s {
      assert cmp(ks[j], ks[s - 1]) <= 0 || j == s - 1;
      assert cmp(ks[j], ks[s]) < 0;
    } else if j < e {
      assert cmp(ks[s], ks[j]) == 0 && cmp(ks[j], ks[s]) == 0;
    } else {
      assert cmp(ks[e], ks[j]) <= 0 || j == e;
      assert cmp(ks[s], ks[j]) < 0;
    }
  }

  // Then the rows before s are exactly the smaller ones, and those before e the not larger ones.
  lemma PeersCount<K>(ks: seq<K>, cmp: Cmp<K>, eq: (K, K) -> bool, s: nat, e: nat, t: nat)
    requires Ordered(ks, cmp, eq) && Peers(ks, cmp, s, e) && s <= t < e
    ensures Smaller(ks, cmp, t) == s && NotLarger(ks, cmp, t) == e
  {
    hide Ordered;
    forall j | 0 <= j < |ks|
      ensures cmp(ks[j], ks[t]) < 0 <==> j < s
      ensures cmp(ks[j], ks[t]) <= 0 <==> j < e
    {
      PeerSide(ks, cmp, eq, s, e, t, j);
    }
    CountBelow(|ks|, j => 0 <= j < |ks| && cmp(ks[j], ks[t]) < 0, s);
    CountBelow(|ks|, j => 0 <= j < |ks| && cmp(ks[j], ks[t]) <= 0, e);
  }

  // ---------- RANK and DENSE_RANK ----------

  // Rows that tie have the same rows in front of them.
  lemma TiesCount<K>(ks: seq<K>, cmp: Cmp<K>, eq: (K, K) -> bool, i: nat)
    requires Ordered(ks, cmp, eq) && 0 < i < |ks| && eq(ks[i - 1], ks[i])
    ensures Smaller(ks, cmp, i) == Smaller(ks, cmp, i - 1)
    ensures !IsFirst(ks, cmp, i)
  {
    assert cmp(ks[i - 1], ks[i]) == 0 && cmp(ks[i], ks[i - 1]) == 0;
    forall j | 0 <= j < |ks| ensures cmp(ks[j], ks[i]) < 0 <==> cmp(ks[j], ks[i - 1]) < 0 {
      assert cmp(ks[j], ks[i]) < 0 ==> cmp(ks[j], ks[i - 1]) < 0;
      assert cmp(ks[j], ks[i - 1]) < 0 ==> cmp(ks[j], ks[i]) < 0;
    }
    CountAgree(|ks|, j => 0 <= j < |ks| && cmp(ks[j], ks[i]) < 0, j => 0 <= j < |ks| && cmp(ks[j], ks[i - 1]) < 0);
  }

  // A row that does not tie with the one before it has all rows before it in front.
  lemma StepCounts<K>(ks: seq<K>, cmp: Cmp<K>, eq: (K, K) -> bool, i: nat)
    requires Ordered(ks, cmp, eq) && i < |ks| && (i > 0 ==> !eq(ks[i - 1], ks[i]))
    ensures Smaller(ks, cmp, i) == i && IsFirst(ks, cmp, i)
  {
    forall j | 0 <= j < |ks| ensures cmp(ks[j], ks[i]) < 0 <==> j < i {
      if j < i {
        assert cmp(ks[i - 1], ks[i]) < 0;
        assert j < i - 1 ==> cmp(ks[j], ks[i - 1]) <= 0;
      } else if j > i {
        assert cmp(ks[i], ks[j]) <= 0;
      } else {
        assert cmp(ks[i], ks[i]) < 0 <==> cmp(ks[i], ks[i]) > 0;
      }
    }
    CountBelow(|ks|, j => 0 <= j < |ks| && cmp(ks[j], ks[i]) < 0, i);
  }

  // The rank the loop gives: the row before decides, whatever the keys are.
  function RankAt<K>(ks: seq<K>, eq: (K, K) -> bool, dense: bool, i: nat): nat
    requires i < |ks|
  {
    if i == 0 then 1
    else if eq(ks[i - 1], ks[i]) then RankAt(ks, eq, dense, i - 1)
    else if dense then RankAt(ks, eq, dense, i - 1) + 1
    else i + 1
  }

  method Rank<K>(ks: seq<K>, eq: (K, K) -> bool, dense: bool) returns (out: seq<nat>)
    ensures |out| == |ks|
    ensures forall i :: 0 <= i < |ks| ==> out[i] == RankAt(ks, eq, dense, i)
  {
    out := [];
    var rank := 1;
    for i := 0 to |ks|
      invariant |out| == i
      invariant rank == if i > 0 then RankAt(ks, eq, dense, i - 1) else 1
      invariant forall j :: 0 <= j < i ==> out[j] == RankAt(ks, eq, dense, j)
    {
      if i > 0 {
        if !eq(ks[i - 1], ks[i]) {
          if dense {
            rank := rank + 1;
          } else {
            rank := i + 1;
          }
        }
      }
      out := out + [rank];
    }
  }

  // In an ordered partition RANK is one more than the number of smaller rows, DENSE_RANK one more than the number
  // of smaller keys.
  lemma {:induction false} RankCounts<K>(ks: seq<K>, cmp: Cmp<K>, eq: (K, K) -> bool, i: nat)
    requires Ordered(ks, cmp, eq) && i < |ks|
    ensures RankAt(ks, eq, false, i) == 1 + Smaller(ks, cmp, i)
    ensures RankAt(ks, eq, true, i) == 1 + Different(ks, cmp, Smaller(ks, cmp, i)) == Different(ks, cmp, i + 1)
  {
    hide Ordered, IsFirst, Count;
    DifferentTurn(ks, cmp, i);
    if i > 0 { RankCounts(ks, cmp, eq, i - 1); }
    if i > 0 && eq(ks[i - 1], ks[i]) { TiesCount(ks, cmp, eq, i); } else { StepCounts(ks, cmp, eq, i); }
  }

  lemma DifferentTurn<K>(ks: seq<K>, cmp: Cmp<K>, i: nat)
    ensures Different(ks, cmp, i + 1) == Different(ks, cmp, i) + if IsFirst(ks, cmp, i) then 1 else 0
    ensures Different(ks, cmp, 0) == 0
  {
  }

  // ---------- PERCENT_RANK and CUME_DIST ----------

  // What a tie, and no tie with a later row, say about cmp.
  lemma Ties<K>(ks: seq<K>, cmp: Cmp<K>, eq: (K, K) -> bool, i: nat, j: nat)
    requires Ordered(ks, cmp, eq) && i <= j < |ks|
    ensures eq(ks[j], ks[i]) <==> cmp(ks[i], ks[j]) == 0
    ensures i < j && !eq(ks[j], ks[i]) ==> cmp(ks[i], ks[j]) < 0
    ensures i == j ==> cmp(ks[i], ks[j]) == 0
  {
    assert cmp(ks[j], ks[i]) == 0 <==> cmp(ks[i], ks[j]) == 0;
  }

  // The group of peers that starts at i.
  method PeerEnd<K>(ks: seq<K>, ghost cmp: Cmp<K>, eq: (K, K) -> bool, i: nat) returns (j: nat)
    requires Ordered(ks, cmp, eq) && i < |ks| && (i > 0 ==> cmp(ks[i - 1], ks[i]) < 0)
    ensures i <= j < |ks| && Peers(ks, cmp, i, j + 1)
  {
    hide Ordered;
    j := i;
    Ties(ks, cmp, eq, i, i);
    while j + 1 < |ks| && eq(ks[j + 1], ks[i])
      invariant i <= j < |ks|
      invariant forall t :: i <= t <= j ==> cmp(ks[i], ks[t]) == 0
    {
      Ties(ks, cmp, eq, i, j + 1);
      j := j + 1;
    }
    if j + 1 < |ks| { Ties(ks, cmp, eq, i, j + 1); }
  }

  // Where a row's peers start and end is found.
  ghost predicate Bounded<K>(ks: seq<K>, cmp: Cmp<K>, lo: seq<nat>, hi: seq<nat>, n: nat) {
    |lo| == |hi| == n <= |ks| && forall t :: 0 <= t < n ==>
      lo[t] == Smaller(ks, cmp, t) && hi[t] == NotLarger(ks, cmp, t)
  }

  lemma BoundMore<K>(ks: seq<K>, cmp: Cmp<K>, eq: (K, K) -> bool, lo: seq<nat>, hi: seq<nat>, s: nat, e: nat, t: nat)
    requires Ordered(ks, cmp, eq) && Peers(ks, cmp, s, e) && s <= t < e && Bounded(ks, cmp, lo, hi, t)
    ensures Bounded(ks, cmp, lo + [s], hi + [e], t + 1)
  {
    hide Ordered, Smaller, NotLarger;
    PeersCount(ks, cmp, eq, s, e, t);
  }

  // The nested loops: where each row's peers start and end.
  method PeerBounds<K>(ks: seq<K>, ghost cmp: Cmp<K>, eq: (K, K) -> bool) returns (lo: seq<nat>, hi: seq<nat>)
    requires Ordered(ks, cmp, eq)
    ensures Bounded(ks, cmp, lo, hi, |ks|)
  {
    hide Ordered, Peers;
    lo, hi := [], [];
    var i := 0;
    while i < |ks|
      invariant i <= |ks| && Bounded(ks, cmp, lo, hi, i)
      invariant 0 < i < |ks| ==> cmp(ks[i - 1], ks[i]) < 0
    {
      var j := PeerEnd(ks, cmp, eq, i);
      for t := i to j + 1
        invariant Bounded(ks, cmp, lo, hi, t)
      {
        BoundMore(ks, cmp, eq, lo, hi, i, j + 1, t);
        lo, hi := lo + [i], hi + [j + 1];
      }
      if j + 1 < |ks| { NextGroup(ks, cmp, eq, i, j); }
      i := j + 1;
    }
  }

  lemma NextGroup<K>(ks: seq<K>, cmp: Cmp<K>, eq: (K, K) -> bool, i: nat, j: nat)
    requires Ordered(ks, cmp, eq) && Peers(ks, cmp, i, j + 1) && j + 1 < |ks|
    ensures cmp(ks[j], ks[j + 1]) < 0
  {
    assert cmp(ks[i], ks[j]) == 0 && cmp(ks[j], ks[i]) == 0 && cmp(ks[i], ks[j + 1]) < 0;
  }

  // PERCENT_RANK from the peers' start agrees with RANK: (RANK - 1) / (total - 1); CUME_DIST counts the rows
  // that are not larger.
  method PercentRank<K>(ks: seq<K>, ghost cmp: Cmp<K>, eq: (K, K) -> bool, cume: bool) returns (out: seq<real>)
    requires Ordered(ks, cmp, eq)
    ensures |out| == |ks|
    ensures cume ==> forall t :: 0 <= t < |ks| ==> out[t] == NotLarger(ks, cmp, t) as real / |ks| as real
    ensures !cume ==> forall t :: 0 <= t < |ks| ==>
      out[t] == if |ks| <= 1 then 0.0 else Smaller(ks, cmp, t) as real / (|ks| - 1) as real
  {
    hide Ordered;
    var lo, hi := PeerBounds(ks, cmp, eq);
    var total := |ks|;
    out := [];
    for t := 0 to total
      invariant |out| == t
      invariant cume ==> forall x :: 0 <= x < t ==> out[x] == NotLarger(ks, cmp, x) as real / |ks| as real
      invariant !cume ==> forall x :: 0 <= x < t ==>
        out[x] == if |ks| <= 1 then 0.0 else Smaller(ks, cmp, x) as real / (|ks| - 1) as real
    {
      if cume {
        out := out + [hi[t] as real / total as real];
      } else if total <= 1 {
        out := out + [0.0];
      } else {
        out := out + [lo[t] as real / (total - 1) as real];
      }
    }
  }

  // The same group, found by comparing neighbours.
  method NeighbourEnd<K>(ks: seq<K>, ghost cmp: Cmp<K>, eq: (K, K) -> bool, i: nat) returns (j: nat)
    requires Ordered(ks, cmp, eq) && i < |ks| && (i > 0 ==> cmp(ks[i - 1], ks[i]) < 0)
    ensures i <= j < |ks| && Peers(ks, cmp, i, j + 1)
  {
    hide Ordered;
    j := i;
    Ties(ks, cmp, eq, i, i);
    while j + 1 < |ks| && eq(ks[j], ks[j + 1])
      invariant i <= j < |ks|
      invariant forall t :: i <= t <= j ==> cmp(ks[i], ks[t]) == 0
    {
      NextPeer(ks, cmp, eq, i, j);
      j := j + 1;
    }
    if j + 1 < |ks| { NextStep(ks, cmp, eq, i, j); }
  }

  // aggWindow: a cumulative frame ends at the last peer.
  method FrameEnds<K>(ks: seq<K>, ghost cmp: Cmp<K>, eq: (K, K) -> bool) returns (ends: seq<nat>)
    requires Ordered(ks, cmp, eq)
    ensures |ends| == |ks|
    ensures forall t :: 0 <= t < |ks| ==> ends[t] + 1 == NotLarger(ks, cmp, t)
  {
    hide Ordered, Peers, NotLarger;
    ends := [];
    var i := 0;
    while i < |ks|
      invariant i <= |ks| && |ends| == i
      invariant 0 < i < |ks| ==> cmp(ks[i - 1], ks[i]) < 0
      invariant forall t :: 0 <= t < i ==> ends[t] + 1 == NotLarger(ks, cmp, t)
    {
      var j := NeighbourEnd(ks, cmp, eq, i);
      for t := i to j + 1
        invariant |ends| == t
        invariant forall x :: 0 <= x < t ==> ends[x] + 1 == NotLarger(ks, cmp, x)
      {
        PeersCount(ks, cmp, eq, i, j + 1, t);
        ends := ends + [j];
      }
      if j + 1 < |ks| { NextGroup(ks, cmp, eq, i, j); }
      i := j + 1;
    }
  }

  lemma NextPeer<K>(ks: seq<K>, cmp: Cmp<K>, eq: (K, K) -> bool, i: nat, j: nat)
    requires Ordered(ks, cmp, eq) && i <= j && j + 1 < |ks| && cmp(ks[i], ks[j]) == 0 && eq(ks[j], ks[j + 1])
    ensures cmp(ks[i], ks[j + 1]) == 0
  {
    assert cmp(ks[j], ks[j + 1]) == 0 && cmp(ks[j + 1], ks[j]) == 0 && cmp(ks[j], ks[i]) == 0;
    assert cmp(ks[i], ks[j + 1]) <= 0 && cmp(ks[j + 1], ks[i]) <= 0;
  }

  lemma NextStep<K>(ks: seq<K>, cmp: Cmp<K>, eq: (K, K) -> bool, i: nat, j: nat)
    requires Ordered(ks, cmp, eq) && i <= j && j + 1 < |ks| && cmp(ks[i], ks[j]) == 0 && !eq(ks[j], ks[j + 1])
    ensures cmp(ks[i], ks[j + 1]) < 0
  {
    assert cmp(ks[j], ks[j + 1]) < 0;
  }

  // ---------- NTILE ----------

  function BucketSize(total: nat, n: nat, b: nat): nat
    requires n > 0
  {
    total / n + if b <= total % n then 1 else 0
  }

  // How many rows the first b buckets hold.
  function Upto(total: nat, n: nat, b: nat): nat
    requires n > 0
  {
    if b == 0 then 0 else Upto(total, n, b - 1) + BucketSize(total, n, b)
  }

  lemma {:induction false} UptoIs(total: nat, n: nat, b: nat)
    requires n > 0
    ensures Upto(total, n, b) == b * (total / n) + if b <= total % n then b else total % n
  {
    if b > 0 {
      UptoIs(total, n, b - 1);
      assert b * (total / n) == (b - 1) * (total / n) + total / n;
    }
  }

  lemma UptoAll(total: nat, n: nat)
    requires n > 0
    ensures Upto(total, n, n) == total
  {
    UptoIs(total, n, n);
    assert total == n * (total / n) + total % n;
  }

  // The rows go to buckets 1 to n in order: row i to the bucket whose share reaches past i.
  method Ntile(total: nat, n: nat) returns (out: seq<nat>)
    requires n > 0
    ensures |out| == total
    ensures forall i :: 0 <= i < total ==> 1 <= out[i] <= n && Upto(total, n, out[i] - 1) <= i < Upto(total, n, out[i])
  {
    hide BucketSize;
    out := [];
    var bucket, left := 1, BucketSize(total, n, 1);
    UptoAll(total, n);
    assert Upto(total, n, 1) == Upto(total, n, 0) + BucketSize(total, n, 1);
    for i := 0 to total
      invariant |out| == i && 1 <= bucket <= n
      invariant Upto(total, n, bucket - 1) <= i && left == Upto(total, n, bucket) - i && left >= 0
      invariant forall x :: 0 <= x < i ==> 1 <= out[x] <= n && Upto(total, n, out[x] - 1) <= x < Upto(total, n, out[x])
    {
      while left == 0 && bucket < n
        invariant 1 <= bucket <= n && Upto(total, n, bucket - 1) <= i && left == Upto(total, n, bucket) - i && left >= 0
        decreases n - bucket
      {
        bucket := bucket + 1;
        left := BucketSize(total, n, bucket);
      }
      out := out + [bucket];
      left := left - 1;
    }
  }

  lemma {:induction false} UptoGrows(total: nat, n: nat, a: nat, b: nat)
    requires n > 0 && a <= b
    ensures Upto(total, n, a) <= Upto(total, n, b)
  {
    if a < b { UptoGrows(total, n, a, b - 1); }
  }

  // So the buckets never go back, each holds a stretch of rows, and the first total % n buckets hold one row
  // more than the others.
  lemma NtileShares(total: nat, n: nat, out: seq<nat>, b: nat)
    requires n > 0 && |out| == total && 1 <= b <= n
    requires forall i :: 0 <= i < total ==> 1 <= out[i] <= n && Upto(total, n, out[i] - 1) <= i < Upto(total, n, out[i])
    ensures forall i :: 0 <= i < total ==> (out[i] == b <==> Upto(total, n, b - 1) <= i < Upto(total, n, b))
    ensures Upto(total, n, b) - Upto(total, n, b - 1) == total / n + (if b <= total % n then 1 else 0) &&
      Upto(total, n, b) <= total
    ensures forall i, j :: 0 <= i < j < total ==> out[i] <= out[j]
  {
    UptoAll(total, n);
    UptoGrows(total, n, b, n);
    forall i | 0 <= i < total ensures out[i] == b <==> Upto(total, n, b - 1) <= i < Upto(total, n, b) {
      if out[i] < b { UptoGrows(total, n, out[i], b - 1); }
      if out[i] > b { UptoGrows(total, n, b, out[i] - 1); }
    }
    forall i, j | 0 <= i < j < total ensures out[i] <= out[j] {
      if out[j] < out[i] { UptoGrows(total, n, out[j], out[i] - 1); }
    }
  }
}
