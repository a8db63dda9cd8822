/** When the repair loop of requires/requires.go comes to rest, with the cap of a hundred rounds set aside. */
module RequiresSettling {
  import opened Requires

  /** Some constraint asks for `e` to run ahead of `f`. */
  predicate MustPrecede(e: Entry, f: Entry) {
    e.name in f.after || f.name in e.before
  }

  predicate Covers(order: Order, rank: map<nat, nat>, bound: nat) {
    forall i | 0 <= i < |order| :: order[i].id in rank && rank[order[i].id] < bound
  }

  ghost predicate Ranked(order: Order, rank: map<nat, nat>, bound: nat) {
    && Covers(order, rank, bound)
    && (forall e, f | e in order && f in order && e.id != f.id && MustPrecede(e, f) :: rank[e.id] < rank[f.id])
  }

  /** The constraints can be met by some ranking of the elements: they have no cycle. */
  ghost predicate Acyclic(order: Order) {
    exists rank, bound :: Ranked(order, rank, bound)
  }

  ghost predicate Distinct(order: Order) {
    forall i, j | 0 <= i < j < |order| :: order[i].id != order[j].id
  }

  ghost predicate AfterOnly(order: Order) {
    forall e | e in order :: e.before == {}
  }

  ghost predicate BeforeOnly(order: Order) {
    forall e | e in order :: e.after == {}
  }

  ghost predicate Settles(order: Order) {
    exists n :: Satisfied(Iterate(order, n))
  }

  // ---- The measure: inversions counted by the rank of their later element

  function Count(rs: seq<nat>, k: nat): nat {
    if rs == [] then 0 else (if rs[0] == k then 1 else 0) + Count(rs[1..], k)
  }

  /** Pairs, the earlier ranked above `k` and the later exactly `k`. */
  function Inversions(rs: seq<nat>, k: nat): nat {
    if rs == [] then 0 else (if rs[0] > k then Count(rs[1..], k) else 0) + Inversions(rs[1..], k)
  }

  /** The inversion counts of ranks below `k` read as digits in the given base, rank 0 the leading one. */
  function Weight(rs: seq<nat>, k: nat, base: nat): nat {
    if k == 0 then 0 else Weight(rs, k - 1, base) * base + Inversions(rs, k - 1)
  }

  function Base(rs: seq<nat>): nat {
    |rs| * |rs| + 1
  }

  lemma {:induction false} CountAppend(a: seq<nat>, b: seq<nat>, k: nat)
    ensures Count(a + b, k) == Count(a, k) + Count(b, k)
  {
    if a == [] {
      assert a + b == b;
    } else {
      CountAppend(a[1..], b, k);
      assert (a + b)[0] == a[0] && (a + b)[1..] == a[1..] + b;
    }
  }

  lemma {:induction false} CountAtMost(rs: seq<nat>, k: nat)
    ensures Count(rs, k) <= |rs|
  {
    if rs != [] {
      CountAtMost(rs[1..], k);
    }
  }

  lemma {:induction false} InversionsBelowBase(rs: seq<nat>, k: nat)
    ensures Inversions(rs, k) < Base(rs)
  {
    if rs != [] {
      InversionsBelowBase(rs[1..], k);
      CountAtMost(rs[1..], k);
      var n := |rs| - 1;
      assert (n + 1) * (n + 1) == n * n + 2 * n + 1;
    }
  }

  lemma {:induction false} SamePrefix(a: seq<nat>, s: seq<nat>, t: seq<nat>, k: nat)
    requires Count(s, k) == Count(t, k)
    ensures Inversions(a + s, k) - Inversions(a + t, k) == Inversions(s, k) - Inversions(t, k)
  {
    if a == [] {
      assert a + s == s && a + t == t;
    } else {
      SamePrefix(a[1..], s, t, k);
      assert (a + s)[0] == (a + t)[0] == a[0];
      assert (a + s)[1..] == a[1..] + s && (a + t)[1..] == a[1..] + t;
      CountAppend(a[1..], s, k);
      CountAppend(a[1..], t, k);
    }
  }

  /** Taking `x` out of the middle loses its inversions; below rank `x` only those with later elements. */
  lemma {:induction false} Without(b: seq<nat>, x: nat, c: seq<nat>, k: nat)
    requires k < x
    ensures Inversions(b + [x] + c, k) == Inversions(b + c, k) + Count(c, k)
  {
    if b == [] {
      assert b + [x] + c == [x] + c && b + c == c;
    } else {
      Without(b[1..], x, c, k);
      var s, t := b + [x] + c, b + c;
      assert s[0] == t[0] == b[0] && s[1..] == b[1..] + [x] + c && t[1..] == b[1..] + c;
      CountAppend(b[1..] + [x], c, k);
      CountAppend(b[1..], [x], k);
      CountAppend(b[1..], c, k);
    }
  }

  /** Moving `x` behind `b` leaves, for every rank below `x`, exactly the inversions with `b` out. */
  lemma ShiftInversions(a: seq<nat>, x: nat, b: seq<nat>, c: seq<nat>, k: nat)
    requires k < x
    ensures Inversions(a + ([x] + b + c), k) == Inversions(a + (b + [x] + c), k) + Count(b, k)
  {
    var s, t := [x] + b + c, b + [x] + c;
    CountAppend([x] + b, c, k);
    CountAppend([x], b, k);
    CountAppend(b + [x], c, k);
    CountAppend(b, [x], k);
    CountAppend(b, c, k);
    SamePrefix(a, s, t, k);
    Without(b, x, c, k);
    assert s[0] == x && s[1..] == b + c;
  }

  lemma {:induction false} CountPositive(rs: seq<nat>, i: nat)
    requires i < |rs|
    ensures Count(rs, rs[i]) > 0
  {
    if i > 0 {
      CountPositive(rs[1..], i - 1);
    }
  }

  lemma Heavier(a: nat, b: nat, x: nat, y: nat, base: nat)
    requires a < b && x < base
    ensures a * base + x < b * base + y
  {
    Monotone(a + 1, b, base);
    assert (a + 1) * base == a * base + base;
  }

  lemma Monotone(a: nat, b: nat, base: nat)
    requires a <= b
    ensures a * base <= b * base
  {
  }

  /** A smaller count at rank `y`, with none larger before it, makes the whole weight smaller. */
  lemma {:induction false} WeightDrops(rs: seq<nat>, ts: seq<nat>, x: nat, y: nat, k: nat)
    requires |rs| == |ts| && y < x
    requires forall m: nat | m < x :: Inversions(ts, m) <= Inversions(rs, m)
    requires Inversions(ts, y) < Inversions(rs, y)
    ensures k <= x ==> Weight(ts, k, Base(rs)) <= Weight(rs, k, Base(rs))
    ensures y < k ==> Weight(ts, k, Base(rs)) < Weight(rs, k, Base(rs))
  {
    if k > 0 {
      WeightDrops(rs, ts, x, y, k - 1);
      InversionsBelowBase(ts, k - 1);
      var a, b := Weight(ts, k - 1, Base(rs)), Weight(rs, k - 1, Base(rs));
      if a < b {
        Heavier(a, b, Inversions(ts, k - 1), Inversions(rs, k - 1), Base(rs));
      } else if k <= x {
        Monotone(a, b, Base(rs));
      }
    }
  }

  /** Moving an element behind a later one of lower rank lowers the measure. */
  lemma MoveDrops(rs: seq<nat>, i: nat, j: nat, bound: nat)
    requires i < j < |rs| && rs[j] < rs[i] < bound
    ensures Weight(MoveAfter(rs, i, j), bound, Base(rs)) < Weight(rs, bound, Base(rs))
  {
    var a, x, b, c := rs[..i], rs[i], rs[i + 1..j + 1], rs[j + 1..];
    var ts := MoveAfter(rs, i, j);
    assert rs == a + ([x] + b + c) && ts == a + (b + [x] + c);
    forall k: nat | k < x
      ensures Inversions(rs, k) == Inversions(ts, k) + Count(b, k)
    {
      ShiftInversions(a, x, b, c, k);
    }
    assert b[j - i - 1] == rs[j];
    CountPositive(b, j - i - 1);
    WeightDrops(rs, ts, x, rs[j], bound);
  }

  // ---- Ranks of an order, read forwards, or backwards with the ranking turned round

  function Ranks(order: Order, rank: map<nat, nat>, bound: nat): (rs: seq<nat>)
    requires Covers(order, rank, bound)
    ensures |rs| == |order| && forall i | 0 <= i < |order| :: rs[i] == rank[order[i].id]
  {
    seq(|order|, i requires 0 <= i < |order| => rank[order[i].id])
  }

  function RanksBack(order: Order, rank: map<nat, nat>, bound: nat): (rs: seq<nat>)
    requires Covers(order, rank, bound)
    ensures |rs| == |order|
    ensures forall i | 0 <= i < |order| :: rs[i] == bound - 1 - rank[order[|order| - 1 - i].id]
  {
    seq(|order|, i requires 0 <= i < |order| => bound - 1 - rank[order[|order| - 1 - i].id])
  }

  function Measure(order: Order, rank: map<nat, nat>, bound: nat): nat
    requires Covers(order, rank, bound)
  {
    var base := |order| * |order| + 1;
    Weight(Ranks(order, rank, bound), bound, base)
  }

  function MeasureBack(order: Order, rank: map<nat, nat>, bound: nat): nat
    requires Covers(order, rank, bound)
  {
    var base := |order| * |order| + 1;
    Weight(RanksBack(order, rank, bound), bound, base)
  }

  /** What a round does to a list that is not in order: one of the two moves, for a constraint that is broken. */
  lemma {:induction false} RoundMoves(order: Order, i: nat) returns (p: nat, q: nat)
    requires i <= |order|
    requires !Satisfied(order) && forall m | 0 <= m < i :: Settled(order, m)
    ensures p < |order| && q < |order| && p != q
    ensures q < p ==> order[q].name in order[p].before && RepairFrom(order, i) == MoveBefore(order, p, q)
    ensures p < q ==> order[q].name in order[p].after && RepairFrom(order, i) == MoveAfter(order, p, q)
    decreases |order| - i
  {
    hide LastBefore, FirstAfter, Satisfied;
    SatisfiedIffSettled(order);
    var b, a := LastBefore(order, i, i), FirstAfter(order, i, i + 1);
    LastBeforeIsNearest(order, i, i);
    FirstAfterIsNearest(order, i, i + 1);
    if b >= 0 {
      p, q := i, b;
    } else if a < |order| {
      p, q := i, a;
    } else {
      p, q := RoundMoves(order, i + 1);
    }
  }

  lemma RankedPermutes(order: Order, other: Order, rank: map<nat, nat>, bound: nat)
    requires Ranked(order, rank, bound) && Permuted(other, order)
    ensures Ranked(other, rank, bound) && |other| == |order|
    ensures AfterOnly(order) ==> AfterOnly(other)
    ensures BeforeOnly(order) ==> BeforeOnly(other)
  {
    PermutedFacts(other, order);
    forall i | 0 <= i < |other|
      ensures other[i].id in rank && rank[other[i].id] < bound
    {
      assert other[i] in order;
    }
  }

  /** Every round on an unsatisfied after-only list lowers the measure. */
  lemma RoundDropsAfter(order: Order, rank: map<nat, nat>, bound: nat)
    requires AfterOnly(order) && Distinct(order) && Ranked(order, rank, bound) && !Satisfied(order)
    ensures Permuted(Repair(order), order) && Ranked(Repair(order), rank, bound)
    ensures Measure(Repair(order), rank, bound) < Measure(order, rank, bound)
  {
    hide Satisfied, Weight, MoveBefore, MoveAfter, RepairFrom, Permuted;
    var p, q := RoundMoves(order, 0);
    assert order[p] in order && order[q] in order;
    assert p < q && MustPrecede(order[q], order[p]);
    RepairPermutes(order, 0);
    RankedPermutes(order, Repair(order), rank, bound);
    MoveAfterAt(order, p, q);
    MoveAfterAt(Ranks(order, rank, bound), p, q);
    assert Ranks(Repair(order), rank, bound) == MoveAfter(Ranks(order, rank, bound), p, q);
    MoveDrops(Ranks(order, rank, bound), p, q, bound);
  }

  /** Every round on an unsatisfied before-only list lowers the measure of the list read backwards. */
  lemma RoundDropsBefore(order: Order, rank: map<nat, nat>, bound: nat)
    requires BeforeOnly(order) && Distinct(order) && Ranked(order, rank, bound) && !Satisfied(order)
    ensures Permuted(Repair(order), order) && Ranked(Repair(order), rank, bound)
    ensures MeasureBack(Repair(order), rank, bound) < MeasureBack(order, rank, bound)
  {
    hide Satisfied, Weight, MoveBefore, MoveAfter, RepairFrom, RanksBack, Permuted;
    var p, q := RoundMoves(order, 0);
    assert order[p] in order && order[q] in order;
    assert q < p && MustPrecede(order[p], order[q]);
    RepairPermutes(order, 0);
    RankedPermutes(order, Repair(order), rank, bound);
    var n, rs := |order|, RanksBack(order, rank, bound);
    BackwardsMove(order, p, q, rank, bound);
    MoveDrops(rs, n - 1 - p, n - 1 - q, bound);
  }

  /** Read backwards, moving an element ahead of an earlier one is moving it behind a later one. */
  lemma BackwardsMove(order: Order, p: nat, q: nat, rank: map<nat, nat>, bound: nat)
    requires q < p < |order|
    requires Covers(order, rank, bound)
    requires Covers(MoveBefore(order, p, q), rank, bound)
    ensures RanksBack(MoveBefore(order, p, q), rank, bound)
         == MoveAfter(RanksBack(order, rank, bound), |order| - 1 - p, |order| - 1 - q)
  {
    hide MoveBefore, MoveAfter, RanksBack;
    var n, rs := |order|, RanksBack(order, rank, bound);
    var back := RanksBack(MoveBefore(order, p, q), rank, bound);
    MoveBeforeAt(order, p, q);
    MoveAfterAt(rs, n - 1 - p, n - 1 - q);
    forall k | 0 <= k < n
      ensures back[k] == MoveAfter(rs, n - 1 - p, n - 1 - q)[k]
    {
      assert back[k] == bound - 1 - rank[MoveBefore(order, p, q)[n - 1 - k].id];
    }
  }

  // ---- Coming to rest

  lemma {:induction false} IterateShift(order: Order, n: nat)
    ensures Iterate(Repair(order), n) == Iterate(order, n + 1)
  {
    hide Repair;
    if n > 0 {
      IterateShift(order, n - 1);
    } else {
      assert Iterate(order, 1) == Repair(Iterate(order, 0));
    }
  }

  lemma DistinctPermutes(order: Order, other: Order)
    requires Distinct(order) && Permuted(other, order)
    ensures Distinct(other)
  {
    PermutedFacts(other, order);
    forall i, j | 0 <= i < j < |other|
      ensures other[i].id != other[j].id
    {
      if other[i].id == other[j].id {
        var e, f := other[i], other[j];
        assert e in order && f in order;
        var p :| 0 <= p < |order| && order[p] == e;
        var q :| 0 <= q < |order| && order[q] == f;
        assert p == q;
        Twice(other, i, j);
        OnlyOnce(order, p);
        assert false;
      }
    }
  }

  lemma Twice(order: Order, i: nat, j: nat)
    requires i < j < |order| && order[i] == order[j]
    ensures multiset(order)[order[i]] >= 2
  {
    assert order == order[..i] + [order[i]] + order[i + 1..j] + [order[j]] + order[j + 1..];
  }

  lemma OnlyOnce(order: Order, p: nat)
    requires Distinct(order) && p < |order|
    ensures multiset(order)[order[p]] == 1
  {
    assert order == order[..p] + [order[p]] + order[p + 1..];
    assert order[p] !in order[..p] && order[p] !in order[p + 1..];
  }

  /** With after-constraints only, an acyclic list comes to rest within as many rounds as its measure. */
  lemma {:induction false} AfterOnlySettles(order: Order, rank: map<nat, nat>, bound: nat) returns (n: nat)
    requires AfterOnly(order) && Distinct(order) && Ranked(order, rank, bound)
    ensures n <= Measure(order, rank, bound) && Satisfied(Iterate(order, n))
    decreases Measure(order, rank, bound)
  {
    hide Satisfied, Repair, Permuted, Ranked, AfterOnly, Distinct, Measure;
    if Satisfied(order) {
      n := 0;
    } else {
      RoundDropsAfter(order, rank, bound);
      RankedPermutes(order, Repair(order), rank, bound);
      DistinctPermutes(order, Repair(order));
      n := AfterOnlySettles(Repair(order), rank, bound);
      IterateShift(order, n);
      n := n + 1;
    }
  }

  lemma {:induction false} BeforeOnlySettles(order: Order, rank: map<nat, nat>, bound: nat) returns (n: nat)
    requires BeforeOnly(order) && Distinct(order) && Ranked(order, rank, bound)
    ensures n <= MeasureBack(order, rank, bound) && Satisfied(Iterate(order, n))
    decreases MeasureBack(order, rank, bound)
  {
    hide Satisfied, Repair, Permuted, Ranked, BeforeOnly, Distinct, MeasureBack;
    if Satisfied(order) {
      n := 0;
    } else {
      RoundDropsBefore(order, rank, bound);
      RankedPermutes(order, Repair(order), rank, bound);
      DistinctPermutes(order, Repair(order));
      n := BeforeOnlySettles(Repair(order), rank, bound);
      IterateShift(order, n);
      n := n + 1;
    }
  }

  function Positions(order: Order, n: nat): map<nat, nat>
    requires n <= |order|
  {
    if n == 0 then map[] else Positions(order, n - 1)[order[n - 1].id := n - 1]
  }

  lemma {:induction false} PositionsAt(order: Order, n: nat)
    requires n <= |order| && Distinct(order)
    ensures forall i | 0 <= i < n :: order[i].id in Positions(order, n) && Positions(order, n)[order[i].id] == i
  {
    if n > 0 {
      PositionsAt(order, n - 1);
    }
  }

  /** A list that is in order ranks its elements by position. */
  lemma SatisfiedIsRanked(order: Order)
    requires Satisfied(order) && Distinct(order)
    ensures Ranked(order, Positions(order, |order|), |order|)
  {
    var rank := Positions(order, |order|);
    PositionsAt(order, |order|);
    forall e, f | e in order && f in order && e.id != f.id && MustPrecede(e, f)
      ensures rank[e.id] < rank[f.id]
    {
      var i :| 0 <= i < |order| && order[i] == e;
      var j :| 0 <= j < |order| && order[j] == f;
    }
  }

  lemma SettledIsAcyclic(order: Order, n: nat)
    requires Distinct(order) && Satisfied(Iterate(order, n))
    ensures Acyclic(order)
  {
    hide Satisfied, Ranked, Distinct, Permuted;
    var last := Iterate(order, n);
    IteratePermutes(order, n);
    DistinctPermutes(order, last);
    SatisfiedIsRanked(last);
    PermutedSymmetric(last, order);
    RankedPermutes(last, order, Positions(last, |last|), |last|);
  }

  // ---- Constraints on both sides

  /** i must come after k and before j; j and k themselves ask for nothing. */
  const I := Entry(2, "i", {"j"}, {"k"})
  const J := Entry(0, "j", {}, {})
  const K := Entry(1, "k", {}, {})

  lemma {:induction false} MixedSwings(n: nat)
    ensures Iterate([J, K, I], n) == if n % 2 == 0 then [J, K, I] else [I, J, K]
  {
    hide Repair;
    if n > 0 {
      MixedSwings(n - 1);
      SwingBack();
      SwingForth();
    }
  }

  lemma SwingForth()
    ensures Repair([J, K, I]) == [I, J, K]
  {
    var order := [J, K, I];
    assert LastBefore(order, 2, 1) == 0;
    assert FirstAfter(order, 0, 2) == 3;
    assert RepairFrom(order, 2) == MoveBefore(order, 2, 0);
    assert RepairFrom(order, 1) == RepairFrom(order, 2);
  }

  lemma SwingBack()
    ensures Repair([I, J, K]) == [J, K, I]
  {
    var order := [I, J, K];
    assert FirstAfter(order, 0, 2) == 2;
    assert RepairFrom(order, 0) == MoveAfter(order, 0, 2);
  }

  /** With constraints on both sides acyclicity is not enough: this list can be put in order, yet never comes to rest.
      Its leader needs a module that the one it leads does not. */
  lemma MixedMayNeverSettle()
    ensures Acyclic([J, K, I]) && Distinct([J, K, I]) && !Settles([J, K, I])
    ensures Satisfied([K, I, J]) && Permuted([K, I, J], [J, K, I])
  {
    hide Iterate;
    var order, rank := [J, K, I], map[1 := 0, 2 := 1, 0 := 2];
    assert Ranked(order, rank, 3);
    forall n
      ensures !Satisfied(Iterate(order, n))
    {
      MixedSwings(n);
      assert order[0].name in order[2].before;
      assert [I, J, K][2].name in [I, J, K][0].after;
    }
    assert Satisfied([K, I, J]);
  }
}
