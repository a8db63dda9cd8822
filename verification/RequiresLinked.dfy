/** For which constraints the repair loop of requires/requires.go comes to rest from every starting order. */
module RequiresLinked {
  import opened Requires
  import opened RequiresSettling
  import opened RequiresRounds
  import opened RequiresInsertion
  import opened RequiresCap

  // ---- Linked constraints come to rest

  /** The list with element `i` moved in front to `q`. */
  function Slid(order: Order, i: nat, q: nat): (o: Order)
    requires q <= i < |order|
    ensures |o| == |order| && forall k | 0 <= k < |order| :: o[k] == order[Origin(i, q, k)]
  {
    if q < i then
      MoveBeforeAt(order, i, q);
      MoveBefore(order, i, q)
    else order
  }

  lemma SlidIsSettled(order: Order, i: nat, q: nat)
    requires q <= i < |order| && SettledBelow(order, i)
    ensures SettledBelow(Slid(order, i, q), q)
  {
    hide Needs, Leads, Slid;
    var o := Slid(order, i, q);
    forall k | 0 <= k < q
      ensures Quiet(o, k) && Unled(o, k)
    {
      assert Quiet(order, k) && Unled(order, k);
    }
  }

  lemma SlidAgain(order: Order, i: nat, q: nat, j: nat)
    requires j < q <= i < |order|
    ensures MoveBefore(Slid(order, i, q), q, j) == Slid(order, i, j)
  {
    MoveBeforeAt(Slid(order, i, q), q, j);
    hide MoveBefore, Slid;
    assert forall k | 0 <= k < |order| :: MoveBefore(Slid(order, i, q), q, j)[k] == Slid(order, i, j)[k];
  }

  lemma SlidBack(order: Order, i: nat, q: nat, j: nat)
    requires q <= i < j < |order|
    ensures MoveAfter(Slid(order, i, q), q, j) == MoveAfter(order, i, j)
  {
    MoveAfterAt(Slid(order, i, q), q, j);
    MoveAfterAt(order, i, j);
    hide MoveAfter, Slid;
    assert forall k | 0 <= k < |order| :: MoveAfter(Slid(order, i, q), q, j)[k] == MoveAfter(order, i, j)[k];
  }

  /** However far the first unsettled element moves in front of those it leads: as long as it needs something behind it,
      it comes back past all of them and stands behind what it needs. */
  lemma {:induction false} ComesBack(order: Order, rank: map<nat, nat>, bound: nat, i: nat, q: nat)
    returns (n: nat, j: nat)
    requires Distinct(order) && Ranked(order, rank, bound) && Linked(order)
    requires q <= i < |order| && SettledBelow(order, i) && !Quiet(order, i)
    requires q < i ==> Leads(order[i], order[q])
    ensures i < j < |order| && Needs(order[i], order[j])
    ensures n <= q + 1 && Iterate(Slid(order, i, q), n) == MoveAfter(order, i, j)
    ensures Unled(Slid(order, i, q), q) ==> n == 1
    decreases q
  {
    hide Iterate, Repair, MoveBefore, MoveAfter, Slid, Needs, Leads, Distinct, Ranked, Linked, SettledBelow;
    var o := Slid(order, i, q);
    SlidIsSettled(order, i, q);
    if Unled(o, q) {
      var k :| i < k < |order| && Needs(order[i], order[k]);
      assert o[k] == order[k] && o[q] == order[i];
      j := NeedMove(o, q);
      if j <= i {
        NeedsBeforeLed(order, rank, bound, i, q, j - 1);
        assert false;
      }
      SlidBack(order, i, q, j);
      assert o[j] == order[j];
      IterateFirst(o);
      n := 1;
    } else {
      var p := LeadMove(o, q);
      assert o[p] == order[p] && o[q] == order[i];
      SlidAgain(order, i, q, p);
      n, j := ComesBack(order, rank, bound, i, p);
      IterateShift(o, n);
      n := n + 1;
    }
  }

  lemma IterateFirst(order: Order)
    ensures Iterate(order, 1) == Repair(order)
  {
    hide Repair;
    assert Iterate(order, 0) == order;
  }

  /** Nobody from `i` on leads one in front of `i`. */
  ghost predicate Unruled(order: Order, i: nat) {
    forall k, j | i <= k < |order| && 0 <= j < i && j < k :: !Leads(order[k], order[j])
  }

  lemma UnruledStays(order: Order, i: nat, j: nat)
    requires i < j < |order| && Unruled(order, i) && SettledBelow(order, i)
    ensures Unruled(MoveAfter(order, i, j), i)
  {
    SuffixMoved(order, i, j, i);
    hide MoveAfter, Leads, SettledBelow;
    assert forall k | 0 <= k < i :: MoveAfter(order, i, j)[k] == order[..i][k] == order[k];
  }

  /** The first unsettled place gets an element that needs nothing behind it; each that is sent back costs at most `k`
      rounds. */
  lemma {:induction false} QuietsInTheEnd(order: Order, rank: map<nat, nat>, bound: nat, i: nat, k: nat,
                                          top: Order, ws: seq<nat>)
    returns (n: nat)
    requires i < |order| && Distinct(order) && Ranked(order, rank, bound) && Linked(order) && SettledBelow(order, i)
    requires k == i + 1 || (k == 1 && Unruled(order, i))
    requires |top| == |ws| && Dominated(top, ws) && Distinct(top) && forall k | i <= k < |order| :: order[k] in top
    ensures n <= k * Load(order, i, top, ws, |top|)
    ensures var o := Iterate(order, n);
      Permuted(o, order) && |o| == |order| && SettledBelow(o, i) && Quiet(o, i)
    decreases Load(order, i, top, ws, |top|)
  {
    hide Repair, Iterate, SettledBelow, Dominated, Load, Distinct, Linked, Ranked, MoveAfter, Permuted, Leads;
    if Quiet(order, i) {
      n := 0;
      PermutedReflexive(order);
      IterateNone(order);
    } else {
      var c, j := ComesBack(order, rank, bound, i, i);
      var o := MoveAfter(order, i, j);
      if Unruled(order, i) {
        UnruledStays(order, i, j);
      }
      assert c <= k;
      hide Unruled;
      var p :| 0 <= p < |top| && top[p] == order[i];
      MoveUnloads(order, i, i, j, top, ws, p);
      SuffixMoved(order, i, j, i);
      MovesPermute(order, i, j);
      StaysGood(order, o);
      n := QuietsInTheEnd(o, rank, bound, i, k, top, ws);
      IterateAdds(order, c, n);
      PermutedTransitive(Iterate(o, n), o, order);
      RoundsFit(k, Load(order, i, top, ws, |top|), Load(o, i, top, ws, |top|), c, n);
      n := c + n;
    }
  }

  lemma RoundsFit(k: nat, a: nat, b: nat, c: nat, n: nat)
    requires b < a && c <= k && n <= k * b
    ensures c + n <= k * a
  {
    assert k * b + k == k * (b + 1) <= k * a;
  }

  /** With the modules ranked and weighed by powers of two. */
  lemma FrontInTheEnd(order: Order, rank: map<nat, nat>, bound: nat, i: nat, k: nat) returns (n: nat)
    requires i < |order| && Distinct(order) && Ranked(order, rank, bound) && Linked(order) && SettledBelow(order, i)
    requires k == i + 1 || (k == 1 && Unruled(order, i))
    ensures n <= k * (Pow2(|order| - i - 1) - 1)
    ensures var o := Iterate(order, n);
      Permuted(o, order) && |o| == |order| && SettledBelow(o, i) && Quiet(o, i)
  {
    hide Permuted, Distinct, Ranked, Linked, Iterate, Load, Held, Dominated, Unruled;
    var top := ListByRank(order, i, rank, bound);
    var ws := Powers(|top|);
    PowersDominate(top);
    FirstIsFree(order, i, top);
    LoadBelow(order, i, top, 1, |top|);
    hide Pow2, SettledBelow, Quiet;
    n := QuietsInTheEnd(order, rank, bound, i, k, top, ws);
    TimesFit(k, Load(order, i, top, ws, |top|), Pow2(|order| - i - 1) - 1, n);
  }

  lemma TimesFit(k: nat, a: nat, b: int, n: nat)
    requires a <= b && n <= k * a
    ensures n <= k * b
  {
  }

  lemma OneMoreInTheEnd(order: Order, rank: map<nat, nat>, bound: nat, i: nat, k: nat) returns (n: nat)
    requires i < |order| && Distinct(order) && Ranked(order, rank, bound) && Linked(order) && SettledBelow(order, i)
    requires k == i + 1 || (k == 1 && Unruled(order, i))
    ensures var o := Iterate(order, n); Permuted(o, order) && |o| == |order| && SettledBelow(o, i + 1)
    ensures n <= k * (Pow2(|order| - i - 1) - 1) + i
  {
    hide *;
    var a := FrontInTheEnd(order, rank, bound, i, k);
    var o := Iterate(order, a);
    StaysGood(order, o);
    var b := TakesIn(o, rank, bound, i);
    IterateAdds(order, a, b);
    PermutedTransitive(Iterate(o, b), o, order);
    n := a + b;
  }

  // ---- The first two places

  /** It needs none of the others. */
  ghost predicate Needless(order: Order, e: Entry) {
    forall f | f in order && f != e :: !Needs(e, f)
  }

  lemma {:induction false} LowestNeedsNothing(order: Order, rank: map<nat, nat>, bound: nat, x: Entry)
    returns (g: Entry)
    requires Distinct(order) && Ranked(order, rank, bound) && x in order
    ensures g in order && Needless(order, g) && Rank(rank, g) <= Rank(rank, x)
    decreases Rank(rank, x)
  {
    hide Distinct, Ranked, Needs;
    g := x;
    if !Needless(order, x) {
      var z :| z in order && z != x && Needs(x, z);
      NeedRanks(order, rank, bound, x, z);
      g := LowestNeedsNothing(order, rank, bound, z);
    }
  }

  /** A topological list stays one when something that needs nothing moves towards its front. */
  lemma Forward(top: Order, q: nat, c: nat)
    requires c <= q < |top| && Topological(top) && Distinct(top) && Needless(top, top[q])
    ensures Topological(Slid(top, q, c)) && Distinct(Slid(top, q, c))
    ensures forall e :: e in Slid(top, q, c) <==> e in top
  {
    var o := Slid(top, q, c);
    if c < q {
      MovesPermute(top, q, c);
      PermutedFacts(o, top);
      DistinctPermutes(top, o);
    }
    hide Slid, Needs, Distinct;
    forall k, l | 0 <= k < |o| && 0 <= l < |o| && k != l && Needs(o[l], o[k])
      ensures k < l
    {
      assert Needs(top[Origin(q, c, l)], top[Origin(q, c, k)]);
      DistinctPlaces(top, Origin(q, c, l), Origin(q, c, k));
    }
  }

  lemma DistinctPlaces(order: Order, k: nat, l: nat)
    requires Distinct(order) && k < |order| && l < |order| && k != l
    ensures order[k] != order[l]
  {
  }

  /** Two that need nothing can be listed first. */
  lemma TwoFirst(order: Order, rank: map<nat, nat>, bound: nat, f: Entry, g: Entry) returns (top: Order)
    requires Distinct(order) && Ranked(order, rank, bound) && f in order && g in order && f != g
    requires Needless(order, f) && Needless(order, g)
    ensures Topological(top) && Distinct(top) && |top| == |order| >= 2 && (forall e :: e in top <==> e in order)
    ensures top[0] == f && top[1] == g
  {
    hide Distinct, Ranked, Needs, Topological, Slid;
    top := ListByRank(order, 0, rank, bound);
    assert order[0..] == order;
    var p :| 0 <= p < |top| && top[p] == f;
    Forward(top, p, 0);
    top := Slid(top, p, 0);
    var q :| 0 <= q < |top| && top[q] == g;
    Forward(top, q, 1);
    top := Slid(top, q, 1);
  }

  lemma NeedlessIsFree(order: Order, e: Entry)
    requires Distinct(order) && Needless(order, e)
    ensures !Held(order, 0, e)
  {
    hide Needs;
  }

  /** If there are two, the first place gets its element in half the rounds. */
  lemma OneOfTwo(order: Order, rank: map<nat, nat>, bound: nat, f: Entry, g: Entry) returns (n: nat)
    requires Distinct(order) && Ranked(order, rank, bound) && Linked(order) && f in order && g in order && f != g
    requires Needless(order, f) && Needless(order, g)
    ensures |order| >= 2 && n <= Pow2(|order| - 2) - 1
    ensures var o := Iterate(order, n); Permuted(o, order) && |o| == |order| && SettledBelow(o, 1)
  {
    hide Permuted, Distinct, Ranked, Linked, Iterate, Load, Held, Dominated, Needless, Topological, Quiet;
    var top := TwoFirst(order, rank, bound, f, g);
    var ws := Powers(|top|);
    PowersDominate(top);
    NeedlessIsFree(order, f);
    NeedlessIsFree(order, g);
    LoadBelow(order, 0, top, 2, |top|);
    hide Pow2;
    n := QuietsInTheEnd(order, rank, bound, 0, 1, top, ws);
  }

  /** Something that needs nothing is led. */
  ghost predicate RootLed(order: Order) {
    exists x, f :: x in order && f in order && x != f && Leads(x, f) && Needless(order, f)
  }

  /** Either the first place gets its element in half the rounds, or nothing leads that element. */
  lemma FirstInTheEnd(order: Order, rank: map<nat, nat>, bound: nat) returns (n: nat)
    requires |order| >= 2 && Distinct(order) && Ranked(order, rank, bound) && Linked(order)
    ensures var o := Iterate(order, n); Permuted(o, order) && |o| == |order| && SettledBelow(o, 1)
    ensures n < if RootLed(order) then Pow2(|order| - 2) else 2 * Pow2(|order| - 2)
    ensures !RootLed(order) ==> Unruled(Iterate(order, n), 1)
  {
    assert SettledBelow(order, 0) && Pow2(|order| - 1) == 2 * Pow2(|order| - 2);
    hide Permuted, Distinct, Ranked, Linked, Iterate, Needless, Leads, SettledBelow;
    if x, f :| x in order && f in order && x != f && Leads(x, f) && Needless(order, f) {
      var g := LowestNeedsNothing(order, rank, bound, x);
      LeadRanks(order, rank, bound, x, f);
      n := OneOfTwo(order, rank, bound, f, g);
    } else {
      n := OneMoreInTheEnd(order, rank, bound, 0, 1);
      FirstUnruled(order, Iterate(order, n));
    }
  }

  lemma FirstUnruled(order: Order, o: Order)
    requires |order| > 0 && Distinct(order) && Permuted(o, order) && |o| == |order| && SettledBelow(o, 1)
    requires !RootLed(order)
    ensures Unruled(o, 1)
  {
    PermutedFacts(o, order);
    DistinctPermutes(order, o);
    hide Permuted, Distinct, Needs, Leads;
    assert Quiet(o, 0);
    assert Needless(order, o[0]);
    forall k | 1 <= k < |o|
      ensures !Leads(o[k], o[0])
    {
      DistinctPlaces(o, k, 0);
      assert o[k] in order && o[0] in order;
    }
  }

  lemma SumFits(p: nat, k: nat, a: nat, b: nat)
    requires p > 0 && (k == 2 || k == 1) && b <= k * (p - 1) + 1
    requires a < if k == 2 then p else 2 * p
    ensures a + b < 3 * p
  {
  }

  lemma TwoInTheEnd(order: Order, rank: map<nat, nat>, bound: nat) returns (n: nat)
    requires |order| >= 2 && Distinct(order) && Ranked(order, rank, bound) && Linked(order)
    ensures var o := Iterate(order, n); Permuted(o, order) && |o| == |order| && SettledBelow(o, 2)
    ensures n < 3 * Pow2(|order| - 2)
  {
    hide *;
    var a := FirstInTheEnd(order, rank, bound);
    var o := Iterate(order, a);
    StaysGood(order, o);
    var k := if RootLed(order) then 2 else 1;
    var b := OneMoreInTheEnd(o, rank, bound, 1, k);
    IterateAdds(order, a, b);
    PermutedTransitive(Iterate(o, b), o, order);
    SumFits(Pow2(|order| - 2), k, a, b);
    n := a + b;
  }

  // ---- All places

  /** Rounds for the places from `i` on. */
  function LinkedRounds(n: nat, i: nat): nat
    requires i <= n
    decreases n - i
  {
    if i == n then 0 else (i + 1) * (Pow2(n - i - 1) - 1) + i + LinkedRounds(n, i + 1)
  }

  lemma {:induction false} LinkedRoundsAre(n: nat, i: nat)
    requires i <= n
    ensures LinkedRounds(n, i) + 2 * n + 2 - i == (i + 2) * Pow2(n - i)
    decreases n - i
  {
    if i < n {
      LinkedRoundsAre(n, i + 1);
      var p := Pow2(n - i - 1);
      assert Pow2(n - i) == 2 * p;
      assert (i + 1) * (p - 1) + i + (i + 3) * p == (i + 2) * (2 * p) - 1;
    }
  }

  lemma {:induction false} GrowsInTheEnd(order: Order, rank: map<nat, nat>, bound: nat, i: nat) returns (n: nat)
    requires i <= |order| && SettledBelow(order, i)
    requires Distinct(order) && Ranked(order, rank, bound) && Linked(order)
    ensures var o := Iterate(order, n); |o| == |order| && SettledBelow(o, |order|)
    ensures n <= LinkedRounds(|order|, i)
    decreases |order| - i
  {
    hide Permuted, Distinct, Ranked, Linked, Iterate, SettledBelow;
    if i == |order| {
      n := 0;
      IterateNone(order);
    } else {
      var c := OneMoreInTheEnd(order, rank, bound, i, i + 1);
      var o := Iterate(order, c);
      StaysGood(order, o);
      n := GrowsInTheEnd(o, rank, bound, i + 1);
      IterateAdds(order, c, n);
      n := c + n;
    }
  }

  lemma AllInTheEnd(order: Order, rank: map<nat, nat>, bound: nat) returns (n: nat)
    requires |order| >= 2 && Distinct(order) && Ranked(order, rank, bound) && Linked(order)
    ensures var o := Iterate(order, n); |o| == |order| && SettledBelow(o, |order|)
    ensures n <= 7 * Pow2(|order| - 2) - 2 * |order| - 1
  {
    hide Permuted, Distinct, Ranked, Linked, Iterate, SettledBelow, LinkedRounds;
    var a := TwoInTheEnd(order, rank, bound);
    var o := Iterate(order, a);
    StaysGood(order, o);
    var b := GrowsInTheEnd(o, rank, bound, 2);
    LinkedRoundsAre(|order|, 2);
    IterateAdds(order, a, b);
    n := a + b;
  }

  /** A linked acyclic list of `n` modules, at least two, is in order after at most 7 * 2^(n - 2) - 2 * n - 1 rounds. */
  lemma LinkedSettles(order: Order) returns (n: nat)
    requires Distinct(order) && Linked(order) && Acyclic(order)
    ensures Satisfied(Iterate(order, n))
    ensures n <= if |order| < 2 then 0 else 7 * Pow2(|order| - 2) - 2 * |order| - 1
  {
    hide Distinct, Ranked, Linked, Satisfied, Settled;
    n := 0;
    var o := order;
    if |order| >= 2 {
      var rank, bound :| Ranked(order, rank, bound);
      n := AllInTheEnd(order, rank, bound);
      o := Iterate(order, n);
    }
    SatisfiedIffSettled(o);
    forall i | 0 <= i < |o|
      ensures Settled(o, i)
    {
      SettledMeans(o, i);
    }
  }

  /** Linked constraints, on one side or on both: the repair loop comes to rest exactly when they have no cycle. */
  lemma LinkedSettlesIffAcyclic(order: Order)
    requires Distinct(order) && Linked(order)
    ensures Settles(order) <==> Acyclic(order)
  {
    hide Satisfied, Ranked, Distinct, Permuted, Linked;
    if Acyclic(order) {
      var n := LinkedSettles(order);
    }
    if n :| Satisfied(Iterate(order, n)) {
      SettledIsAcyclic(order, n);
    }
  }

  /** Within the cap, six modules. */
  lemma FewLinkedStart(order: Order)
    requires Distinct(order) && Linked(order) && Acyclic(order) && |order| <= 6
    ensures Starts(order)
  {
    hide Satisfied, Iterate, Distinct, Linked, Acyclic;
    var n := LinkedSettles(order);
    Powers7();
    assert |order| >= 2 ==> 7 * Pow2(|order| - 2) - 2 * |order| - 1 < CAP;
  }

  /** The cap lets all linked acyclic lists of a size start exactly up to six modules. */
  lemma LinkedStartsIff(size: nat)
    ensures (forall order | Orderly(order, size) && Linked(order) :: Starts(order)) <==> size <= 6
  {
    hide Distinct, Acyclic, Compatible, Linked, AfterOnly, Starts;
    if size <= 6 {
      forall order | Orderly(order, size) && Linked(order)
        ensures Starts(order)
      {
        FewLinkedStart(order);
      }
    } else {
      var order := ReversedNeverStarts(size);
      OneSidedIsCompatible(order);
      CompatibleIsLinked(order);
    }
  }

  // ---- Others swing for ever from some order

  lemma {:induction false} ReachesFurther(order: Order, a: Entry, b: Entry, c: Entry, n: nat)
    requires Reaches(order, a, b, n) && c in order && Needs(b, c)
    ensures Reaches(order, a, c, n + 1)
    decreases n
  {
    hide Needs;
    if a == b {
      assert Reaches(order, c, c, n);
    } else {
      var d :| d in order && Needs(a, d) && Reaches(order, d, b, n - 1);
      ReachesFurther(order, d, b, c, n - 1);
    }
  }

  /** Whatever is needed in the end ranks no higher. */
  lemma {:induction false} ReachesRank(order: Order, rank: map<nat, nat>, bound: nat, a: Entry, b: Entry, n: nat)
    requires Distinct(order) && Ranked(order, rank, bound) && a in order && Reaches(order, a, b, n)
    ensures b in order && Rank(rank, b) <= Rank(rank, a)
    decreases n
  {
    if a != b {
      var c :| c in order && Needs(a, c) && Reaches(order, c, b, n - 1);
      NeedRanks(order, rank, bound, a, c);
      ReachesRank(order, rank, bound, c, b, n - 1);
    }
  }

  lemma NeedRanks(order: Order, rank: map<nat, nat>, bound: nat, x: Entry, z: Entry)
    requires Distinct(order) && Ranked(order, rank, bound) && x in order && z in order && Needs(x, z)
    ensures x != z ==> Rank(rank, z) < Rank(rank, x)
  {
    NeedPrecedes(x, z);
    if x != z {
      DistinctIds(order, x, z);
    }
  }

  lemma LeadRanks(order: Order, rank: map<nat, nat>, bound: nat, x: Entry, y: Entry)
    requires Distinct(order) && Ranked(order, rank, bound) && x in order && y in order && Leads(x, y)
    ensures x != y ==> Rank(rank, x) < Rank(rank, y)
  {
    LeadPrecedes(x, y);
    if x != y {
      DistinctIds(order, x, y);
    }
  }

  lemma DistinctIds(order: Order, x: Entry, y: Entry)
    requires Distinct(order) && x in order && y in order && x != y
    ensures x.id != y.id
  {
    var i :| 0 <= i < |order| && order[i] == x;
    var j :| 0 <= j < |order| && order[j] == y;
    assert order[if i < j then i else j].id != order[if i < j then j else i].id;
  }

  /** What `y` needs in the end, and what the others that `z` needs do. */
  ghost predicate Core(order: Order, y: Entry, z: Entry, e: Entry) {
    (exists n :: Reaches(order, y, e, n)) ||
    (exists f, n :: f in order && f != z && Needs(z, f) && Reaches(order, f, e, n))
  }

  /** `x` leads `y` and needs `z`, and nothing links the two. */
  ghost predicate Torn(order: Order, rank: map<nat, nat>, bound: nat, x: Entry, y: Entry, z: Entry) {
    && Distinct(order) && Ranked(order, rank, bound) && x in order && y in order && z in order
    && Leads(x, y) && Needs(x, z) && !Links(order, y, z)
  }

  lemma CoreCloses(order: Order, y: Entry, z: Entry, e: Entry, f: Entry)
    requires Core(order, y, z, e) && f in order && Needs(e, f)
    ensures Core(order, y, z, f)
  {
    hide Needs;
    if n :| Reaches(order, y, e, n) {
      ReachesFurther(order, y, e, f, n);
    } else {
      var g, n :| g in order && g != z && Needs(z, g) && Reaches(order, g, e, n);
      ReachesFurther(order, g, e, f, n);
    }
  }

  /** The core holds `y` and the other needs of `z`, but neither `x` nor `z` nor anything that `z` leads. */
  lemma CoreExcludes(order: Order, rank: map<nat, nat>, bound: nat, x: Entry, y: Entry, z: Entry, e: Entry)
    requires Torn(order, rank, bound, x, y, z) && e in order && Core(order, y, z, e)
    ensures e != x && e != z && !Leads(z, e)
  {
    hide Needs, Leads, Ranked, Distinct;
    if n :| Reaches(order, y, e, n) {
      if e == x {
        ReachesFurther(order, y, x, z, n);
      }
    } else {
      var g, n :| g in order && g != z && Needs(z, g) && Reaches(order, g, e, n);
      NeedRanks(order, rank, bound, z, g);
      ReachesRank(order, rank, bound, g, e, n);
      if Leads(z, e) {
        LeadRanks(order, rank, bound, z, e);
      }
      assert Reaches(order, y, y, 0) && x != z;
      NeedRanks(order, rank, bound, x, z);
    }
  }

  lemma TornDiffer(order: Order, rank: map<nat, nat>, bound: nat, x: Entry, y: Entry, z: Entry)
    requires Torn(order, rank, bound, x, y, z)
    ensures x != y && x != z && y != z && !Leads(x, z) && !Needs(z, x)
    ensures Core(order, y, z, y) && !Core(order, y, z, x) && !Core(order, y, z, z)
  {
    hide Needs, Leads, Ranked, Distinct;
    assert Reaches(order, y, y, 0);
    assert x != z;
    assert y != z;
    assert Reaches(order, z, z, 0);
    assert Needs(y, z) ==> Reaches(order, y, z, 1);
    NeedRanks(order, rank, bound, x, z);
    if Leads(x, z) {
      LeadRanks(order, rank, bound, x, z);
    }
    if Needs(z, x) {
      NeedRanks(order, rank, bound, z, x);
    }
    if Core(order, y, z, x) {
      CoreExcludes(order, rank, bound, x, y, z, x);
    }
    if Core(order, y, z, z) {
      CoreExcludes(order, rank, bound, x, y, z, z);
    }
  }

  /** The core and `z` in front, `x` anywhere among them, and the others. */
  ghost predicate Swinging(order: Order, x: Entry, front: Order, rest: Order, o: Order, q: nat) {
    q <= |front| && o == front[..q] + [x] + front[q..] + rest
  }

  /** A front, settled without `x`, that needs nothing outside; `x` leads its element `a` and needs its last one. */
  ghost predicate Trap(order: Order, x: Entry, front: Order, rest: Order, a: nat) {
    && a + 1 < |front| && Leads(x, front[a]) && Needs(x, front[|front| - 1])
    && !Leads(x, front[|front| - 1])
    && (forall k, m | 0 <= k < m < |front| :: !Needs(front[k], front[m]) && !Leads(front[m], front[k]))
    && (forall k | 0 <= k < |front| :: !Needs(front[k], x))
    && (forall k, m | 0 <= k < |front| && 0 <= m < |rest| :: !Needs(front[k], rest[m]))
  }

  lemma TrapIsSettled(order: Order, x: Entry, front: Order, rest: Order, a: nat, o: Order, q: nat)
    requires Trap(order, x, front, rest, a) && Swinging(order, x, front, rest, o, q)
    ensures SettledBelow(o, q) && q < |o| && !(Quiet(o, q) && Unled(o, q))
  {
    hide Needs, Leads;
    var last := |front| - 1;
    assert o[q] == x;
    forall k | 0 <= k < q
      ensures Quiet(o, k) && Unled(o, k)
    {
      assert o[k] == front[k];
      forall m | k < m < |o|
        ensures !Needs(o[k], o[m])
      {
        if m > q {
          if m <= |front| {
            assert o[m] == front[m - 1];
          } else {
            assert o[m] == rest[m - |front| - 1];
          }
        }
      }
    }
    if q <= last {
      assert o[|front|] == front[last];
    } else {
      assert o[a] == front[a];
    }
  }

  /** A round only moves `x` within the front. */
  lemma TrapKeeps(order: Order, x: Entry, front: Order, rest: Order, a: nat, o: Order, q: nat) returns (p: nat)
    requires Trap(order, x, front, rest, a) && Swinging(order, x, front, rest, o, q)
    ensures Swinging(order, x, front, rest, Repair(o), p) && !Satisfied(o)
  {
    hide Needs, Leads, Repair, MoveBefore, MoveAfter, Satisfied;
    TrapIsSettled(order, x, front, rest, a, o, q);
    assert o[q] == x;
    if Unled(o, q) {
      assert forall k | 0 <= k < q :: o[k] == front[k];
      assert q <= a;
      assert o[|front|] == front[|front| - 1];
      p := NeedMove(o, q);
      assert p <= |front|;
      MoveAfterAt(o, q, p);
      assert MoveAfter(o, q, p) == front[..p] + [x] + front[p..] + rest;
      NeedIsUnsatisfied(o, q, p);
    } else {
      p := LeadMove(o, q);
      MoveBeforeAt(o, q, p);
      assert MoveBefore(o, q, p) == front[..p] + [x] + front[p..] + rest;
      NeedIsUnsatisfied(o, p, q);
    }
  }

  lemma {:induction false} TrapForEver(order: Order, x: Entry, front: Order, rest: Order, a: nat, o: Order, n: nat)
    returns (p: nat)
    requires Trap(order, x, front, rest, a) && Swinging(order, x, front, rest, o, |front|)
    ensures Swinging(order, x, front, rest, Iterate(o, n), p) && !Satisfied(Iterate(o, n))
  {
    hide Repair, Satisfied, Trap, Swinging;
    p := |front|;
    if n > 0 {
      p := TrapForEver(order, x, front, rest, a, o, n - 1);
      p := TrapKeeps(order, x, front, rest, a, Iterate(o, n - 1), p);
    }
    var r := TrapKeeps(order, x, front, rest, a, Iterate(o, n), p);
  }

  /** First the core by rank, then `z`, then `x`, then all others. */
  ghost function Key(order: Order, rank: map<nat, nat>, bound: nat, x: Entry, y: Entry, z: Entry, e: Entry): nat {
    if Core(order, y, z, e) then Rank(rank, e) else if e == z then bound else if e == x then bound + 1 else bound + 2
  }

  ghost function Keys(order: Order, rank: map<nat, nat>, bound: nat, x: Entry, y: Entry, z: Entry, n: nat)
    : map<nat, nat>
    requires n <= |order|
  {
    if n == 0 then map[]
    else Keys(order, rank, bound, x, y, z, n - 1)[order[n - 1].id := Key(order, rank, bound, x, y, z, order[n - 1])]
  }

  lemma {:induction false} KeysAre(order: Order, rank: map<nat, nat>, bound: nat, x: Entry, y: Entry, z: Entry, n: nat)
    requires n <= |order| && Distinct(order)
    ensures forall k | 0 <= k < n ::
      Rank(Keys(order, rank, bound, x, y, z, n), order[k]) == Key(order, rank, bound, x, y, z, order[k])
  {
    hide Key;
    if n > 0 {
      KeysAre(order, rank, bound, x, y, z, n - 1);
    }
  }

  /** The starting order, and where `x` stands in it. */
  ghost predicate Sorted(order: Order, rank: map<nat, nat>, bound: nat, x: Entry, y: Entry, z: Entry,
                         o: Order, c: nat)
  {
    && Torn(order, rank, bound, x, y, z) && c < |o| && o[c] == x && Distinct(o) && (forall e :: e in o <==> e in order)
    && forall k, m | 0 <= k < m < |o| ::
         Key(order, rank, bound, x, y, z, o[k]) <= Key(order, rank, bound, x, y, z, o[m])
  }

  lemma SortTorn(order: Order, rank: map<nat, nat>, bound: nat, x: Entry, y: Entry, z: Entry) returns (o: Order, c: nat)
    requires Torn(order, rank, bound, x, y, z)
    ensures Permuted(o, order) && Sorted(order, rank, bound, x, y, z, o, c)
  {
    hide Key, Links;
    var keys := Keys(order, rank, bound, x, y, z, |order|);
    KeysAre(order, rank, bound, x, y, z, |order|);
    o := SortByRank(order, keys);
    SortSorts(order, keys);
    hide SortByRank, Keys;
    PermutedFacts(o, order);
    DistinctPermutes(order, o);
    assert forall k | 0 <= k < |o| :: o[k] in order;
    assert forall e | e in order :: Rank(keys, e) == Key(order, rank, bound, x, y, z, e);
    c :| 0 <= c < |o| && o[c] == x;
  }

  /** In front of `x` stand the core and then `z`, behind it neither. */
  lemma SortedParts(order: Order, rank: map<nat, nat>, bound: nat, x: Entry, y: Entry, z: Entry, o: Order, c: nat)
    requires Sorted(order, rank, bound, x, y, z, o, c)
    ensures c > 0 && o[c - 1] == z
    ensures forall k | 0 <= k < c - 1 :: Core(order, y, z, o[k])
    ensures forall k | c < k < |o| :: o[k] != z && !Core(order, y, z, o[k])
  {
    hide Core, Links, Needs, Leads;
    TornDiffer(order, rank, bound, x, y, z);
    forall e | e in order
      ensures Rank(rank, e) < bound
    {
      RankBelow(order, rank, bound, e);
    }
    var d :| 0 <= d < |o| && o[d] == z;
    assert forall k | 0 <= k < |o| :: o[k] in order;
    assert forall k | 0 <= k < |o| && k != c :: o[k] != x;
    assert forall k | 0 <= k < |o| && k != d :: o[k] != z;
    assert d < c;
    var k := c - 1;
    assert Key(order, rank, bound, x, y, z, o[k]) <= Key(order, rank, bound, x, y, z, o[c]) == bound + 1;
    assert d == c - 1;
  }

  lemma RankBelow(order: Order, rank: map<nat, nat>, bound: nat, e: Entry)
    requires Ranked(order, rank, bound) && e in order
    ensures Rank(rank, e) < bound
  {
    var i :| 0 <= i < |order| && order[i] == e;
  }

  lemma SortedIsTrap(order: Order, rank: map<nat, nat>, bound: nat, x: Entry, y: Entry, z: Entry, o: Order, c: nat)
    returns (a: nat)
    requires Sorted(order, rank, bound, x, y, z, o, c)
    ensures Trap(order, x, o[..c], o[c + 1..], a)
  {
    a := LedPlace(order, rank, bound, x, y, z, o, c);
    hide Needs, Leads, Torn, Core, Key;
    forall k, m | 0 <= k < m < c
      ensures !Needs(o[k], o[m]) && !Leads(o[m], o[k])
    {
      FrontInOrder(order, rank, bound, x, y, z, o, c, k, m);
    }
    forall k, m | 0 <= k < c <= m < |o|
      ensures !Needs(o[k], o[m])
    {
      FrontNeedsFront(order, rank, bound, x, y, z, o, c, k, m);
    }
    hide Sorted;
    CutTrap(order, o, c, a);
  }

  lemma LedPlace(order: Order, rank: map<nat, nat>, bound: nat, x: Entry, y: Entry, z: Entry, o: Order, c: nat)
    returns (a: nat)
    requires Sorted(order, rank, bound, x, y, z, o, c)
    ensures a + 1 < c < |o| && o[c] == x && Leads(o[c], o[a]) && Needs(o[c], o[c - 1]) && !Leads(o[c], o[c - 1])
  {
    hide Key, Core, Needs, Leads;
    SortedParts(order, rank, bound, x, y, z, o, c);
    TornDiffer(order, rank, bound, x, y, z);
    a :| 0 <= a < |o| && o[a] == y;
  }

  lemma CutTrap(order: Order, o: Order, c: nat, a: nat)
    requires a + 1 < c < |o| && Leads(o[c], o[a]) && Needs(o[c], o[c - 1]) && !Leads(o[c], o[c - 1])
    requires forall k, m | 0 <= k < m < c :: !Needs(o[k], o[m]) && !Leads(o[m], o[k])
    requires forall k, m | 0 <= k < c <= m < |o| :: !Needs(o[k], o[m])
    ensures Trap(order, o[c], o[..c], o[c + 1..], a)
  {
    hide Needs, Leads;
    var front, rest := o[..c], o[c + 1..];
    forall k, m | 0 <= k < c && 0 <= m < |rest|
      ensures !Needs(front[k], rest[m])
    {
      assert rest[m] == o[c + 1 + m];
    }
  }

  lemma FrontInOrder(order: Order, rank: map<nat, nat>, bound: nat, x: Entry, y: Entry, z: Entry, o: Order, c: nat,
                     k: nat, m: nat)
    requires Sorted(order, rank, bound, x, y, z, o, c) && k < m < c
    ensures !Needs(o[k], o[m]) && !Leads(o[m], o[k])
  {
    SortedParts(order, rank, bound, x, y, z, o, c);
    assert o[k] in order && o[m] in order;
    CoreExcludes(order, rank, bound, x, y, z, o[k]);
    TornDiffer(order, rank, bound, x, y, z);
    hide Needs, Leads, Torn, Core, Key;
    if m < c - 1 {
      CoreInOrder(order, rank, bound, x, y, z, o, c, k, m);
    } else if Needs(o[k], z) {
      CoreCloses(order, y, z, o[k], z);
    }
  }

  lemma FrontNeedsFront(order: Order, rank: map<nat, nat>, bound: nat, x: Entry, y: Entry, z: Entry, o: Order, c: nat,
                        k: nat, m: nat)
    requires Sorted(order, rank, bound, x, y, z, o, c) && k < c <= m < |o|
    ensures !Needs(o[k], o[m])
  {
    SortedParts(order, rank, bound, x, y, z, o, c);
    assert o[k] in order && o[m] in order;
    TornDiffer(order, rank, bound, x, y, z);
    hide Needs, Leads, Torn, Core, Key;
    if Needs(o[k], o[m]) {
      if k < c - 1 {
        CoreCloses(order, y, z, o[k], o[m]);
      } else if m > c {
        CoreStarts(order, y, z, o[m]);
      }
    }
  }

  lemma CoreStarts(order: Order, y: Entry, z: Entry, f: Entry)
    requires f in order && f != z && Needs(z, f)
    ensures Core(order, y, z, f)
  {
    hide Needs;
    assert Reaches(order, f, f, 0);
  }

  lemma CoreInOrder(order: Order, rank: map<nat, nat>, bound: nat, x: Entry, y: Entry, z: Entry, o: Order, c: nat,
                    k: nat, m: nat)
    requires Sorted(order, rank, bound, x, y, z, o, c) && k < m < |o|
    requires Core(order, y, z, o[k]) && Core(order, y, z, o[m])
    ensures !Needs(o[k], o[m]) && !Leads(o[m], o[k])
  {
    hide Needs, Leads, Core, Links, Ranked;
    assert o[k] in order && o[m] in order && o[k] != o[m];
    assert Rank(rank, o[k]) <= Rank(rank, o[m]);
    if Needs(o[k], o[m]) {
      NeedRanks(order, rank, bound, o[k], o[m]);
    }
    if Leads(o[m], o[k]) {
      LeadRanks(order, rank, bound, o[m], o[k]);
    }
  }

  lemma Tear(order: Order) returns (rank: map<nat, nat>, bound: nat, x: Entry, y: Entry, z: Entry)
    requires Distinct(order) && Acyclic(order) && !Linked(order)
    ensures Torn(order, rank, bound, x, y, z)
  {
    hide Distinct, Ranked, Links, Needs, Leads;
    rank, bound :| Ranked(order, rank, bound);
    x, y, z :| x in order && y in order && z in order && Leads(x, y) && Needs(x, z) && !Links(order, y, z);
  }

  lemma CutSwings(order: Order, o: Order, c: nat)
    requires c < |o|
    ensures Swinging(order, o[c], o[..c], o[c + 1..], o, c)
  {
    assert o == o[..c][..c] + [o[c]] + o[..c][c..] + o[c + 1..];
  }

  /** Acyclic constraints that are not linked: from this order the list never comes to rest. */
  lemma UnlinkedSwings(order: Order) returns (o: Order)
    requires Distinct(order) && Acyclic(order) && !Linked(order)
    ensures Permuted(o, order) && !Settles(o)
  {
    hide Distinct, Ranked, Links, Needs, Leads, Satisfied, Permuted, Trap, Iterate;
    var rank, bound, x, y, z := Tear(order);
    var c;
    o, c := SortTorn(order, rank, bound, x, y, z);
    var a := SortedIsTrap(order, rank, bound, x, y, z, o, c);
    var front, rest := o[..c], o[c + 1..];
    assert Swinging(order, x, front, rest, o, c) by { CutSwings(order, o, c); }
    hide Sorted, Swinging, Torn;
    forall n: nat
      ensures !Satisfied(Iterate(o, n))
    {
      var p := TrapForEver(order, x, front, rest, a, o, n);
    }
  }

  /** The repair loop, given enough rounds, puts a set of modules in order from every starting order exactly when their
      constraints have no cycle and are linked. */
  lemma SettlesFromEveryOrderIff(order: Order)
    requires Distinct(order)
    ensures (forall o | Permuted(o, order) :: Settles(o)) <==> Acyclic(order) && Linked(order)
  {
    hide Distinct, Ranked, Linked, Acyclic, Satisfied, Permuted, Iterate;
    PermutedReflexive(order);
    if Acyclic(order) && Linked(order) {
      forall o | Permuted(o, order)
        ensures Settles(o)
      {
        StaysGood(order, o);
        AcyclicPermutes(order, o);
        var n := LinkedSettles(o);
      }
    } else if Acyclic(order) {
      var o := UnlinkedSwings(order);
    } else if Settles(order) {
      var n :| Satisfied(Iterate(order, n));
      SettledIsAcyclic(order, n);
    }
  }

  lemma AcyclicPermutes(order: Order, o: Order)
    requires Permuted(o, order) && Acyclic(order)
    ensures Acyclic(o)
  {
    hide Ranked, Permuted;
    var rank, bound :| Ranked(order, rank, bound);
    StaysGood(order, o);
  }

  /** Up to six modules start from every order of registration exactly when their constraints have no cycle and are
      linked. */
  lemma FewStartFromEveryOrderIff(order: Order)
    requires Distinct(order) && |order| <= 6
    ensures (forall o | Permuted(o, order) :: Starts(o)) <==> Acyclic(order) && Linked(order)
  {
    hide Distinct, Ranked, Linked, Acyclic, Satisfied, Permuted, Iterate;
    if Acyclic(order) && Linked(order) {
      forall o | Permuted(o, order)
        ensures Starts(o)
      {
        StaysGood(order, o);
        AcyclicPermutes(order, o);
        FewLinkedStart(o);
      }
    } else if forall o | Permuted(o, order) :: Starts(o) {
      assert forall o | Permuted(o, order) :: Settles(o);
      SettlesFromEveryOrderIff(order);
    }
  }

  // ---- Start-up

  lemma ValidIsDistinct(registry: Registry)
    requires registry.Valid()
    ensures Distinct(registry.Listed())
  {
  }

  /** Starting a registry: it exits if its constraints have a cycle, and never does if they have none, are linked, and
      the modules are few. */
  method StartAll(registry: Registry, works: nat -> bool) returns (outcome: Outcome)
    requires registry.Valid()
    modifies registry`modules
    ensures registry.Valid() && Permuted(registry.modules, old(registry.modules))
    ensures outcome.Exited? <==> !Starts(old(registry.Listed()))
    ensures !Acyclic(old(registry.Listed())) ==> outcome.Exited?
    ensures Linked(old(registry.Listed())) && Acyclic(old(registry.Listed())) && |registry.modules| <= 6 ==>
      !outcome.Exited? && Satisfied(registry.Listed())
  {
    hide Permuted, Linked, Acyclic, Distinct, Registry.Valid;
    ghost var order := registry.Listed();
    ValidIsDistinct(registry);
    var ran;
    outcome, ran := registry.Init(works);
    assert |registry.modules| == |order| by {
      PermutedFacts(registry.modules, old(registry.modules));
    }
    assert outcome.Exited? <==> forall n: nat | n < 100 :: !Satisfied(Iterate(order, n));
    assert !outcome.Exited? ==> Starts(order);
    if n: nat :| n < CAP && Satisfied(Iterate(order, n)) {
      SettledIsAcyclic(order, n);
    }
    if Linked(order) && Acyclic(order) && |order| <= 6 {
      FewLinkedStart(order);
    }
  }
}
