/** How many rounds the repair loop of requires/requires.go takes, for all lists whose constraints are compatible. */
module RequiresRounds {
  import opened Requires
  import opened RequiresSettling

  /** `x` asks for `z` to run ahead of it. */
  predicate Needs(x: Entry, z: Entry) {
    z.name in x.after
  }

  /** `x` asks to run ahead of `y`. */
  predicate Leads(x: Entry, y: Entry) {
    y.name in x.before
  }

  /** Whoever runs ahead of a module that needs another needs that other one too. One-sided lists are compatible. */
  ghost predicate Compatible(order: Order) {
    forall x, y, z | x in order && y in order && z in order :: Leads(x, y) && Needs(x, z) ==> Needs(y, z)
  }

  /** In at most `n` steps of needing, `a` comes to `b`. */
  ghost predicate Reaches(order: Order, a: Entry, b: Entry, n: nat)
    decreases n
  {
    a == b || (n > 0 && exists c :: c in order && Needs(a, c) && Reaches(order, c, b, n - 1))
  }

  /** Wherever `x` leads `y` and needs `z`, what `y` needs in the end, with `y` itself, keeps `z` in front: `z` is among
      it or leads some of it. */
  ghost predicate Linked(order: Order) {
    forall x, y, z | x in order && y in order && z in order && Leads(x, y) && Needs(x, z) :: Links(order, y, z)
  }

  ghost predicate Links(order: Order, y: Entry, z: Entry) {
    exists w, n :: w in order && Reaches(order, y, w, n) && (w == z || Leads(z, w))
  }

  lemma CompatibleIsLinked(order: Order)
    requires Compatible(order)
    ensures Linked(order)
  {
    hide Needs, Leads;
    forall x, y, z | x in order && y in order && z in order && Leads(x, y) && Needs(x, z)
      ensures Links(order, y, z)
    {
      assert Reaches(order, z, z, 0);
      assert Reaches(order, y, z, 1);
    }
  }

  /** Element `i` needs nothing behind it. */
  predicate Quiet(order: Order, i: nat)
    requires i < |order|
  {
    forall m | i < m < |order| :: !Needs(order[i], order[m])
  }

  /** Element `i` asks to run ahead of nothing in front of it. */
  predicate Unled(order: Order, i: nat)
    requires i < |order|
  {
    forall m | 0 <= m < i :: !Leads(order[i], order[m])
  }

  predicate SettledBelow(order: Order, i: nat)
    requires i <= |order|
  {
    forall k | 0 <= k < i :: Quiet(order, k) && Unled(order, k)
  }

  // ---- One round

  lemma SettledMeans(order: Order, i: nat)
    requires i < |order|
    ensures Settled(order, i) <==> Quiet(order, i) && Unled(order, i)
  {
    hide LastBefore, FirstAfter;
    LastBeforeIsNearest(order, i, i);
    FirstAfterIsNearest(order, i, i + 1);
  }

  lemma {:induction false} RepairSkips(order: Order, i: nat, k: nat)
    requires k <= i <= |order| && SettledBelow(order, i)
    ensures RepairFrom(order, k) == RepairFrom(order, i)
    decreases i - k
  {
    if k < i {
      SettledMeans(order, k);
      RepairSkips(order, i, k + 1);
    }
  }

  /** The first unsettled element moves in front of the nearest earlier one it leads, if there is one. */
  lemma LeadMove(order: Order, i: nat) returns (j: nat)
    requires i < |order| && SettledBelow(order, i) && !Unled(order, i)
    ensures j < i && Leads(order[i], order[j]) && Repair(order) == MoveBefore(order, i, j)
    ensures forall m | j < m < i :: !Leads(order[i], order[m])
  {
    hide LastBefore, FirstAfter, MoveBefore;
    RepairSkips(order, i, 0);
    LastBeforeIsNearest(order, i, i);
    j := LastBefore(order, i, i);
  }

  /** Else it moves behind the nearest later one it needs. */
  lemma NeedMove(order: Order, i: nat) returns (j: nat)
    requires i < |order| && SettledBelow(order, i) && Unled(order, i) && !Quiet(order, i)
    ensures i < j < |order| && Needs(order[i], order[j]) && Repair(order) == MoveAfter(order, i, j)
    ensures forall m | i < m < j :: !Needs(order[i], order[m])
  {
    hide LastBefore, FirstAfter, MoveAfter;
    RepairSkips(order, i, 0);
    LastBeforeIsNearest(order, i, i);
    FirstAfterIsNearest(order, i, i + 1);
    j := FirstAfter(order, i, i + 1);
  }

  // ---- Waiting elements and what they weigh

  /** From `s` on, element `p` needs something behind it and nothing in front of it. */
  ghost predicate Waits(order: Order, s: nat, p: nat)
    requires p < |order|
  {
    && (exists k :: p < k < |order| && Needs(order[p], order[k]))
    && (forall k | s <= k < p :: !Needs(order[p], order[k]))
  }

  ghost predicate Held(order: Order, s: nat, e: Entry) {
    exists p :: s <= p < |order| && order[p] == e && Waits(order, s, p)
  }

  /** Where an element stood before a move of `i` behind `j`. */
  function Source(i: nat, j: nat, k: nat): nat {
    if k < i then k else if k < j then k + 1 else if k == j then i else k
  }

  /** An element that waits after the move, and does not need the mover, waited before it. */
  lemma WaitedBefore(order: Order, s: nat, i: nat, j: nat, p: nat)
    requires s <= i < j < |order| && s <= p < |order| && p != j
    requires |MoveAfter(order, i, j)| == |order|
    requires forall k | 0 <= k < |order| :: MoveAfter(order, i, j)[k] == order[Source(i, j, k)]
    requires !Needs(MoveAfter(order, i, j)[p], order[i]) && Waits(MoveAfter(order, i, j), s, p)
    ensures Waits(order, s, Source(i, j, p))
  {
    hide MoveAfter, Needs;
    var o, q := MoveAfter(order, i, j), Source(i, j, p);
    var k :| p < k < |o| && Needs(o[p], o[k]);
    assert k != j;
    assert Needs(order[q], order[Source(i, j, k)]);
    forall m | s <= m < q
      ensures !Needs(order[q], order[m])
    {
      if m != i {
        var m' := if m < i then m else if m <= j then m - 1 else m;
        assert o[m'] == order[Source(i, j, m')] && Source(i, j, m') == m && m' < p;
      }
    }
  }

  /** A move behind a needed element ends the mover's wait and starts at most the waits of those that need the mover. */
  lemma HeldAfterMove(order: Order, s: nat, i: nat, j: nat, e: Entry)
    requires Distinct(order) && s <= i < j < |order| && Needs(order[i], order[j])
    ensures Held(MoveAfter(order, i, j), s, e) && e != order[i] && !Needs(e, order[i]) ==> Held(order, s, e)
    ensures !Held(MoveAfter(order, i, j), s, order[i])
  {
    var o := MoveAfter(order, i, j);
    MoveAfterAt(order, i, j);
    hide MoveAfter, Needs;
    assert forall k | 0 <= k < |order| :: o[k] == order[Source(i, j, k)];
    assert o[j - 1] == order[j];
    forall p | s <= p < |o| && Waits(o, s, p)
      ensures o[p] != order[i] && (Needs(o[p], order[i]) || Held(order, s, o[p]))
    {
      assert p != j;
      if !Needs(o[p], order[i]) {
        WaitedBefore(order, s, i, j, p);
        WaitsIsHeld(order, s, Source(i, j, p));
      }
    }
  }

  /** What the held ones of the first `k` listed weigh. */
  ghost function Load(order: Order, s: nat, top: Order, ws: seq<nat>, k: nat): nat
    requires k <= |top| == |ws|
  {
    if k == 0 then 0
    else Load(order, s, top, ws, k - 1) + (if Held(order, s, top[k - 1]) then ws[k - 1] else 0)
  }

  /** What those of the first `k` listed weigh that need the `p`-th. */
  function Followers(top: Order, ws: seq<nat>, p: nat, k: nat): nat
    requires p < |top| && k <= |top| == |ws|
  {
    if k == 0 then 0
    else Followers(top, ws, p, k - 1) + (if k - 1 != p && Needs(top[k - 1], top[p]) then ws[k - 1] else 0)
  }

  /** Every listed element outweighs all that need it together. */
  ghost predicate Dominated(top: Order, ws: seq<nat>)
    requires |top| == |ws|
  {
    forall p | 0 <= p < |top| :: Followers(top, ws, p, |top|) < ws[p]
  }

  lemma {:induction false} LoadAfterMove(order: Order, o: Order, s: nat, top: Order, ws: seq<nat>, p: nat, k: nat)
    requires p < |top| && k <= |top| == |ws| && Distinct(top)
    requires Held(order, s, top[p]) && !Held(o, s, top[p])
    requires forall e :: Held(o, s, e) && e != top[p] && !Needs(e, top[p]) ==> Held(order, s, e)
    ensures Load(o, s, top, ws, k) + (if p < k then ws[p] else 0) <=
      Load(order, s, top, ws, k) + Followers(top, ws, p, k)
  {
    hide Held, Needs;
    if k > 0 {
      LoadAfterMove(order, o, s, top, ws, p, k - 1);
    }
  }

  /** Such a move lowers the load. */
  lemma MoveUnloads(order: Order, s: nat, i: nat, j: nat, top: Order, ws: seq<nat>, p: nat)
    requires Distinct(order) && Distinct(top) && s <= i < j < |order| && Needs(order[i], order[j])
    requires forall k | s <= k < i :: !Needs(order[i], order[k])
    requires |top| == |ws| && Dominated(top, ws) && p < |top| && top[p] == order[i]
    ensures Load(MoveAfter(order, i, j), s, top, ws, |top|) < Load(order, s, top, ws, |top|)
  {
    assert Waits(order, s, i);
    hide Held, Needs, Waits, MoveAfter, Load, Followers;
    assert Held(order, s, order[i]) by { WaitsIsHeld(order, s, i); }
    forall e
      ensures Held(MoveAfter(order, i, j), s, e) && e != order[i] && !Needs(e, order[i]) ==> Held(order, s, e)
      ensures !Held(MoveAfter(order, i, j), s, order[i])
    {
      HeldAfterMove(order, s, i, j, e);
    }
    LoadAfterMove(order, MoveAfter(order, i, j), s, top, ws, p, |top|);
  }

  lemma WaitsIsHeld(order: Order, s: nat, i: nat)
    requires s <= i < |order| && Waits(order, s, i)
    ensures Held(order, s, order[i])
  {
  }

  // ---- Weights by powers of two

  function Pow2(n: nat): (r: nat)
    ensures r > 0
  {
    if n == 0 then 1 else 2 * Pow2(n - 1)
  }

  function Powers(m: nat): (ws: seq<nat>)
    ensures |ws| == m && forall k | 0 <= k < m :: ws[k] == Pow2(m - 1 - k)
  {
    seq(m, k requires 0 <= k < m => Pow2(m - 1 - k))
  }

  /** Listed so that nothing needs a later one. */
  ghost predicate Topological(top: Order) {
    forall k, l | 0 <= k < |top| && 0 <= l < |top| && k != l && Needs(top[l], top[k]) :: k < l
  }

  lemma {:induction false} FollowersBelow(top: Order, p: nat, k: nat)
    requires Topological(top) && p < |top| && k <= |top|
    ensures k <= p + 1 ==> Followers(top, Powers(|top|), p, k) == 0
    ensures k > p ==> Followers(top, Powers(|top|), p, k) + Pow2(|top| - k) <= Pow2(|top| - 1 - p)
  {
    hide Needs;
    if k > 0 {
      FollowersBelow(top, p, k - 1);
    }
  }

  lemma PowersDominate(top: Order)
    requires Topological(top)
    ensures Dominated(top, Powers(|top|))
  {
    forall p | 0 <= p < |top|
      ensures Followers(top, Powers(|top|), p, |top|) < Powers(|top|)[p]
    {
      FollowersBelow(top, p, |top|);
    }
  }

  /** With the first `c` free, the others weigh less than one of these. */
  lemma {:induction false} LoadBelow(order: Order, s: nat, top: Order, c: nat, k: nat)
    requires k <= |top| && c <= |top| && forall j | 0 <= j < c :: !Held(order, s, top[j])
    ensures k <= c ==> Load(order, s, top, Powers(|top|), k) == 0
    ensures k >= c ==> Load(order, s, top, Powers(|top|), k) + Pow2(|top| - k) <= Pow2(|top| - c)
  {
    hide Held;
    if k > 0 {
      LoadBelow(order, s, top, c, k - 1);
    }
  }

  /** A topological list of all elements from `s` on. */
  ghost predicate Lists(top: Order, order: Order, s: nat)
    requires s <= |order|
  {
    && Topological(top) && Distinct(top) && |top| == |order| - s
    && forall k | s <= k < |order| :: order[k] in top
  }

  lemma FirstIsFree(order: Order, s: nat, top: Order)
    requires s < |order| && Distinct(order) && Lists(top, order, s)
    ensures !Held(order, s, top[0])
  {
    hide Needs;
  }

  // ---- A topological list by rank

  function InsertByRank(e: Entry, list: Order, rank: map<nat, nat>): (r: Order)
    ensures |r| == |list| + 1
  {
    if list == [] then [e]
    else if Rank(rank, e) <= Rank(rank, list[0]) then [e] + list
    else [list[0]] + InsertByRank(e, list[1..], rank)
  }

  function SortByRank(list: Order, rank: map<nat, nat>): (r: Order)
    ensures |r| == |list|
  {
    if list == [] then [] else InsertByRank(list[0], SortByRank(list[1..], rank), rank)
  }

  function Rank(rank: map<nat, nat>, e: Entry): nat {
    if e.id in rank then rank[e.id] else 0
  }

  predicate ByRank(list: Order, rank: map<nat, nat>) {
    forall k, l | 0 <= k < l < |list| :: Rank(rank, list[k]) <= Rank(rank, list[l])
  }

  lemma {:induction false} InsertPermutes(e: Entry, list: Order, rank: map<nat, nat>)
    ensures Permuted(InsertByRank(e, list, rank), [e] + list)
  {
    hide Rank;
    if list != [] && Rank(rank, e) > Rank(rank, list[0]) {
      InsertPermutes(e, list[1..], rank);
      assert list == [list[0]] + list[1..];
    }
  }

  predicate RankedFrom(low: nat, list: Order, rank: map<nat, nat>) {
    forall k | 0 <= k < |list| :: low <= Rank(rank, list[k])
  }

  lemma {:induction false} InsertAbove(e: Entry, list: Order, rank: map<nat, nat>, low: nat)
    requires RankedFrom(low, list, rank) && low <= Rank(rank, e)
    ensures RankedFrom(low, InsertByRank(e, list, rank), rank)
  {
    hide Rank;
    if list != [] && Rank(rank, e) > Rank(rank, list[0]) {
      InsertAbove(e, list[1..], rank, low);
    }
  }

  lemma {:induction false} InsertSorts(e: Entry, list: Order, rank: map<nat, nat>)
    requires ByRank(list, rank)
    ensures ByRank(InsertByRank(e, list, rank), rank)
  {
    hide Rank;
    if list != [] && Rank(rank, e) > Rank(rank, list[0]) {
      InsertUnfolds(e, list, rank);
      hide InsertByRank;
      InsertSorts(e, list[1..], rank);
      InsertAbove(e, list[1..], rank, Rank(rank, list[0]));
      HeadSorts(list[0], InsertByRank(e, list[1..], rank), rank);
    }
  }

  lemma InsertUnfolds(e: Entry, list: Order, rank: map<nat, nat>)
    requires list != [] && Rank(rank, e) > Rank(rank, list[0])
    ensures InsertByRank(e, list, rank) == [list[0]] + InsertByRank(e, list[1..], rank)
  {
  }

  lemma HeadSorts(e: Entry, list: Order, rank: map<nat, nat>)
    requires ByRank(list, rank) && RankedFrom(Rank(rank, e), list, rank)
    ensures ByRank([e] + list, rank)
  {
    hide Rank;
  }

  lemma {:induction false} SortSorts(list: Order, rank: map<nat, nat>)
    ensures ByRank(SortByRank(list, rank), rank) && Permuted(SortByRank(list, rank), list)
  {
    if list != [] {
      SortSorts(list[1..], rank);
      InsertSorts(list[0], SortByRank(list[1..], rank), rank);
      InsertPermutes(list[0], SortByRank(list[1..], rank), rank);
      assert list == [list[0]] + list[1..];
    }
  }

  lemma ListByRank(order: Order, s: nat, rank: map<nat, nat>, bound: nat) returns (top: Order)
    requires s <= |order| && Distinct(order) && Ranked(order, rank, bound)
    ensures Lists(top, order, s) && forall e :: e in top <==> e in order[s..]
  {
    var rest := order[s..];
    top := SortByRank(rest, rank);
    SortSorts(rest, rank);
    hide SortByRank;
    PermutedFacts(top, rest);
    DistinctPermutes(rest, top);
    assert forall k | s <= k < |order| :: order[k] == rest[k - s];
    forall k, l | 0 <= k < |top| && 0 <= l < |top| && k != l && Needs(top[l], top[k])
      ensures k < l
    {
      assert top[k] in rest && top[l] in rest;
      assert MustPrecede(top[k], top[l]);
      assert Rank(rank, top[k]) < Rank(rank, top[l]);
    }
  }

  // ---- The element at `i` stops needing anything behind it

  lemma SuffixMoved(order: Order, i: nat, j: nat, s: nat)
    requires s <= i < j < |order| && SettledBelow(order, s)
    ensures SettledBelow(MoveAfter(order, i, j), s) && MoveAfter(order, i, j)[..s] == order[..s]
    ensures forall k | s <= k < |order| :: exists m :: s <= m < |order| && MoveAfter(order, i, j)[k] == order[m]
  {
    MoveAfterAt(order, i, j);
    hide MoveAfter, Needs, Leads;
    var o := MoveAfter(order, i, j);
    forall k | s <= k < |order|
      ensures exists m :: s <= m < |order| && o[k] == order[m]
    {
      assert o[k] == order[if k < i then k else if k < j then k + 1 else if k == j then i else k];
    }
    forall k | 0 <= k < s
      ensures Quiet(o, k) && Unled(o, k)
    {
      assert Quiet(order, k) && Unled(order, k) && o[k] == order[k];
    }
  }

  /** The first unsettled element leads nothing in front of it as long as it needs something behind it. */
  lemma NeedyIsUnled(order: Order, i: nat)
    requires i < |order| && SettledBelow(order, i) && Compatible(order) && !Quiet(order, i)
    ensures Unled(order, i)
  {
    var k :| i < k < |order| && Needs(order[i], order[k]);
    hide Needs, Leads;
    forall m | 0 <= m < i
      ensures !Leads(order[i], order[m])
    {
      assert Quiet(order, m);
      assert order[m] in order && order[i] in order && order[k] in order;
    }
  }

  lemma {:induction false} FrontQuiets(order: Order, i: nat, top: Order, ws: seq<nat>) returns (n: nat)
    requires i < |order| && Distinct(order) && Compatible(order) && SettledBelow(order, i)
    requires |top| == |ws| && Dominated(top, ws) && Distinct(top) && forall k | i <= k < |order| :: order[k] in top
    ensures n <= Load(order, i, top, ws, |top|) && (BeforeOnly(order) ==> n == 0)
    ensures var o := Iterate(order, n);
      Permuted(o, order) && |o| == |order| && SettledBelow(o, i) && Quiet(o, i)
    decreases Load(order, i, top, ws, |top|)
  {
    hide Repair, SettledBelow, Dominated, Load, Distinct, Compatible, MoveAfter, Permuted;
    if Quiet(order, i) {
      n := 0;
      PermutedReflexive(order);
    } else {
      NeedyIsUnled(order, i);
      var j := NeedMove(order, i);
      var p :| 0 <= p < |top| && top[p] == order[i];
      MoveUnloads(order, i, i, j, top, ws, p);
      SuffixMoved(order, i, j, i);
      MovesPermute(order, i, j);
      StaysGood(order, Repair(order));
      assert order[i] in order;
      var o := Repair(order);
      n := FrontQuiets(o, i, top, ws);
      IterateShift(order, n);
      PermutedTransitive(Iterate(o, n), o, order);
      n := n + 1;
    }
  }

  lemma {:induction false} ReachesPermutes(order: Order, o: Order, a: Entry, b: Entry, n: nat)
    requires (forall e :: e in o <==> e in order) && Reaches(order, a, b, n)
    ensures Reaches(o, a, b, n)
    decreases n
  {
    hide Needs;
    if a != b {
      var c :| c in order && Needs(a, c) && Reaches(order, c, b, n - 1);
      ReachesPermutes(order, o, c, b, n - 1);
    }
  }

  lemma LinksPermute(order: Order, o: Order)
    requires forall e :: e in o <==> e in order
    ensures Linked(order) ==> Linked(o)
  {
    hide Needs, Leads;
    if Linked(order) {
      forall x, y, z | x in o && y in o && z in o && Leads(x, y) && Needs(x, z)
        ensures Links(o, y, z)
      {
        assert Links(order, y, z);
        var w, n :| w in order && Reaches(order, y, w, n) && (w == z || Leads(z, w));
        ReachesPermutes(order, o, y, w, n);
      }
    }
  }

  lemma StaysGood(order: Order, o: Order)
    requires Permuted(o, order)
    ensures |o| == |order| && (Distinct(order) ==> Distinct(o)) && (Compatible(order) ==> Compatible(o))
    ensures Linked(order) ==> Linked(o)
    ensures (AfterOnly(order) ==> AfterOnly(o)) && (BeforeOnly(order) ==> BeforeOnly(o))
    ensures forall rank, bound :: Ranked(order, rank, bound) ==> Ranked(o, rank, bound)
  {
    hide Permuted, Needs, Leads;
    PermutedFacts(o, order);
    if Distinct(order) {
      DistinctPermutes(order, o);
    }
    LinksPermute(order, o);
    forall rank, bound | Ranked(order, rank, bound)
      ensures Ranked(o, rank, bound)
    {
      RankedPermutes(order, o, rank, bound);
    }
  }
}
