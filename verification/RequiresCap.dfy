/** Which lists the repair loop of requires/requires.go settles within its cap of a hundred rounds. */
module RequiresCap {
  import opened Requires
  import opened RequiresSettling
  import opened RequiresRounds
  import opened RequiresInsertion

  // ---- All rounds together

  /** Moves behind needed elements, from position `i` on. */
  function NeedRounds(n: nat, i: nat): nat
    requires i <= n
    decreases n - i
  {
    if i == n then 0 else Pow2(n - i - 1) - 1 + NeedRounds(n, i + 1)
  }

  /** Moves in front of led elements. */
  function LeadRounds(n: nat, i: nat): nat
    requires i <= n
    decreases n - i
  {
    if i == n then 0 else i + LeadRounds(n, i + 1)
  }

  lemma {:induction false} NeedRoundsAre(n: nat, i: nat)
    requires i <= n
    ensures NeedRounds(n, i) + (n - i) + 1 == Pow2(n - i)
    decreases n - i
  {
    if i < n {
      NeedRoundsAre(n, i + 1);
    }
  }

  lemma {:induction false} LeadRoundsAre(n: nat, i: nat)
    requires i <= n
    ensures 2 * LeadRounds(n, i) + i * (i - 1) == n * (n - 1)
    decreases n - i
  {
    if i < n {
      LeadRoundsAre(n, i + 1);
      assert (i + 1) * i == i * (i - 1) + 2 * i;
    }
  }

  lemma {:induction false} IterateAdds(order: Order, a: nat, b: nat)
    ensures Iterate(Iterate(order, a), b) == Iterate(order, a + b)
  {
    hide Repair;
    if b > 0 {
      IterateAdds(order, a, b - 1);
    }
  }

  /** A settled front of `i` elements takes in the next one, once that needs nothing behind it. */
  lemma TakesIn(order: Order, rank: map<nat, nat>, bound: nat, i: nat) returns (n: nat)
    requires i < |order| && Distinct(order) && Ranked(order, rank, bound) && Linked(order)
    requires SettledBelow(order, i) && Quiet(order, i)
    ensures var o := Iterate(order, n); Permuted(o, order) && |o| == |order| && SettledBelow(o, i + 1)
    ensures n <= i && (AfterOnly(order) ==> n == 0)
  {
    hide Permuted, Distinct, Ranked, Linked, AfterOnly, Iterate, Above, Under;
    PermutedReflexive(order);
    assert At(order, Shifted(|order|, i, i)) == order;
    FrontIsQuiet(order, i);
    n := Inserts(order, rank, bound, i, i);
    SidesFit(order, rank, i, i);
  }

  lemma OneMoreSettles(order: Order, rank: map<nat, nat>, bound: nat, i: nat) returns (a: nat, b: nat)
    requires i < |order| && Distinct(order) && Ranked(order, rank, bound) && Compatible(order) && SettledBelow(order, i)
    ensures var o := Iterate(order, a + b); Permuted(o, order) && |o| == |order| && SettledBelow(o, i + 1)
    ensures a < Pow2(|order| - i - 1) && b <= i && (AfterOnly(order) ==> b == 0) && (BeforeOnly(order) ==> a == 0)
  {
    hide Permuted, Distinct, Ranked, Compatible, AfterOnly, BeforeOnly, Iterate, Load, Held, Dominated;
    var top := ListByRank(order, i, rank, bound);
    var ws := Powers(|top|);
    PowersDominate(top);
    FirstIsFree(order, i, top);
    LoadBelow(order, i, top, 1, |top|);
    a := FrontQuiets(order, i, top, ws);
    var o := Iterate(order, a);
    StaysGood(order, o);
    CompatibleIsLinked(o);
    b := TakesIn(o, rank, bound, i);
    IterateAdds(order, a, b);
    PermutedTransitive(Iterate(o, b), o, order);
  }

  lemma FrontIsQuiet(order: Order, i: nat)
    requires i < |order| && SettledBelow(order, i) && Quiet(order, i)
    ensures QuietBelow(order, i + 1)
  {
  }

  lemma {:induction false} FrontGrows(order: Order, rank: map<nat, nat>, bound: nat, i: nat) returns (a: nat, b: nat)
    requires i <= |order| && SettledBelow(order, i)
    requires Distinct(order) && Ranked(order, rank, bound) && Compatible(order)
    ensures var o := Iterate(order, a + b); |o| == |order| && SettledBelow(o, |order|)
    ensures a <= NeedRounds(|order|, i) && b <= LeadRounds(|order|, i)
    ensures (AfterOnly(order) ==> b == 0) && (BeforeOnly(order) ==> a == 0)
    decreases |order| - i
  {
    hide Permuted, Distinct, Ranked, Compatible, AfterOnly, BeforeOnly, Repair, SettledBelow;
    if i == |order| {
      a, b := 0, 0;
    } else {
      var c, d := OneMoreSettles(order, rank, bound, i);
      var o := Iterate(order, c + d);
      StaysGood(order, o);
      a, b := FrontGrows(o, rank, bound, i + 1);
      IterateAdds(order, c + d, a + b);
      a, b := c + a, d + b;
    }
  }

  /** A compatible acyclic list of `n` modules is in order after at most 2^n - n - 1 moves behind needed modules and
      n(n - 1)/2 moves in front of led ones. */
  lemma CompatibleSettles(order: Order) returns (a: nat, b: nat)
    requires Distinct(order) && Compatible(order) && Acyclic(order)
    ensures Satisfied(Iterate(order, a + b))
    ensures a <= Pow2(|order|) - |order| - 1 && 2 * b <= |order| * (|order| - 1)
    ensures (AfterOnly(order) ==> b == 0) && (BeforeOnly(order) ==> a == 0)
  {
    hide Permuted, Distinct, Ranked, Compatible, AfterOnly, BeforeOnly, Iterate, Satisfied, Settled, NeedRounds,
      LeadRounds;
    var rank, bound :| Ranked(order, rank, bound);
    a, b := FrontGrows(order, rank, bound, 0);
    NeedRoundsAre(|order|, 0);
    LeadRoundsAre(|order|, 0);
    var o := Iterate(order, a + b);
    SatisfiedIffSettled(o);
    forall i | 0 <= i < |o|
      ensures Settled(o, i)
    {
      SettledMeans(o, i);
    }
  }

  lemma OneSidedIsCompatible(order: Order)
    requires AfterOnly(order) || BeforeOnly(order)
    ensures Compatible(order)
  {
  }

  // ---- The cap

  const CAP: nat := 100

  /** The loop leaves with the list in order before its counter runs out. */
  ghost predicate Starts(order: Order) {
    exists n: nat :: n < CAP && Satisfied(Iterate(order, n))
  }

  lemma Powers7()
    ensures Pow2(0) == 1 && Pow2(1) == 2 && Pow2(2) == 4 && Pow2(3) == 8 && Pow2(4) == 16 && Pow2(5) == 32
    ensures Pow2(6) == 64 && Pow2(7) == 128
  {
    assert Pow2(3) == 8;
    assert Pow2(6) == 64;
  }

  lemma FewStart(order: Order)
    requires Distinct(order) && Compatible(order) && Acyclic(order)
    requires |order| <= 6 || (BeforeOnly(order) && |order| <= 14)
    ensures Starts(order)
  {
    hide Satisfied, Iterate, Distinct, Compatible, Acyclic, BeforeOnly, AfterOnly;
    var a, b := CompatibleSettles(order);
    var n := |order|;
    if n <= 6 {
      Powers7();
      hide Pow2;
      assert n * (n - 1) <= 30 by { Square(n, 6); }
      assert Pow2(n) - n - 1 <= 57;
    } else {
      Square(n, 14);
    }
    assert a + b < CAP;
  }

  lemma Square(n: nat, m: nat)
    requires n <= m
    ensures n * (n - 1) <= m * (m - 1)
  {
    if n > 0 {
      assert n * (n - 1) <= m * (n - 1) <= m * (m - 1);
    }
  }

  /** At each of the first `n` rounds the list is out of order. */
  ghost predicate Busy(order: Order, n: nat) {
    forall k: nat | k < n :: !Satisfied(Iterate(order, k))
  }

  lemma BusyAdds(order: Order, a: nat, b: nat)
    requires Busy(order, a) && Busy(Iterate(order, a), b)
    ensures Busy(order, a + b)
  {
    hide Satisfied, Iterate;
    forall k: nat | k < a + b
      ensures !Satisfied(Iterate(order, k))
    {
      if k >= a {
        IterateAdds(order, a, k - a);
      }
    }
  }

  lemma BusyOnce(order: Order)
    requires !Satisfied(order)
    ensures Busy(order, 1) && Iterate(order, 1) == Repair(order)
  {
    hide Satisfied, Repair;
    assert Iterate(order, 0) == order;
  }

  lemma BusyNever(order: Order, n: nat)
    requires Busy(order, n) && n >= CAP
    ensures !Starts(order)
  {
    hide Satisfied, Iterate;
  }

  // ---- Lists that take the most rounds

  function Name(k: nat): (name: string)
    ensures |name| == k
  {
    seq(k, _ => 'm')
  }

  /** Module `k` has to run after all modules of lower number. */
  function Later(k: nat): Entry {
    Entry(k, Name(k), {}, set l: nat | l < k :: Name(l))
  }

  /** Module `k` has to run before all modules of higher number below `n`. */
  function Sooner(n: nat, k: nat): Entry {
    Entry(k, Name(k), set l: nat | k < l < n :: Name(l), {})
  }

  lemma LaterNeeds(k: nat, l: nat)
    ensures Needs(Later(k), Later(l)) <==> l < k
    ensures !Leads(Later(k), Later(l))
  {
    if Needs(Later(k), Later(l)) {
      var m: nat :| m < k && Name(l) == Name(m);
      assert |Name(l)| == |Name(m)|;
    }
  }

  lemma SoonerLeads(n: nat, k: nat, l: nat)
    ensures Leads(Sooner(n, k), Sooner(n, l)) <==> k < l < n
    ensures !Needs(Sooner(n, k), Sooner(n, l))
  {
    if Leads(Sooner(n, k), Sooner(n, l)) {
      var m: nat :| k < m < n && Name(l) == Name(m);
      assert |Name(l)| == |Name(m)|;
    }
  }

  function Laters(ks: seq<nat>): (order: Order)
    ensures |order| == |ks| && forall i | 0 <= i < |ks| :: order[i] == Later(ks[i])
  {
    seq(|ks|, i requires 0 <= i < |ks| => Later(ks[i]))
  }

  /** Each of the first `a` is lower than all behind it. */
  predicate Rising(ks: seq<nat>, a: nat)
    requires a <= |ks|
  {
    forall i, j | 0 <= i < a && i < j < |ks| :: ks[i] < ks[j]
  }

  lemma RisingIsSettled(ks: seq<nat>, a: nat)
    requires a <= |ks| && Rising(ks, a)
    ensures SettledBelow(Laters(ks), a)
  {
    hide Later, Needs, Leads;
    forall i, m | 0 <= i < a && 0 <= m < |ks|
      ensures i < m ==> !Needs(Laters(ks)[i], Laters(ks)[m])
      ensures !Leads(Laters(ks)[i], Laters(ks)[m])
    {
      LaterNeeds(ks[i], ks[m]);
    }
  }

  /** The front `x` passes the higher ones and the first lower one. */
  lemma PassesHigher(a: seq<nat>, x: nat, b: seq<nat>, z: nat, t: seq<nat>)
    requires Rising(a + [x] + b + [z] + t, |a|) && z < x && forall i | 0 <= i < |b| :: b[i] > x
    ensures Repair(Laters(a + [x] + b + [z] + t)) == Laters(a + b + [z] + [x] + t)
    ensures !Satisfied(Laters(a + [x] + b + [z] + t))
  {
    hide Later, Repair, Needs, Leads, MoveAfter;
    var ks, i, j := a + [x] + b + [z] + t, |a|, |a| + 1 + |b|;
    var order := Laters(ks);
    RisingIsSettled(ks, i);
    forall m | 0 <= m < |ks|
      ensures Needs(order[i], order[m]) <==> ks[m] < x
      ensures !Leads(order[i], order[m])
    {
      LaterNeeds(x, ks[m]);
    }
    assert ks[j] == z && forall m | i < m < j :: ks[m] == b[m - i - 1];
    assert Needs(order[i], order[j]);
    var j' := NeedMove(order, i);
    assert j' == j;
    MoveAfterAt(order, i, j);
    assert MoveAfter(order, i, j) == Laters(a + b + [z] + [x] + t);
    NeedIsUnsatisfied(order, i, j);
  }

  lemma NeedIsUnsatisfied(order: Order, i: nat, j: nat)
    requires i < j < |order| && (Needs(order[i], order[j]) || Leads(order[j], order[i]))
    ensures !Satisfied(order)
  {
  }

  predicate Falling(d: seq<nat>) {
    forall i, j | 0 <= i < j < |d| :: d[i] > d[j]
  }

  /** A falling stretch of `m` brings its lowest element to its front in 2^(m - 1) - 1 rounds, and is falling again
      behind it. */
  lemma {:induction false} FallingTakes(a: seq<nat>, d: seq<nat>, t: seq<nat>)
    requires d != [] && Falling(d) && Rising(a + d + t, |a|)
    ensures var last := |d| - 1;
      && Iterate(Laters(a + d + t), Pow2(last) - 1) == Laters(a + [d[last]] + d[..last] + t)
      && Busy(Laters(a + d + t), Pow2(last) - 1)
    decreases |d|
  {
    hide Repair, Satisfied, Laters, Falling, Rising;
    var m := |d|;
    if m == 1 {
      assert a + d + t == a + [d[0]] + d[..0] + t;
    } else {
      var x, b, z := d[m - 2], d[..m - 2], d[m - 1];
      assert Pow2(m - 1) == 2 * Pow2(m - 2);
      hide Iterate, Busy, Pow2;
      Rearranged(a, d, t);
      Joins(a, d, t);
      FallingTakes(a, d[..m - 1], [z] + t);
      FallingLast(d);
      assert forall i | 0 <= i < |b| :: b[i] == d[i];
      PassesHigher(a, x, b, z, t);
      FallingTakes(a, b + [z], [x] + t);
      ThreeParts(Laters(a + d + t), Laters(a + [x] + b + [z] + t), Pow2(m - 2) - 1);
    }
  }

  lemma FallingLast(d: seq<nat>)
    requires Falling(d) && |d| >= 2
    ensures d[|d| - 1] < d[|d| - 2] && forall i | 0 <= i < |d| - 2 :: d[i] > d[|d| - 2]
  {
  }

  /** A busy stretch, one move, and a busy stretch of the same length. */
  lemma ThreeParts(order: Order, middle: Order, c: nat)
    requires Busy(order, c) && Iterate(order, c) == middle && !Satisfied(middle) && Busy(Repair(middle), c)
    ensures Busy(order, 2 * c + 1) && Iterate(order, 2 * c + 1) == Iterate(Repair(middle), c)
  {
    hide Satisfied, Repair, Busy, Iterate;
    BusyOnce(middle);
    BusyAdds(order, c, 1);
    IterateAdds(order, c, 1);
    BusyAdds(order, c + 1, c);
    IterateAdds(order, c + 1, c);
  }

  lemma Rearranged(a: seq<nat>, d: seq<nat>, t: seq<nat>)
    requires |d| >= 2 && Falling(d) && Rising(a + d + t, |a|)
    ensures var x, b, z := d[|d| - 2], d[..|d| - 2], d[|d| - 1];
      && Rising(a + d[..|d| - 1] + ([z] + t), |a|) && Rising(a + [x] + b + [z] + t, |a|)
      && Rising(a + (b + [z]) + ([x] + t), |a|) && Falling(b + [z]) && Falling(d[..|d| - 1])
  {
    var x, b, z, ks, m, n := d[|d| - 2], d[..|d| - 2], d[|d| - 1], a + d + t, |d|, |a|;
    assert a + d[..m - 1] + ([z] + t) == ks;
    var ls := a + [x] + b + [z] + t;
    forall i, j | 0 <= i < n && i < j < |ls|
      ensures ls[i] < ls[j]
    {
      assert ls[i] == ks[i];
      assert ls[j] == ks[if j == n then n + m - 2 else if n < j < n + m - 1 then j - 1 else j];
    }
    var ms := a + (b + [z]) + ([x] + t);
    forall i, j | 0 <= i < n && i < j < |ms|
      ensures ms[i] < ms[j]
    {
      assert ms[i] == ks[i];
      assert ms[j] == ks[if j == n + m - 2 then n + m - 1 else if j == n + m - 1 then n + m - 2 else j];
    }
  }

  /** The lists between the steps, put together in two ways. */
  lemma Joins(a: seq<nat>, d: seq<nat>, t: seq<nat>)
    requires |d| >= 2
    ensures var m := |d|;
      var x, b, z := d[m - 2], d[..m - 2], d[m - 1];
      && a + d[..m - 1] + ([z] + t) == a + d + t
      && a + [d[..m - 1][m - 2]] + d[..m - 1][..m - 2] + ([z] + t) == a + [x] + b + [z] + t
      && a + (b + [z]) + ([x] + t) == a + b + [z] + [x] + t
      && a + [(b + [z])[m - 2]] + (b + [z])[..m - 2] + ([x] + t) == a + [z] + d[..m - 1] + t
  {
    assert (d[..|d| - 2] + [d[|d| - 1]])[..|d| - 2] == d[..|d| - 2];
    assert d[..|d| - 2] + [d[|d| - 2]] == d[..|d| - 1];
  }

  /** From `n - 1` down to `a`. */
  function Down(n: nat, a: nat): (d: seq<nat>)
    requires a <= n
    ensures |d| == n - a && forall i | 0 <= i < |d| :: d[i] == n - 1 - i
  {
    seq(n - a, i requires 0 <= i < n - a => n - 1 - i)
  }

  function Up(a: nat): (u: seq<nat>)
    ensures |u| == a && forall i | 0 <= i < a :: u[i] == i
  {
    seq(a, i requires 0 <= i < a => i)
  }

  lemma {:induction false} DownTakes(n: nat, a: nat)
    requires a <= n
    ensures Busy(Laters(Up(a) + Down(n, a)), NeedRounds(n, a))
    decreases n - a
  {
    hide Repair, Satisfied, Later, Laters;
    if a < n {
      var order := Laters(Up(a) + Down(n, a));
      FallingTakes(Up(a), Down(n, a), []);
      assert Up(a) + Down(n, a) + [] == Up(a) + Down(n, a);
      assert Up(a) + [Down(n, a)[n - a - 1]] + Down(n, a)[..n - a - 1] + [] == Up(a + 1) + Down(n, a + 1);
      DownTakes(n, a + 1);
      hide Busy, Iterate, Pow2;
      BusyAdds(order, Pow2(n - a - 1) - 1, NeedRounds(n, a + 1));
    }
  }

  lemma {:induction false} PowersGrow(n: nat)
    requires n >= 7
    ensures Pow2(n) >= 121 + n
  {
    if n == 7 {
      Powers7();
    } else {
      PowersGrow(n - 1);
    }
  }

  /** Seven modules or more, each after all lower ones and listed in reverse: in no round within the cap in order. */
  lemma ReversedNeverStarts(n: nat) returns (order: Order)
    requires n >= 7
    ensures |order| == n && Distinct(order) && AfterOnly(order) && Acyclic(order) && !Starts(order)
  {
    order := Laters(Up(0) + Down(n, 0));
    DownTakes(n, 0);
    NeedRoundsAre(n, 0);
    PowersGrow(n);
    BusyNever(order, NeedRounds(n, 0));
    hide Starts, Busy, Later;
    var rank := Identity(n);
    forall e, f | e in order && f in order && e.id != f.id && MustPrecede(e, f)
      ensures e.id in rank && f.id in rank && rank[e.id] < rank[f.id]
    {
      LaterFacts(n, e.id);
      LaterFacts(n, f.id);
      assert e == Later(e.id) && f == Later(f.id);
      LaterPrecedes(e.id, f.id);
    }
    assert Ranked(order, rank, n) by {
      forall i | 0 <= i < |order|
        ensures order[i].id in rank && rank[order[i].id] < n
      {
        LaterFacts(n, n - 1 - i);
      }
    }
    forall e | e in order
      ensures e.before == {}
    {
      var i :| 0 <= i < |order| && order[i] == e;
      LaterFacts(n, n - 1 - i);
    }
  }

  function Identity(n: nat): (rank: map<nat, nat>)
    ensures forall k: nat :: k in rank <==> k < n
    ensures forall k | k in rank :: rank[k] == k
  {
    if n == 0 then map[] else Identity(n - 1)[n - 1 := n - 1]
  }

  lemma LaterFacts(n: nat, k: nat)
    ensures Later(k).id == k && Later(k).before == {}
  {
  }

  lemma LaterPrecedes(k: nat, l: nat)
    requires MustPrecede(Later(k), Later(l))
    ensures k < l
  {
    LaterNeeds(l, k);
  }

  // ---- The before-only list that takes the most rounds

  /** The highest `i` of `n` modules rising, but for the next lower one at `q`; then the others falling. */
  function Bubble(n: nat, i: nat, q: nat, k: nat): nat
    requires q <= i < n && k < n
  {
    if k < q then n - i + k else if k == q then n - i - 1 else if k <= i then n - i + k - 1 else n - 1 - k
  }

  function Sooners(n: nat, i: nat, q: nat): (order: Order)
    requires q <= i < n
    ensures |order| == n && forall k | 0 <= k < n :: order[k] == Sooner(n, Bubble(n, i, q, k))
  {
    seq(n, k requires 0 <= k < n => Sooner(n, Bubble(n, i, q, k)))
  }

  lemma BubbleMoves(n: nat, i: nat, q: nat)
    requires 0 < q <= i < n
    ensures Repair(Sooners(n, i, q)) == Sooners(n, i, q - 1) && !Satisfied(Sooners(n, i, q))
  {
    hide Sooner, Repair, Satisfied, Needs, Leads, MoveBefore;
    var order := Sooners(n, i, q);
    forall k, m | 0 <= k <= q && 0 <= m < n
      ensures !Needs(order[k], order[m])
      ensures Leads(order[k], order[m]) <==> Bubble(n, i, q, k) < Bubble(n, i, q, m) < n
    {
      SoonerLeads(n, Bubble(n, i, q, k), Bubble(n, i, q, m));
    }
    assert Leads(order[q], order[q - 1]);
    var j := LeadMove(order, q);
    assert j == q - 1;
    MoveBeforeAt(order, q, j);
    NeedIsUnsatisfied(order, q - 1, q);
  }

  lemma {:induction false} BubbleTakes(n: nat, i: nat, q: nat)
    requires q <= i < n
    ensures Busy(Sooners(n, i, q), q + LeadRounds(n, i + 1))
    decreases n - i, q
  {
    hide Repair, Satisfied, Sooners, Iterate, Busy;
    if q > 0 {
      BubbleMoves(n, i, q);
      BusyOnce(Sooners(n, i, q));
      BubbleTakes(n, i, q - 1);
      BusyAdds(Sooners(n, i, q), 1, q - 1 + LeadRounds(n, i + 1));
    } else if i + 1 < n {
      assert Sooners(n, i, 0) == Sooners(n, i + 1, i + 1) by { NextBubble(n, i); }
      BubbleTakes(n, i + 1, i + 1);
    } else {
      BusyZero(Sooners(n, i, q));
    }
  }

  lemma BusyZero(order: Order)
    ensures Busy(order, 0)
  {
  }

  lemma NextBubble(n: nat, i: nat)
    requires i + 1 < n
    ensures Sooners(n, i, 0) == Sooners(n, i + 1, i + 1)
  {
    hide Sooner;
    assert forall k | 0 <= k < n :: Bubble(n, i, 0, k) == Bubble(n, i + 1, i + 1, k);
  }

  /** Fifteen modules or more, each before all higher ones and listed in reverse: never in order within the cap. */
  lemma ReversedBeforeNeverStarts(n: nat) returns (order: Order)
    requires n >= 15
    ensures |order| == n && Distinct(order) && BeforeOnly(order) && Acyclic(order) && !Starts(order)
  {
    order := Sooners(n, 0, 0);
    BubbleTakes(n, 0, 0);
    LeadRoundsAre(n, 0);
    Square(15, n);
    assert LeadRounds(n, 0) == 0 + LeadRounds(n, 1);
    BusyNever(order, LeadRounds(n, 1));
    hide Starts, Busy, Sooner;
    var rank := Identity(n);
    assert forall k | 0 <= k < n :: Bubble(n, 0, 0, k) == n - 1 - k;
    forall k: nat
      ensures Sooner(n, k).id == k && Sooner(n, k).after == {}
    {
      SoonerFacts(n, k);
    }
    forall e, f | e in order && f in order && e.id != f.id && MustPrecede(e, f)
      ensures rank[e.id] < rank[f.id]
    {
      assert e == Sooner(n, e.id) && f == Sooner(n, f.id);
      SoonerPrecedes(n, e.id, f.id);
    }
    assert Ranked(order, rank, n);
  }

  lemma SoonerFacts(n: nat, k: nat)
    ensures Sooner(n, k).id == k && Sooner(n, k).after == {}
  {
  }

  lemma SoonerPrecedes(n: nat, k: nat, l: nat)
    requires MustPrecede(Sooner(n, k), Sooner(n, l))
    ensures k < l
  {
    SoonerLeads(n, k, l);
  }

  // ---- Which sizes always start

  ghost predicate Orderly(order: Order, size: nat) {
    |order| == size && Distinct(order) && Acyclic(order)
  }

  /** The cap lets all acyclic after-only lists of a size start exactly up to six modules. */
  lemma AfterOnlyStartsIff(size: nat)
    ensures (forall order | Orderly(order, size) && AfterOnly(order) :: Starts(order)) <==> size <= 6
  {
    hide Distinct, Acyclic, AfterOnly, Starts;
    if size <= 6 {
      forall order | Orderly(order, size) && AfterOnly(order)
        ensures Starts(order)
      {
        OneSidedIsCompatible(order);
        FewStart(order);
      }
    } else {
      var order := ReversedNeverStarts(size);
    }
  }

  /** And all compatible ones up to six as well. */
  lemma CompatibleStartsIff(size: nat)
    ensures (forall order | Orderly(order, size) && Compatible(order) :: Starts(order)) <==> size <= 6
  {
    hide Distinct, Acyclic, AfterOnly, Compatible, Starts;
    if size <= 6 {
      forall order | Orderly(order, size) && Compatible(order)
        ensures Starts(order)
      {
        FewStart(order);
      }
    } else {
      var order := ReversedNeverStarts(size);
      OneSidedIsCompatible(order);
    }
  }

  /** All before-only ones up to fourteen. */
  lemma BeforeOnlyStartsIff(size: nat)
    ensures (forall order | Orderly(order, size) && BeforeOnly(order) :: Starts(order)) <==> size <= 14
  {
    hide Distinct, Acyclic, BeforeOnly, Starts;
    if size <= 14 {
      forall order | Orderly(order, size) && BeforeOnly(order)
        ensures Starts(order)
      {
        OneSidedIsCompatible(order);
        FewStart(order);
      }
    } else {
      var order := ReversedBeforeNeverStarts(size);
    }
  }
}
