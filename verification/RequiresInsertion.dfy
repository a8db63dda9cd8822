/** How a settled front takes in one more module that leads some of them, in the repair loop of requires/requires.go. */
module RequiresInsertion {
  import opened Requires
  import opened RequiresSettling
  import opened RequiresRounds

  /** A list by the places its elements had in the list `was`. */
  function At(was: Order, idx: seq<nat>): (o: Order)
    requires forall k | 0 <= k < |idx| :: idx[k] < |was|
    ensures |o| == |idx| && forall k | 0 <= k < |idx| :: o[k] == was[idx[k]]
  {
    seq(|idx|, k requires 0 <= k < |idx| => was[idx[k]])
  }

  predicate Lead(was: Order, a: nat, b: nat) {
    a < |was| && b < |was| && Leads(was[a], was[b])
  }

  function R(was: Order, rank: map<nat, nat>, a: nat): nat {
    if a < |was| then Rank(rank, was[a]) else 0
  }

  /** The front `was[..i]` is settled, `was[i]` leads nothing before `j`, and leading follows the ranks. */
  ghost predicate Calm(was: Order, rank: map<nat, nat>, i: nat, j: nat) {
    && j <= i < |was|
    && (forall a, b | 0 <= a < b < i :: !Lead(was, b, a))
    && (forall a | 0 <= a < j :: !Lead(was, i, a))
    && (forall a, b | 0 <= a <= i && 0 <= b <= i && a != b && Lead(was, a, b) :: R(was, rank, a) < R(was, rank, b))
  }

  /** The front as `was[..j]`, then the block of those that moved, the newcomer at `c`, and the rest in order. */
  ghost predicate Shape(was: Order, i: nat, j: nat, c: nat, idx: seq<nat>) {
    && |idx| == |was| && j <= c <= i < |was| && idx[c] == i
    && (forall k | 0 <= k < j || i < k < |idx| :: idx[k] == k)
    && (forall k | j <= k <= i && k != c :: j <= idx[k] < i)
    && (forall k, l | c < k < l <= i :: idx[k] < idx[l])
    && (forall k, l | j <= k < l <= i :: idx[k] != idx[l])
  }

  /** The block ranks below the newcomer and is settled. */
  ghost predicate Block(was: Order, rank: map<nat, nat>, i: nat, j: nat, c: nat, idx: seq<nat>)
    requires |idx| == |was| && c <= i < |was|
  {
    && (forall k | j <= k < c :: R(was, rank, idx[k]) < R(was, rank, i))
    && (forall p, q | j <= q < p < c :: !Lead(was, idx[p], idx[q]))
  }

  /** Element `t` of the rest leads element `p` of the block or the newcomer. */
  predicate Calls(was: Order, j: nat, c: nat, idx: seq<nat>, t: int, p: int) {
    j <= p <= c < t < |idx| && Lead(was, idx[t], idx[p])
  }

  /** Each of the rest is called by at most one; later ones by later ones; and a block element that was in front of a
      called one is in front of its caller. */
  ghost predicate Ordered(was: Order, i: nat, j: nat, c: nat, idx: seq<nat>)
    requires |idx| == |was| && c <= i < |was|
  {
    && (forall t, p, q | t <= i && Calls(was, j, c, idx, t, p) && Calls(was, j, c, idx, t, q) :: p == q)
    && (forall t, u, p, q | t < u <= i && Calls(was, j, c, idx, t, p) && Calls(was, j, c, idx, u, q) :: p <= q)
    && (forall q, t, p | j <= q < c && t <= i && Calls(was, j, c, idx, t, p) && idx[q] < idx[t] :: q < p)
  }

  ghost predicate Cascading(was: Order, rank: map<nat, nat>, i: nat, j: nat, c: nat, idx: seq<nat>) {
    && Calm(was, rank, i, j) && Shape(was, i, j, c, idx) && Block(was, rank, i, j, c, idx) && Ordered(was, i, j, c, idx)
  }

  ghost predicate NoneCalled(was: Order, j: nat, c: nat, idx: seq<nat>, t: nat) {
    forall u, p | u < t :: !Calls(was, j, c, idx, u, p)
  }

  /** In front of the first called element all is settled. */
  lemma FrontIsUnled(was: Order, rank: map<nat, nat>, i: nat, j: nat, c: nat, idx: seq<nat>, t: nat, k: nat, m: nat)
    requires Cascading(was, rank, i, j, c, idx) && t <= i + 1 && NoneCalled(was, j, c, idx, t) && m < k < t
    ensures !Lead(was, idx[k], idx[m])
  {
    hide Lead, R;
    if m < j {
      assert idx[m] == m;
    } else if m > c {
      assert idx[m] < idx[k];
    } else if k > c {
      assert !Calls(was, j, c, idx, k, m);
    } else if k == c {
      assert R(was, rank, idx[m]) < R(was, rank, i);
    }
  }

  /** Where an element stood before a move of `t` in front of `p`. */
  function Origin(t: nat, p: nat, k: nat): nat {
    if k < p then k else if k == p then t else if k <= t then k - 1 else k
  }

  ghost predicate Moved(idx: seq<nat>, idx': seq<nat>, t: nat, p: nat) {
    && |idx'| == |idx| && p < t < |idx|
    && forall k | 0 <= k < |idx| :: idx'[k] == idx[Origin(t, p, k)]
  }

  /** `t` is the first called element, `p` its caller, and `idx'` the list after its move. */
  ghost predicate Steps(was: Order, rank: map<nat, nat>, i: nat, j: nat, c: nat, idx: seq<nat>, t: nat, p: nat,
                        idx': seq<nat>) {
    && Cascading(was, rank, i, j, c, idx) && t <= i && Calls(was, j, c, idx, t, p)
    && NoneCalled(was, j, c, idx, t) && Moved(idx, idx', t, p)
  }

  lemma ShapeStays(was: Order, rank: map<nat, nat>, i: nat, j: nat, c: nat, idx: seq<nat>, t: nat, p: nat,
                   idx': seq<nat>)
    requires Steps(was, rank, i, j, c, idx, t, p, idx')
    ensures Shape(was, i, j, c + 1, idx')
  {
    hide Lead, R, Calm, Block, Ordered, NoneCalled;
    assert idx'[c + 1] == idx[c];
    forall k, l | c + 1 < k < l <= i
      ensures idx'[k] < idx'[l]
    {
      assert Origin(t, p, k) < Origin(t, p, l) && c < Origin(t, p, k);
    }
    DistinctStays(was, rank, i, j, c, idx, t, p, idx');
    forall k | j <= k <= i && k != c + 1
      ensures j <= idx'[k] < i
    {
      assert idx'[k] == idx[Origin(t, p, k)] && Origin(t, p, k) != c && j <= Origin(t, p, k) <= i;
    }
  }

  lemma DistinctStays(was: Order, rank: map<nat, nat>, i: nat, j: nat, c: nat, idx: seq<nat>, t: nat, p: nat,
                      idx': seq<nat>)
    requires Steps(was, rank, i, j, c, idx, t, p, idx')
    ensures forall k, l | j <= k < l <= i :: idx'[k] != idx'[l]
  {
    hide Lead, R, Calm, Block, Ordered, NoneCalled;
    forall k, l | j <= k < l <= i
      ensures idx'[k] != idx'[l]
    {
      var a, b := Origin(t, p, k), Origin(t, p, l);
      assert a != b && j <= a <= i && j <= b <= i;
      assert idx[if a < b then a else b] != idx[if a < b then b else a];
    }
  }

  lemma BlockStays(was: Order, rank: map<nat, nat>, i: nat, j: nat, c: nat, idx: seq<nat>, t: nat, p: nat,
                   idx': seq<nat>)
    requires Steps(was, rank, i, j, c, idx, t, p, idx')
    ensures Block(was, rank, i, j, c + 1, idx') && R(was, rank, idx[t]) < R(was, rank, i)
  {
    hide Lead, R, NoneCalled;
    assert R(was, rank, idx[t]) < R(was, rank, idx[p]);
    forall a, b | j <= b < a < c + 1
      ensures !Lead(was, idx'[a], idx'[b])
    {
      if a == p {
        assert !Calls(was, j, c, idx, t, b);
      } else if b == p {
        assert idx[a - 1] < idx[t] ==> a - 1 < p;
        assert idx[a - 1] != idx[t];
      } else {
        assert idx'[a] == idx[Origin(t, p, a)] && idx'[b] == idx[Origin(t, p, b)];
      }
    }
  }

  /** Who is called after the move: those who were, and by the mover only some in front of where it stood. */
  lemma CallsAfter(was: Order, rank: map<nat, nat>, i: nat, j: nat, c: nat, idx: seq<nat>, t: nat, p: nat,
                   idx': seq<nat>, u: nat, q: nat)
    requires Steps(was, rank, i, j, c, idx, t, p, idx') && u <= i && Calls(was, j, c + 1, idx', u, q)
    ensures q == p ==> u <= t && idx'[u] < idx[t]
    ensures q != p ==>
      (var r := Origin(t, p, q);
       u > t && idx'[u] == idx[u] && p <= r && q == r + 1 && Calls(was, j, c, idx, u, r))
  {
    hide Lead, R, Block;
    var v := Origin(t, p, u);
    assert c < v && idx'[u] == idx[v];
    if q == p {
      assert idx'[q] == idx[t];
      assert idx[v] != idx[t];
      assert idx[v] < idx[t];
      assert v < t;
    } else {
      var r := Origin(t, p, q);
      assert idx'[q] == idx[r] && j <= r <= c;
      assert Calls(was, j, c, idx, v, r);
      assert v >= t;
      assert v != t;
      assert p <= r;
    }
  }

  lemma CalledOnce(was: Order, rank: map<nat, nat>, i: nat, j: nat, c: nat, idx: seq<nat>, t: nat, p: nat,
                   idx': seq<nat>, u: nat, q: nat, r: nat)
    requires Steps(was, rank, i, j, c, idx, t, p, idx') && u <= i
    requires Calls(was, j, c + 1, idx', u, q) && Calls(was, j, c + 1, idx', u, r)
    ensures q == r
  {
    CallsAfter(was, rank, i, j, c, idx, t, p, idx', u, q);
    CallsAfter(was, rank, i, j, c, idx, t, p, idx', u, r);
    hide Calls, Calm, Shape, Block, NoneCalled, Moved;
  }

  lemma CalledInOrder(was: Order, rank: map<nat, nat>, i: nat, j: nat, c: nat, idx: seq<nat>, t: nat, p: nat,
                      idx': seq<nat>, u: nat, v: nat, q: nat, r: nat)
    requires Steps(was, rank, i, j, c, idx, t, p, idx') && u < v <= i
    requires Calls(was, j, c + 1, idx', u, q) && Calls(was, j, c + 1, idx', v, r)
    ensures q <= r
  {
    CallsAfter(was, rank, i, j, c, idx, t, p, idx', u, q);
    CallsAfter(was, rank, i, j, c, idx, t, p, idx', v, r);
    hide Calls, Calm, Shape, Block, NoneCalled, Moved;
  }

  lemma CalledBehind(was: Order, rank: map<nat, nat>, i: nat, j: nat, c: nat, idx: seq<nat>, t: nat, p: nat,
                     idx': seq<nat>, b: nat, u: nat, q: nat)
    requires Steps(was, rank, i, j, c, idx, t, p, idx') && j <= b <= c && u <= i
    requires Calls(was, j, c + 1, idx', u, q) && idx'[b] < idx'[u]
    ensures b < q
  {
    CallsAfter(was, rank, i, j, c, idx, t, p, idx', u, q);
    if b != p {
      assert idx'[b] == idx[Origin(t, p, b)];
    }
    hide Calls, Calm, Shape, Block, NoneCalled;
  }

  lemma OrderedStays(was: Order, rank: map<nat, nat>, i: nat, j: nat, c: nat, idx: seq<nat>, t: nat, p: nat,
                     idx': seq<nat>)
    requires Steps(was, rank, i, j, c, idx, t, p, idx')
    ensures Ordered(was, i, j, c + 1, idx')
  {
    hide Steps, Lead;
    var d := c + 1;
    forall u, q, r | u <= i && Calls(was, j, d, idx', u, q) && Calls(was, j, d, idx', u, r)
      ensures q == r
    {
      CalledOnce(was, rank, i, j, c, idx, t, p, idx', u, q, r);
    }
    forall u, v, q, r | u < v <= i && Calls(was, j, d, idx', u, q) && Calls(was, j, d, idx', v, r)
      ensures q <= r
    {
      CalledInOrder(was, rank, i, j, c, idx, t, p, idx', u, v, q, r);
    }
    forall b, u, q | j <= b < d && u <= i && Calls(was, j, d, idx', u, q) && idx'[b] < idx'[u]
      ensures b < q
    {
      CalledBehind(was, rank, i, j, c, idx, t, p, idx', b, u, q);
    }
  }

  // ---- The moves themselves

  /** No element of the front needs anything behind it. */
  ghost predicate QuietBelow(order: Order, i: nat)
    requires i <= |order|
  {
    forall k | 0 <= k < i :: Quiet(order, k)
  }

  /** What an element of a quiet front needs in the end is in front of it. */
  lemma {:induction false} ReachedInFront(order: Order, t: nat, k: nat, w: Entry, n: nat) returns (m: nat)
    requires k < t <= |order| && QuietBelow(order, t) && Reaches(order, order[k], w, n)
    ensures m <= k && order[m] == w
    decreases n
  {
    hide Needs;
    if order[k] == w {
      m := k;
    } else {
      var c :| c in order && Needs(order[k], c) && Reaches(order, c, w, n - 1);
      var l :| 0 <= l < |order| && order[l] == c;
      assert Quiet(order, k);
      if l == k {
        m := ReachedInFront(order, t, k, w, n - 1);
      } else {
        m := ReachedInFront(order, t, l, w, n - 1);
      }
    }
  }

  /** What an element needs and has in front of it, or is as far as the settled front goes, stands before all that the
      element leads in the front. */
  lemma NeedsBeforeLed(order: Order, rank: map<nat, nat>, bound: nat, t: nat, p: nat, m: nat)
    requires Distinct(order) && Ranked(order, rank, bound) && Linked(order)
    requires p < t < |order| && m < t && SettledBelow(order, t)
    requires Leads(order[t], order[p]) && Needs(order[t], order[m])
    ensures m < p
  {
    hide Needs, Leads;
    assert order[t] in order && order[p] in order && order[m] in order;
    assert Links(order, order[p], order[m]);
    var w, n :| w in order && Reaches(order, order[p], w, n) && (w == order[m] || Leads(order[m], w));
    var l := ReachedInFront(order, t, p, w, n);
    assert Unled(order, m);
    LeadPrecedes(order[t], order[p]);
    NeedPrecedes(order[t], order[m]);
    assert m != p;
  }

  /** A leading move keeps the front quiet: whoever it passes is not needed by the mover. */
  lemma QuietStays(order: Order, rank: map<nat, nat>, bound: nat, t: nat, p: nat, i: nat)
    requires Distinct(order) && Ranked(order, rank, bound) && Linked(order)
    requires p < t < i <= |order| && QuietBelow(order, i) && SettledBelow(order, t) && Leads(order[t], order[p])
    ensures QuietBelow(MoveBefore(order, t, p), i)
  {
    MoveBeforeAt(order, t, p);
    hide MoveBefore, Needs, Leads;
    var o := MoveBefore(order, t, p);
    forall k, m | 0 <= k < i && k < m < |o|
      ensures !Needs(o[k], o[m])
    {
      var k0, m0 := Origin(t, p, k), Origin(t, p, m);
      assert o[k] == order[k0] && o[m] == order[m0];
      if m0 > k0 {
        assert Quiet(order, k0);
      } else if Needs(order[t], order[m0]) {
        assert k0 == t ==> p <= m0;
        NeedsBeforeLed(order, rank, bound, t, p, m0);
      }
    }
  }

  lemma LeadPrecedes(x: Entry, y: Entry)
    requires Leads(x, y)
    ensures MustPrecede(x, y)
  {
  }

  lemma NeedPrecedes(x: Entry, z: Entry)
    requires Needs(x, z)
    ensures MustPrecede(z, x)
  {
  }

  /** How many of the elements from `t` to `i` stood below the newcomer's rank. */
  function Below(was: Order, rank: map<nat, nat>, i: nat, idx: seq<nat>, t: nat): nat
    requires t <= i + 1 <= |idx|
    decreases i + 1 - t
  {
    if t > i then 0
    else (if R(was, rank, idx[t]) < R(was, rank, i) then 1 else 0) + Below(was, rank, i, idx, t + 1)
  }

  lemma {:induction false} BelowDrops(was: Order, rank: map<nat, nat>, i: nat, idx: seq<nat>, t: nat, p: nat,
                                      idx': seq<nat>, k: nat)
    requires Moved(idx, idx', t, p) && p < k <= t <= i < |idx| && R(was, rank, idx[t]) < R(was, rank, i)
    ensures Below(was, rank, i, idx', k + 1) + 1 == Below(was, rank, i, idx, k)
    decreases t - k
  {
    hide R;
    if k < t {
      BelowDrops(was, rank, i, idx, t, p, idx', k + 1);
      assert idx'[k + 1] == idx[k];
    } else {
      BelowSame(was, rank, i, idx, idx', t + 1);
    }
  }

  lemma {:induction false} BelowSame(was: Order, rank: map<nat, nat>, i: nat, idx: seq<nat>, idx': seq<nat>, t: nat)
    requires t <= i + 1 <= |idx| == |idx'| && forall k | t <= k <= i :: idx'[k] == idx[k]
    ensures Below(was, rank, i, idx', t) == Below(was, rank, i, idx, t)
    decreases i + 1 - t
  {
    hide R;
    if t <= i {
      BelowSame(was, rank, i, idx, idx', t + 1);
    }
  }

  /** What the rounds of one insertion start from and keep. */
  ghost predicate Running(was: Order, rank: map<nat, nat>, bound: nat, i: nat, order: Order) {
    && i < |was| == |order| && Permuted(order, was) && QuietBelow(order, i + 1)
    && Distinct(order) && Ranked(order, rank, bound) && Linked(order)
  }

  lemma AtMoves(was: Order, idx: seq<nat>, t: nat, p: nat)
    requires p < t < |idx| && forall k | 0 <= k < |idx| :: idx[k] < |was|
    ensures Moved(idx, MoveBefore(idx, t, p), t, p)
    ensures forall k | 0 <= k < |idx| :: MoveBefore(idx, t, p)[k] < |was|
    ensures At(was, MoveBefore(idx, t, p)) == MoveBefore(At(was, idx), t, p)
  {
    MoveBeforeAt(idx, t, p);
    MoveBeforeAt(At(was, idx), t, p);
  }

  lemma RunOn(was: Order, rank: map<nat, nat>, bound: nat, i: nat, order: Order, t: nat, p: nat)
    requires Running(was, rank, bound, i, order) && p < t <= i && Leads(order[t], order[p]) && SettledBelow(order, t)
    ensures Running(was, rank, bound, i, MoveBefore(order, t, p))
  {
    hide MoveBefore, Permuted, Leads, Linked, Distinct, Ranked, QuietBelow, SettledBelow;
    MovesPermute(order, t, p);
    StaysGood(order, MoveBefore(order, t, p));
    PermutedTransitive(MoveBefore(order, t, p), order, was);
    QuietStays(order, rank, bound, t, p, i + 1);
  }

  /** The called elements move in front of their callers, each once, until the front is settled. */
  lemma {:induction false} Cascade(was: Order, rank: map<nat, nat>, bound: nat, i: nat, j: nat, c: nat, idx: seq<nat>)
    returns (n: nat)
    requires Cascading(was, rank, i, j, c, idx) && (forall k | 0 <= k < |idx| :: idx[k] < |was|)
    requires Running(was, rank, bound, i, At(was, idx))
    ensures n <= Below(was, rank, i, idx, c + 1)
    ensures var o := Iterate(At(was, idx), n); Permuted(o, was) && |o| == |was| && SettledBelow(o, i + 1)
    decreases Below(was, rank, i, idx, c + 1)
  {
    hide Iterate, Repair, Calm, Shape, Block, Ordered, Lead, R, MoveBefore, Below, Permuted, SettledBelow, Running;
    var order := At(was, idx);
    if u, q :| u <= i && Calls(was, j, c, idx, u, q) {
      var t := FirstCalled(was, i, j, c, idx, u, q);
      FrontSettled(was, rank, bound, i, j, c, idx, t);
      var p := CallerOf(was, rank, bound, i, j, c, idx, t);
      AtMoves(was, idx, t, p);
      var idx' := MoveBefore(idx, t, p);
      ShapeStays(was, rank, i, j, c, idx, t, p, idx');
      BlockStays(was, rank, i, j, c, idx, t, p, idx');
      OrderedStays(was, rank, i, j, c, idx, t, p, idx');
      BelowDrops(was, rank, i, idx, t, p, idx', c + 1);
      RunOn(was, rank, bound, i, order, t, p);
      n := Cascade(was, rank, bound, i, j, c + 1, idx');
      IterateShift(order, n);
      n := n + 1;
    } else {
      n := 0;
      FrontSettled(was, rank, bound, i, j, c, idx, i + 1);
      IterateNone(order);
      RunningFacts(was, rank, bound, i, order);
    }
  }

  lemma IterateNone(order: Order)
    ensures Iterate(order, 0) == order
  {
  }

  lemma RunningFacts(was: Order, rank: map<nat, nat>, bound: nat, i: nat, order: Order)
    requires Running(was, rank, bound, i, order)
    ensures Permuted(order, was) && |order| == |was| && QuietBelow(order, i + 1)
  {
  }

  lemma {:induction false} FirstCalled(was: Order, i: nat, j: nat, c: nat, idx: seq<nat>, u: nat, q: nat)
    returns (t: nat)
    requires u <= i && Calls(was, j, c, idx, u, q)
    ensures t <= u && NoneCalled(was, j, c, idx, t) && exists p :: Calls(was, j, c, idx, t, p)
    decreases u
  {
    hide Lead;
    if v, p :| v < u && Calls(was, j, c, idx, v, p) {
      t := FirstCalled(was, i, j, c, idx, v, p);
    } else {
      t := u;
    }
  }

  lemma FrontSettled(was: Order, rank: map<nat, nat>, bound: nat, i: nat, j: nat, c: nat, idx: seq<nat>, t: nat)
    requires Cascading(was, rank, i, j, c, idx) && (forall k | 0 <= k < |idx| :: idx[k] < |was|)
    requires Running(was, rank, bound, i, At(was, idx)) && t <= i + 1 && NoneCalled(was, j, c, idx, t)
    ensures SettledBelow(At(was, idx), t)
  {
    hide Calm, Block, Ordered, R, Leads, Permuted, Ranked, Linked, Distinct, NoneCalled;
    var order := At(was, idx);
    forall k | 0 <= k < t
      ensures Quiet(order, k) && Unled(order, k)
    {
      forall m | 0 <= m < k
        ensures !Leads(order[k], order[m])
      {
        FrontIsUnled(was, rank, i, j, c, idx, t, k, m);
      }
    }
  }

  /** The move of the first called element is in front of its one caller. */
  lemma CallerOf(was: Order, rank: map<nat, nat>, bound: nat, i: nat, j: nat, c: nat, idx: seq<nat>, t: nat)
    returns (p: nat)
    requires Cascading(was, rank, i, j, c, idx) && (forall k | 0 <= k < |idx| :: idx[k] < |was|)
    requires t <= i && NoneCalled(was, j, c, idx, t) && (exists q :: Calls(was, j, c, idx, t, q))
    requires SettledBelow(At(was, idx), t)
    ensures p <= c < t && i < |idx| && Calls(was, j, c, idx, t, p) && Leads(At(was, idx)[t], At(was, idx)[p])
    ensures Repair(At(was, idx)) == MoveBefore(At(was, idx), t, p)
  {
    hide Repair, MoveBefore, Block, Ordered, R, Leads, SettledBelow, NoneCalled;
    var order := At(was, idx);
    var q :| Calls(was, j, c, idx, t, q);
    assert Leads(order[t], order[q]);
    p := LeadMove(order, t);
    assert Lead(was, idx[t], idx[p]);
  }

  // ---- One insertion

  /** The list with the newcomer moved from `i` to `q`. */
  function Shifted(n: nat, i: nat, q: nat): (idx: seq<nat>)
    requires q <= i < n
    ensures |idx| == n
    ensures forall k | 0 <= k < n :: idx[k] == (if k < q then k else if k == q then i else if k <= i then k - 1 else k)
    ensures forall k | 0 <= k < n :: idx[k] < n
  {
    seq(n, k requires 0 <= k < n => if k < q then k else if k == q then i else if k <= i then k - 1 else k)
  }

  /** Elements among the first `k` that rank above the newcomer, and below. */
  function Above(was: Order, rank: map<nat, nat>, i: nat, k: nat): nat {
    if k == 0 then 0 else Above(was, rank, i, k - 1) + (if R(was, rank, k - 1) > R(was, rank, i) then 1 else 0)
  }

  function Under(was: Order, rank: map<nat, nat>, i: nat, k: nat): nat {
    if k == 0 then 0 else Under(was, rank, i, k - 1) + (if R(was, rank, k - 1) < R(was, rank, i) then 1 else 0)
  }

  lemma {:induction false} SidesFit(was: Order, rank: map<nat, nat>, i: nat, k: nat)
    ensures Above(was, rank, i, k) + Under(was, rank, i, k) <= k
  {
    hide R;
    if k > 0 {
      SidesFit(was, rank, i, k - 1);
    }
  }

  lemma {:induction false} AboveGrows(was: Order, rank: map<nat, nat>, i: nat, j: nat, k: nat)
    requires j < k && R(was, rank, j) > R(was, rank, i)
    ensures Above(was, rank, i, j) < Above(was, rank, i, k)
  {
    hide R;
    if k > j + 1 {
      AboveGrows(was, rank, i, j, k - 1);
    }
  }

  lemma {:induction false} BelowIsUnder(was: Order, rank: map<nat, nat>, i: nat, q: nat, t: nat)
    requires q < t <= i + 1 <= |was|
    ensures Below(was, rank, i, Shifted(|was|, i, q), t) + Under(was, rank, i, t - 1) == Under(was, rank, i, i)
    decreases i + 1 - t
  {
    hide R;
    if t <= i {
      BelowIsUnder(was, rank, i, q, t + 1);
    }
  }

  lemma CascadeStarts(was: Order, rank: map<nat, nat>, bound: nat, i: nat, q: nat)
    requires q <= i < |was| && Distinct(was) && Ranked(was, rank, bound) && SettledBelow(was, i)
    requires Unled(At(was, Shifted(|was|, i, q)), q)
    ensures Cascading(was, rank, i, q, q, Shifted(|was|, i, q))
  {
    hide Leads, Needs;
    var idx := Shifted(|was|, i, q);
    var order := At(was, idx);
    forall a | 0 <= a < q
      ensures !Lead(was, i, a)
    {
      assert order[q] == was[i] && order[a] == was[a];
    }
    forall a, b | 0 <= a < b < i
      ensures !Lead(was, b, a)
    {
      assert Unled(was, b);
    }
    forall a, b | 0 <= a <= i && 0 <= b <= i && a != b && Lead(was, a, b)
      ensures R(was, rank, a) < R(was, rank, b)
    {
      assert was[a] in was && was[b] in was;
      LeadPrecedes(was[a], was[b]);
    }
  }

  /** A settled front of `i` elements takes in a newcomer that needs nothing behind it in at most `i` rounds. */
  lemma {:induction false} Inserts(was: Order, rank: map<nat, nat>, bound: nat, i: nat, q: nat) returns (n: nat)
    requires q <= i < |was| && Distinct(was) && Ranked(was, rank, bound) && SettledBelow(was, i)
    requires Running(was, rank, bound, i, At(was, Shifted(|was|, i, q)))
    ensures n <= Above(was, rank, i, q) + Under(was, rank, i, i) && (AfterOnly(was) ==> n == 0)
    ensures var o := Iterate(At(was, Shifted(|was|, i, q)), n);
      Permuted(o, was) && |o| == |was| && SettledBelow(o, i + 1)
    decreases q
  {
    hide Iterate, Repair, R, Permuted, Above, Under, Below, MoveBefore, Cascading, Running, Ranked, Distinct, AfterOnly,
      SettledBelow;
    var idx := Shifted(|was|, i, q);
    var order := At(was, idx);
    FrontStays(was, rank, bound, i, q);
    RunningFacts(was, rank, bound, i, order);
    hide Unled;
    if AfterOnly(was) {
      AfterOnlyUnled(order, i + 1);
      IterateNone(order);
      n := 0;
    } else if Unled(order, q) {
      CascadeStarts(was, rank, bound, i, q);
      BelowIsUnder(was, rank, i, q, q + 1);
      n := Cascade(was, rank, bound, i, q, q, idx);
    } else {
      var j := NewcomerMoves(was, rank, bound, i, q);
      n := Inserts(was, rank, bound, i, j);
      IterateShift(order, n);
      n := n + 1;
    }
  }

  /** The newcomer moves in front of one it leads, which ranks above it. */
  lemma NewcomerMoves(was: Order, rank: map<nat, nat>, bound: nat, i: nat, q: nat) returns (j: nat)
    requires q <= i < |was| && Distinct(was) && Ranked(was, rank, bound)
    requires Running(was, rank, bound, i, At(was, Shifted(|was|, i, q)))
    requires SettledBelow(At(was, Shifted(|was|, i, q)), q) && !Unled(At(was, Shifted(|was|, i, q)), q)
    ensures j < q && Above(was, rank, i, j) < Above(was, rank, i, q)
    ensures Repair(At(was, Shifted(|was|, i, q))) == At(was, Shifted(|was|, i, j))
    ensures Running(was, rank, bound, i, At(was, Shifted(|was|, i, j)))
  {
    hide Repair, Leads, R, Above, MoveBefore, Running, Ranked, Distinct, SettledBelow, Unled;
    var idx := Shifted(|was|, i, q);
    var order := At(was, idx);
    j := LeadMove(order, q);
    RunOn(was, rank, bound, i, order, q, j);
    AtMoves(was, idx, q, j);
    assert MoveBefore(idx, q, j) == Shifted(|was|, i, j);
    assert order[q] == was[i] && order[j] == was[j];
    HigherLed(was, rank, bound, i, j);
    AboveGrows(was, rank, i, j, q);
  }

  lemma FrontStays(was: Order, rank: map<nat, nat>, bound: nat, i: nat, q: nat)
    requires q <= i < |was| && SettledBelow(was, i) && Running(was, rank, bound, i, At(was, Shifted(|was|, i, q)))
    ensures SettledBelow(At(was, Shifted(|was|, i, q)), q)
    ensures AfterOnly(was) ==> AfterOnly(At(was, Shifted(|was|, i, q)))
    ensures was[i] in was && At(was, Shifted(|was|, i, q))[q] == was[i]
    ensures forall j | 0 <= j < q :: At(was, Shifted(|was|, i, q))[j] == was[j]
  {
    hide Leads, Needs, Permuted, Ranked, Distinct, Linked;
    var order := At(was, Shifted(|was|, i, q));
    forall k | 0 <= k < q
      ensures Quiet(order, k) && Unled(order, k)
    {
      assert Unled(was, k);
    }
  }

  lemma AfterOnlyUnled(order: Order, i: nat)
    requires i <= |order| && AfterOnly(order)
    ensures forall k | 0 <= k < i :: Unled(order, k)
    ensures QuietBelow(order, i) ==> SettledBelow(order, i)
  {
    assert forall k | 0 <= k < i :: order[k] in order;
  }

  lemma HigherLed(was: Order, rank: map<nat, nat>, bound: nat, i: nat, j: nat)
    requires j < i < |was| && Distinct(was) && Ranked(was, rank, bound) && Leads(was[i], was[j])
    ensures R(was, rank, j) > R(was, rank, i)
  {
    assert was[i] in was && was[j] in was;
    LeadPrecedes(was[i], was[j]);
  }
}
