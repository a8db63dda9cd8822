/** The repository's own modules: in whatever order the packages register them, requires/requires.go starts them. */
module RequiresModules {
  import opened Requires
  import opened RequiresSettling
  import opened RequiresRounds
  import opened RequiresInsertion
  import opened RequiresCap
  import opened Sequences

  // ---- Lists in which everyone needs at most one other, and one leads one

  /** Nobody needs two others, and only `x` leads, only `y`. */
  ghost predicate Shallow(order: Order, x: Entry, y: Entry) {
    && (forall e, z, w | e in order && z in order && w in order && Needs(e, z) && Needs(e, w) :: z == w)
    && (forall e, f | e in order && f in order && Leads(e, f) :: e == x && f == y)
  }

  ghost predicate Misled(order: Order) {
    exists k :: 0 <= k < |order| && !Unled(order, k)
  }

  /** Twice what the waiting ones weigh, and one more while `y` is in front of `x`. */
  ghost function Debt(order: Order, top: Order, ws: seq<nat>): nat
    requires |top| == |ws|
  {
    2 * Load(order, 0, top, ws, |top|) + (if Misled(order) then 1 else 0)
  }

  /** A leading move starts no wait. */
  lemma HeldAfterLead(order: Order, i: nat, j: nat, e: Entry, rank: map<nat, nat>, bound: nat)
    requires Distinct(order) && Compatible(order) && Ranked(order, rank, bound)
    requires j < i < |order| && SettledBelow(order, i) && Leads(order[i], order[j])
    requires forall f, z, w | f in order && z in order && w in order && Needs(f, z) && Needs(f, w) :: z == w
    ensures Held(MoveBefore(order, i, j), 0, e) ==> Held(order, 0, e)
  {
    var o := MoveBefore(order, i, j);
    MoveBeforeAt(order, i, j);
    hide MoveBefore, Needs, Leads;
    forall p | 0 <= p < |o| && Waits(o, 0, p)
      ensures Held(order, 0, o[p])
    {
      var k :| p < k < |o| && Needs(o[p], o[k]);
      var p0, k0 := Origin(i, j, p), Origin(i, j, k);
      assert o[p] == order[p0] && o[k] == order[k0];
      if k0 < p0 {
        LeaderNeedsNothingPassed(order, i, j, k0, rank, bound);
        assert false;
      }
      OneNeedWaits(order, p0, k0);
    }
  }

  /** Whoever needs one thing only, which is behind it, waits for it. */
  lemma OneNeedWaits(order: Order, p: nat, k: nat)
    requires Distinct(order) && p < k < |order| && Needs(order[p], order[k])
    requires forall f, z, w | f in order && z in order && w in order && Needs(f, z) && Needs(f, w) :: z == w
    ensures Held(order, 0, order[p])
  {
    hide Needs, Held;
    forall m | 0 <= m < p
      ensures !Needs(order[p], order[m])
    {
      assert order[m] in order && order[k] in order && order[p] in order;
      assert order[m].id != order[k].id;
    }
    assert Waits(order, 0, p);
    WaitsIsHeld(order, 0, p);
  }

  lemma LeaderNeedsNothingPassed(order: Order, i: nat, j: nat, k: nat, rank: map<nat, nat>, bound: nat)
    requires Distinct(order) && Compatible(order) && Ranked(order, rank, bound)
    requires j <= k < i < |order| && SettledBelow(order, i) && Leads(order[i], order[j])
    ensures !Needs(order[i], order[k])
  {
    hide Needs, Leads;
    assert order[i] in order && order[j] in order && order[k] in order && Quiet(order, j);
    LeadPrecedes(order[i], order[j]);
    if Needs(order[i], order[k]) {
      NeedPrecedes(order[i], order[k]);
    }
  }

  lemma {:induction false} LoadShrinks(order: Order, o: Order, top: Order, ws: seq<nat>, k: nat)
    requires k <= |top| == |ws| && forall e :: Held(o, 0, e) ==> Held(order, 0, e)
    ensures Load(o, 0, top, ws, k) <= Load(order, 0, top, ws, k)
  {
    hide Held;
    if k > 0 {
      LoadShrinks(order, o, top, ws, k - 1);
    }
  }

  ghost predicate Good(order: Order, rank: map<nat, nat>, bound: nat, x: Entry, y: Entry, top: Order, ws: seq<nat>) {
    && Distinct(order) && Compatible(order) && Ranked(order, rank, bound) && Shallow(order, x, y)
    && |top| == |ws| && Dominated(top, ws) && Distinct(top) && (forall e | e in order :: e in top)
  }

  lemma LeadPays(order: Order, rank: map<nat, nat>, bound: nat, x: Entry, y: Entry, top: Order, ws: seq<nat>, i: nat)
    requires Good(order, rank, bound, x, y, top, ws) && i < |order| && SettledBelow(order, i) && !Unled(order, i)
    ensures Debt(Repair(order), top, ws) < Debt(order, top, ws)
  {
    hide Repair, MoveBefore, Held, Load, Needs, Dominated, SettledBelow, Ranked, Compatible;
    var j := LeadMove(order, i);
    var o := Repair(order);
    forall e
      ensures Held(o, 0, e) ==> Held(order, 0, e)
    {
      HeldAfterLead(order, i, j, e, rank, bound);
    }
    LoadShrinks(order, o, top, ws, |top|);
    MoveBeforeAt(order, i, j);
    assert order[i] in order && order[j] in order;
    forall k, m | 0 <= m < k < |o|
      ensures !Leads(o[k], o[m])
    {
      assert o[k] == order[Origin(i, j, k)] && o[m] == order[Origin(i, j, m)];
      assert o[k] in order && o[m] in order;
    }
  }

  lemma NeedPays(order: Order, rank: map<nat, nat>, bound: nat, x: Entry, y: Entry, top: Order, ws: seq<nat>, i: nat)
    requires Good(order, rank, bound, x, y, top, ws) && i < |order| && SettledBelow(order, i)
    requires Unled(order, i) && !Quiet(order, i)
    ensures Debt(Repair(order), top, ws) < Debt(order, top, ws)
  {
    hide Repair, MoveAfter, Held, Load, Needs, Leads, Dominated, SettledBelow, Ranked, Compatible;
    var j := NeedMove(order, i);
    assert order[i] in order && order[j] in order;
    var p :| 0 <= p < |top| && top[p] == order[i];
    forall k | 0 <= k < i
      ensures !Needs(order[i], order[k])
    {
      assert order[k] in order && order[k].id != order[j].id;
    }
    MoveUnloads(order, 0, i, j, top, ws, p);
  }

  lemma {:induction false} FirstUnsettled(order: Order, i: nat) returns (k: nat)
    requires i <= |order| && SettledBelow(order, i) && !Satisfied(order)
    ensures k < |order| && SettledBelow(order, k) && !(Quiet(order, k) && Unled(order, k))
    decreases |order| - i
  {
    hide Needs, Leads, Satisfied;
    if i == |order| {
      AllSettled(order);
      assert false;
    } else if Quiet(order, i) && Unled(order, i) {
      k := FirstUnsettled(order, i + 1);
    } else {
      k := i;
    }
  }

  lemma AllSettled(order: Order)
    requires SettledBelow(order, |order|)
    ensures Satisfied(order)
  {
    hide Settled, Satisfied;
    SatisfiedIffSettled(order);
    forall i | 0 <= i < |order|
      ensures Settled(order, i)
    {
      SettledMeans(order, i);
    }
  }

  lemma GoodStays(order: Order, o: Order, rank: map<nat, nat>, bound: nat, x: Entry, y: Entry, top: Order, ws: seq<nat>)
    requires Good(order, rank, bound, x, y, top, ws) && Permuted(o, order)
    ensures Good(o, rank, bound, x, y, top, ws)
  {
    hide Permuted, Distinct, Compatible, Ranked, Needs, Leads, Dominated;
    StaysGood(order, o);
    PermutedFacts(o, order);
  }

  /** Such a list is in order after at most as many rounds as its debt. */
  lemma {:induction false} ShallowSettles(order: Order, rank: map<nat, nat>, bound: nat, x: Entry, y: Entry, top: Order,
                                          ws: seq<nat>) returns (n: nat)
    requires Good(order, rank, bound, x, y, top, ws)
    ensures n <= Debt(order, top, ws) && Satisfied(Iterate(order, n))
    decreases Debt(order, top, ws)
  {
    hide Repair, Satisfied, Good, Debt, Permuted, RepairFrom;
    n := 0;
    if !Satisfied(order) {
      var i := FirstUnsettled(order, 0);
      assert |top| == |ws| by { GoodSizes(order, rank, bound, x, y, top, ws); }
      if Unled(order, i) {
        NeedPays(order, rank, bound, x, y, top, ws, i);
      } else {
        LeadPays(order, rank, bound, x, y, top, ws, i);
      }
      RepairKeeps(order);
      GoodStays(order, Repair(order), rank, bound, x, y, top, ws);
      n := ShallowSettles(Repair(order), rank, bound, x, y, top, ws);
      IterateShift(order, n);
      n := n + 1;
    }
  }

  lemma RepairKeeps(order: Order)
    ensures Permuted(Repair(order), order)
  {
    RepairPermutes(order, 0);
  }

  lemma GoodSizes(order: Order, rank: map<nat, nat>, bound: nat, x: Entry, y: Entry, top: Order, ws: seq<nat>)
    requires Good(order, rank, bound, x, y, top, ws)
    ensures |top| == |ws|
  {
  }

  // ---- The seventeen modules

  const NAMES: seq<string> := [
    "config", "database", "settings", "logger", "log", "sshcert", "event", "node", "phandlers", "user", "search",
    "authority", "service", "mhandlers", "uhandlers", "subscription", "cookie"]

  const COUNT: nat := 17

  /** The module that module `k` registers to run after; none for `config`. */
  function Need(k: nat): int {
    if k == 0 then -1 else if k == 1 || k == 3 then 0 else if k == 2 then 1 else if k == 4 then 3 else 2
  }

  /** Module `k`, registered as the `id`-th; only `sshcert` registers to run before another, which is `event`. */
  function Registered(id: nat, k: nat): Entry
    requires k < COUNT
  {
    Entry(id, NAMES[k], if k == 5 then {NAMES[6]} else {}, if Need(k) >= 0 then {NAMES[Need(k)]} else {})
  }

  /** An order of registration: each module at one place. */
  ghost predicate Registration(p: seq<nat>) {
    && |p| == COUNT && (forall i | 0 <= i < COUNT :: p[i] < COUNT)
    && (forall i, j | 0 <= i < j < COUNT :: p[i] != p[j]) && (forall k: nat | k < COUNT :: k in p)
  }

  function Modules(p: seq<nat>): (order: Order)
    requires forall i | 0 <= i < |p| :: p[i] < COUNT
    ensures |order| == |p| && forall i | 0 <= i < |p| :: order[i] == Registered(i, p[i])
  {
    seq(|p|, i requires 0 <= i < |p| => Registered(i, p[i]))
  }

  lemma NamesDiffer(a: nat, b: nat)
    requires a < COUNT && b < COUNT
    ensures NAMES[a] == NAMES[b] ==> a == b
  {
  }

  /** The constraints between the modules, whatever the order of registration. */
  lemma ModuleConstraints(i: nat, k: nat, j: nat, l: nat)
    requires k < COUNT && l < COUNT
    ensures Needs(Registered(i, k), Registered(j, l)) <==> Need(k) == l
    ensures Leads(Registered(i, k), Registered(j, l)) <==> k == 5 && l == 6
  {
    if Need(k) >= 0 {
      NamesDiffer(Need(k), l);
    }
    NamesDiffer(6, l);
  }

  /** When module `k` was registered. */
  function TurnOf(p: seq<nat>, k: nat): (i: nat)
    requires k in p
    ensures i < |p| && p[i] == k
  {
    Place(p, k)
  }

  /** The modules by number, with the places at which they were registered. */
  function Numbers(p: seq<nat>): (top: Order)
    requires forall k: nat | k < COUNT :: k in p
    ensures |top| == COUNT && forall k | 0 <= k < COUNT :: top[k] == Registered(TurnOf(p, k), k)
  {
    seq(COUNT, k requires 0 <= k < COUNT => Registered(TurnOf(p, k), k))
  }

  /** The modules that come to wait when module `k` moves, with those that wait for them, and `k` itself. */
  function Heft(k: nat): nat {
    if k == 0 then 17 else if k == 1 then 14 else if k == 2 then 13 else if k == 3 then 2 else 1
  }

  function Hefts(): (ws: seq<nat>)
    ensures |ws| == COUNT && forall k | 0 <= k < COUNT :: ws[k] == Heft(k)
  {
    seq(COUNT, k requires 0 <= k < COUNT => Heft(k))
  }

  /** What the followers of module `k` weigh, among the first `n`. */
  function FollowersOf(k: nat, n: nat): nat {
    if k == 0 then (if n > 1 then 14 else 0) + (if n > 3 then 2 else 0)
    else if k == 1 then (if n > 2 then 13 else 0)
    else if k == 2 then (if n > 5 then n - 5 else 0)
    else if k == 3 then (if n > 4 then 1 else 0)
    else 0
  }

  lemma {:induction false} FollowersAre(p: seq<nat>, k: nat, n: nat)
    requires Registration(p) && k < COUNT && n <= COUNT
    ensures Followers(Numbers(p), Hefts(), k, n) == FollowersOf(k, n)
  {
    hide Registered, Needs, Registration, TurnOf;
    RegistrationFacts(p);
    if n > 0 {
      FollowersAre(p, k, n - 1);
      ModuleConstraints(TurnOf(p, n - 1), n - 1, TurnOf(p, k), k);
    }
  }

  lemma RegistrationFacts(p: seq<nat>)
    requires Registration(p)
    ensures |p| == COUNT && (forall i | 0 <= i < COUNT :: p[i] < COUNT) && forall k: nat | k < COUNT :: k in p
  {
  }

  /** What can wait among the first `n` modules. */
  function Most(n: nat): nat {
    if n <= 1 then 0 else if n == 2 then 14 else if n == 3 then 27 else if n == 4 then 29 else 30 + (n - 5)
  }

  lemma {:induction false} LoadIsSmall(order: Order, p: seq<nat>, n: nat)
    requires Registration(p) && order == Modules(p) && n <= COUNT
    ensures Load(order, 0, Numbers(p), Hefts(), n) <= Most(n)
  {
    hide Registered, Needs, TurnOf;
    if n > 0 {
      LoadIsSmall(order, p, n - 1);
      if n == 1 {
        ConfigNeverWaits(p);
      }
    }
  }

  lemma ConfigNeverWaits(p: seq<nat>)
    requires Registration(p)
    ensures !Held(Modules(p), 0, Numbers(p)[0])
  {
    hide Registered, Needs;
    forall j | 0 <= j < COUNT
      ensures !Needs(Numbers(p)[0], Modules(p)[j])
    {
      ModuleConstraints(TurnOf(p, 0), 0, j, p[j]);
    }
  }

  /** Registration numbers to module numbers. */
  function RankOf(p: seq<nat>, n: nat): (rank: map<nat, nat>)
    requires n <= |p|
    ensures forall i: nat :: i in rank <==> i < n
    ensures forall i | i in rank :: rank[i] == p[i]
  {
    if n == 0 then map[] else RankOf(p, n - 1)[n - 1 := p[n - 1]]
  }

  /** All constraints of a registration at once. */
  ghost predicate Table(order: Order, p: seq<nat>)
    requires |order| == |p|
  {
    && (forall i, j | 0 <= i < |p| && 0 <= j < |p| :: Needs(order[i], order[j]) <==> Need(p[i]) == p[j])
    && (forall i, j | 0 <= i < |p| && 0 <= j < |p| :: Leads(order[i], order[j]) <==> p[i] == 5 && p[j] == 6)
    && (forall i | 0 <= i < |p| :: order[i].id == i)
  }

  lemma ModulesTable(p: seq<nat>)
    requires Registration(p)
    ensures Table(Modules(p), p)
  {
    hide Needs, Leads, Registered;
    forall i, j | 0 <= i < COUNT && 0 <= j < COUNT
      ensures Needs(Modules(p)[i], Modules(p)[j]) <==> Need(p[i]) == p[j]
      ensures Leads(Modules(p)[i], Modules(p)[j]) <==> p[i] == 5 && p[j] == 6
    {
      ModuleConstraints(i, p[i], j, p[j]);
    }
    forall i | 0 <= i < COUNT
      ensures Modules(p)[i].id == i
    {
      RegisteredId(i, p[i]);
    }
  }

  lemma RegisteredId(i: nat, k: nat)
    requires k < COUNT
    ensures Registered(i, k).id == i
  {
  }

  lemma TableRanks(order: Order, p: seq<nat>)
    requires Registration(p) && |order| == |p| && Table(order, p)
    ensures Ranked(order, RankOf(p, COUNT), COUNT) && Distinct(order)
  {
    var rank := RankOf(p, COUNT);
    forall e, f | e in order && f in order && e.id != f.id && MustPrecede(e, f)
      ensures e.id in rank && f.id in rank && rank[e.id] < rank[f.id]
    {
      PrecedesMeans(e, f);
      hide MustPrecede, Needs, Leads;
      var i :| 0 <= i < COUNT && order[i] == e;
      var j :| 0 <= j < COUNT && order[j] == f;
      assert rank[i] == p[i] && rank[j] == p[j];
    }
  }

  lemma PrecedesMeans(e: Entry, f: Entry)
    requires MustPrecede(e, f)
    ensures Needs(f, e) || Leads(e, f)
  {
  }

  lemma TableCompatible(order: Order, p: seq<nat>)
    requires Registration(p) && |order| == |p| && Table(order, p)
    ensures Compatible(order)
  {
    hide Needs, Leads;
    forall x, y, z | x in order && y in order && z in order && Leads(x, y) && Needs(x, z)
      ensures Needs(y, z)
    {
      var i :| 0 <= i < COUNT && order[i] == x;
      var j :| 0 <= j < COUNT && order[j] == y;
      var k :| 0 <= k < COUNT && order[k] == z;
      assert p[i] == 5 && p[j] == 6 && p[k] == 2;
    }
  }

  /** Whatever stands at the place of a module is that module. */
  lemma PlaceIsUnique(p: seq<nat>, i: nat)
    requires Registration(p) && i < COUNT
    ensures TurnOf(p, p[i]) == i
  {
  }

  lemma TableShallow(order: Order, p: seq<nat>)
    requires Registration(p) && |order| == |p| && Table(order, p)
    ensures Shallow(order, order[TurnOf(p, 5)], order[TurnOf(p, 6)])
  {
    hide Needs, Leads;
    forall e, z, w | e in order && z in order && w in order && Needs(e, z) && Needs(e, w)
      ensures z == w
    {
      var i :| 0 <= i < COUNT && order[i] == e;
      var j :| 0 <= j < COUNT && order[j] == z;
      var k :| 0 <= k < COUNT && order[k] == w;
      assert p[j] == p[k];
    }
    forall e, f | e in order && f in order && Leads(e, f)
      ensures e == order[TurnOf(p, 5)] && f == order[TurnOf(p, 6)]
    {
      var i :| 0 <= i < COUNT && order[i] == e;
      var j :| 0 <= j < COUNT && order[j] == f;
      PlaceIsUnique(p, i);
      PlaceIsUnique(p, j);
    }
  }

  lemma NumbersFit(p: seq<nat>)
    requires Registration(p)
    ensures Dominated(Numbers(p), Hefts()) && Distinct(Numbers(p))
    ensures forall e | e in Modules(p) :: e in Numbers(p)
  {
    hide Registered, TurnOf;
    var top, ws := Numbers(p), Hefts();
    forall k | 0 <= k < COUNT
      ensures Followers(top, ws, k, COUNT) < ws[k] && top[k].id == TurnOf(p, k)
    {
      FollowersAre(p, k, COUNT);
      RegisteredId(TurnOf(p, k), k);
    }
    forall k, l | 0 <= k < l < COUNT
      ensures TurnOf(p, k) != TurnOf(p, l)
    {
      assert p[TurnOf(p, k)] == k && p[TurnOf(p, l)] == l;
    }
    forall e | e in Modules(p)
      ensures e in top
    {
      var i :| 0 <= i < COUNT && Modules(p)[i] == e;
      PlaceIsUnique(p, i);
      assert top[p[i]] == e;
    }
  }

  lemma ModulesGood(p: seq<nat>)
    requires Registration(p)
    ensures var order := Modules(p);
      Good(order, RankOf(p, COUNT), COUNT, order[TurnOf(p, 5)], order[TurnOf(p, 6)], Numbers(p), Hefts())
  {
    hide Table, Ranked, Distinct, Compatible, Shallow, Dominated, Registered, TurnOf;
    ModulesTable(p);
    TableRanks(Modules(p), p);
    TableCompatible(Modules(p), p);
    TableShallow(Modules(p), p);
    NumbersFit(p);
  }

  /** In whatever order the seventeen modules are registered, the repair loop has them in order within 85 rounds, so the
      program never leaves over their order. */
  lemma RepositoryStarts(p: seq<nat>) returns (n: nat)
    requires Registration(p)
    ensures n <= 85 && Satisfied(Iterate(Modules(p), n)) && Starts(Modules(p))
  {
    hide Satisfied, Iterate, Registered, Good, Load, Misled, TurnOf, Most;
    ModulesGood(p);
    LoadIsSmall(Modules(p), p, COUNT);
    assert Most(COUNT) == 42 by { MostIs(); }
    n := ShallowSettles(Modules(p), RankOf(p, COUNT), COUNT, Modules(p)[TurnOf(p, 5)], Modules(p)[TurnOf(p, 6)],
                        Numbers(p), Hefts());
  }

  lemma MostIs()
    ensures Most(COUNT) == 42
  {
  }
}
