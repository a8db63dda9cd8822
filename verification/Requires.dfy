/** Constraint-driven ordering of start-up modules: requires/requires.go. */
module Requires {

  /** What the ordering sees of a registered module; `id` is the identity of its list element. */
  datatype Entry = Entry(id: nat, name: string, before: set<string>, after: set<string>)

  type Order = seq<Entry>

  /** No module precedes one named in its `after` set or follows one named in its `before` set. */
  ghost predicate Satisfied(order: Order) {
    forall i, j | 0 <= i < j < |order| ::
      order[j].name !in order[i].after && order[i].name !in order[j].before
  }

  // The two list operations, on any element type.

  function MoveBefore<T>(list: seq<T>, i: nat, j: nat): seq<T>
    requires j < i < |list|
  {
    list[..j] + [list[i]] + list[j..i] + list[i + 1..]
  }

  function MoveAfter<T>(list: seq<T>, i: nat, j: nat): seq<T>
    requires i < j < |list|
  {
    list[..i] + list[i + 1..j + 1] + [list[i]] + list[j + 1..]
  }

  predicate Permuted<T(==)>(a: seq<T>, b: seq<T>) {
    multiset(a) == multiset(b)
  }

  /** The largest position below `j` named in the `before` set of element `i`, or -1. */
  function LastBefore(order: Order, i: nat, j: nat): (k: int)
    requires j <= i < |order|
    ensures -1 <= k < j
  {
    if j == 0 then -1
    else if order[j - 1].name in order[i].before then j - 1
    else LastBefore(order, i, j - 1)
  }

  /** The smallest position from `j` on named in the `after` set of element `i`, or the length. */
  function FirstAfter(order: Order, i: nat, j: nat): (k: nat)
    requires i < j <= |order|
    ensures j <= k <= |order|
    decreases |order| - j
  {
    if j == |order| || order[j].name in order[i].after then j else FirstAfter(order, i, j + 1)
  }

  /** Element `i` has no element to move past. */
  predicate Settled(order: Order, i: nat)
    requires i < |order|
  {
    LastBefore(order, i, i) == -1 && FirstAfter(order, i, i + 1) == |order|
  }

  /** One pass from position `i` on: the first element that is out of place is moved, and the pass ends. */
  function RepairFrom(order: Order, i: nat): Order
    requires i <= |order|
    decreases |order| - i
  {
    if i == |order| then order
    else
      var b, a := LastBefore(order, i, i), FirstAfter(order, i, i + 1);
      if b >= 0 then MoveBefore(order, i, b)
      else if a < |order| then MoveAfter(order, i, a)
      else RepairFrom(order, i + 1)
  }

  function Repair(order: Order): Order {
    RepairFrom(order, 0)
  }

  function Iterate(order: Order, n: nat): Order {
    if n == 0 then order else Repair(Iterate(order, n - 1))
  }

  // ---- The list keeps its elements

  lemma ShiftPermutes<T>(a: seq<T>, x: T, b: seq<T>, c: seq<T>)
    ensures Permuted(a + [x] + b + c, a + b + [x] + c)
  {
  }

  lemma MoveBeforeAt<T>(list: seq<T>, i: nat, j: nat)
    requires j < i < |list|
    ensures |MoveBefore(list, i, j)| == |list|
    ensures forall k | 0 <= k < |list| ::
      MoveBefore(list, i, j)[k] == list[if k < j then k else if k == j then i else if k <= i then k - 1 else k]
  {
  }

  lemma MoveAfterAt<T>(list: seq<T>, i: nat, j: nat)
    requires i < j < |list|
    ensures |MoveAfter(list, i, j)| == |list|
    ensures forall k | 0 <= k < |list| ::
      MoveAfter(list, i, j)[k] == list[if k < i then k else if k < j then k + 1 else if k == j then i else k]
  {
  }

  lemma MovesPermute<T>(list: seq<T>, i: nat, j: nat)
    requires i < |list| && j < |list|
    ensures j < i ==> Permuted(MoveBefore(list, i, j), list)
    ensures i < j ==> Permuted(MoveAfter(list, i, j), list)
  {
    if j < i {
      ShiftPermutes(list[..j], list[i], list[j..i], list[i + 1..]);
      assert list == list[..j] + list[j..i] + [list[i]] + list[i + 1..];
    } else if i < j {
      ShiftPermutes(list[..i], list[i], list[i + 1..j + 1], list[j + 1..]);
      assert list == list[..i] + [list[i]] + list[i + 1..j + 1] + list[j + 1..];
    }
  }

  lemma PermutedFacts<T>(a: seq<T>, b: seq<T>)
    requires Permuted(a, b)
    ensures |a| == |b|
    ensures forall x :: x in a <==> x in b
  {
    assert |multiset(a)| == |a| && |multiset(b)| == |b|;
    assert forall x :: x in a <==> x in multiset(a);
    assert forall x :: x in b <==> x in multiset(b);
  }

  lemma {:induction false} RepairPermutes(order: Order, i: nat)
    requires i <= |order|
    ensures Permuted(RepairFrom(order, i), order)
    decreases |order| - i
  {
    hide LastBefore, FirstAfter, MoveBefore, MoveAfter, Permuted;
    PermutedReflexive(order);
    if i < |order| {
      var b, a := LastBefore(order, i, i), FirstAfter(order, i, i + 1);
      if b >= 0 {
        MovesPermute(order, i, b);
        assert RepairFrom(order, i) == MoveBefore(order, i, b);
      } else if a < |order| {
        MovesPermute(order, i, a);
        assert RepairFrom(order, i) == MoveAfter(order, i, a);
      } else {
        RepairPermutes(order, i + 1);
      }
    }
  }

  lemma PermutedReflexive<T>(a: seq<T>)
    ensures Permuted(a, a)
  {
  }

  lemma PermutedSymmetric<T>(a: seq<T>, b: seq<T>)
    requires Permuted(a, b)
    ensures Permuted(b, a)
  {
  }

  lemma PermutedTransitive<T>(a: seq<T>, b: seq<T>, c: seq<T>)
    requires Permuted(a, b) && Permuted(b, c)
    ensures Permuted(a, c)
  {
  }

  lemma {:induction false} IteratePermutes(order: Order, n: nat)
    ensures Permuted(Iterate(order, n), order)
  {
    hide RepairFrom;
    if n > 0 {
      var previous := Iterate(order, n - 1);
      IteratePermutes(order, n - 1);
      RepairPermutes(previous, 0);
      PermutedTransitive(RepairFrom(previous, 0), previous, order);
    }
  }

  lemma {:induction false} LastBeforeIsNearest(order: Order, i: nat, j: nat)
    requires j <= i < |order|
    ensures var k := LastBefore(order, i, j);
      && (k >= 0 ==> order[k].name in order[i].before)
      && forall m | 0 <= m < j && k < m :: order[m].name !in order[i].before
  {
    if j > 0 {
      LastBeforeIsNearest(order, i, j - 1);
    }
  }

  lemma {:induction false} FirstAfterIsNearest(order: Order, i: nat, j: nat)
    requires i < j <= |order|
    ensures var k := FirstAfter(order, i, j);
      && (k < |order| ==> order[k].name in order[i].after)
      && forall m | j <= m < k :: order[m].name !in order[i].after
    decreases |order| - j
  {
    if j < |order| {
      FirstAfterIsNearest(order, i, j + 1);
    }
  }

  lemma SatisfiedIffSettled(order: Order)
    ensures Satisfied(order) <==> forall i | 0 <= i < |order| :: Settled(order, i)
  {
    hide LastBefore, FirstAfter;
    forall i | 0 <= i < |order|
      ensures Settled(order, i)
         <==> && (forall m | 0 <= m < i :: order[m].name !in order[i].before)
              && (forall m | i < m < |order| :: order[m].name !in order[i].after)
    {
      LastBeforeIsNearest(order, i, i);
      FirstAfterIsNearest(order, i, i + 1);
    }
  }

  // ---- Registration and start-up

  class Module {
    const id: nat
    const name: string
    var before: set<string>
    var after: set<string>

    constructor (id: nat, name: string)
      ensures this.id == id && this.name == name && before == {} && after == {}
    {
      this.id, this.name, before, after := id, name, {}, {};
    }

    method Before(other: string)
      modifies this`before
      ensures before == old(before) + {other}
    {
      before := before + {other};
    }

    method After(other: string)
      modifies this`after
      ensures after == old(after) + {other}
    {
      after := after + {other};
    }

    function View(): Entry
      reads this
    {
      Entry(id, name, before, after)
    }
  }

  function Views(modules: seq<Module>): (order: Order)
    reads modules
    ensures |order| == |modules|
    ensures forall i | 0 <= i < |modules| :: order[i] == modules[i].View()
  {
    if modules == [] then [] else [modules[0].View()] + Views(modules[1..])
  }

  lemma ViewsOfMoves(modules: seq<Module>, i: nat, j: nat)
    requires i < |modules| && j < |modules|
    ensures j < i ==> Views(MoveBefore(modules, i, j)) == MoveBefore(Views(modules), i, j)
    ensures i < j ==> Views(MoveAfter(modules, i, j)) == MoveAfter(Views(modules), i, j)
  {
    hide MoveBefore, MoveAfter, Module.View, Views;
    if j < i {
      MoveBeforeAt(modules, i, j);
      MoveBeforeAt(Views(modules), i, j);
    } else if i < j {
      MoveAfterAt(modules, i, j);
      MoveAfterAt(Views(modules), i, j);
    }
  }

  /** Different list elements have different numbers, all given out already. */
  ghost predicate Numbered(modules: seq<Module>, registered: nat) {
    && (forall i | 0 <= i < |modules| :: modules[i].id < registered)
    && (forall i, j | 0 <= i < j < |modules| :: modules[i].id != modules[j].id)
  }

  lemma NumberedMoves(modules: seq<Module>, registered: nat, i: nat, j: nat)
    requires i < |modules| && j < |modules| && Numbered(modules, registered)
    ensures j < i ==> Numbered(MoveBefore(modules, i, j), registered)
    ensures i < j ==> Numbered(MoveAfter(modules, i, j), registered)
  {
    hide MoveBefore, MoveAfter;
    if j < i {
      MoveBeforeAt(modules, i, j);
    } else if i < j {
      MoveAfterAt(modules, i, j);
    }
  }

  datatype Outcome = Started | Panicked | Exited

  class Registry {
    var modules: seq<Module>
    var registered: nat

    ghost predicate Valid()
      reads this
    {
      Numbered(modules, registered)
    }

    function Listed(): (order: Order)
      reads this, modules
      ensures |order| == |modules|
    {
      Views(modules)
    }

    constructor ()
      ensures Valid() && modules == []
    {
      modules, registered := [], 0;
    }

    method New(name: string) returns (added: Module)
      requires Valid()
      modifies this
      ensures Valid() && fresh(added)
      ensures modules == old(modules) + [added]
      ensures added.View() == Entry(old(registered), name, {}, {})
      ensures Listed() == old(Listed()) + [added.View()]
    {
      added := new Module(registered, name);
      modules := modules + [added];
      registered := registered + 1;
    }

    /** Walks back from element `i` to the nearest earlier module it must come before. */
    method ScanBack(i: nat) returns (j: int)
      requires i < |modules|
      ensures j == LastBefore(Listed(), i, i)
    {
      ghost var order := Listed();
      j := i - 1;
      while j >= 0 && modules[j].name !in modules[i].before
        invariant -1 <= j < i
        invariant LastBefore(order, i, j + 1) == LastBefore(order, i, i)
      {
        j := j - 1;
      }
    }

    /** Walks on from element `i` to the nearest later module it must come after. */
    method ScanOn(i: nat) returns (j: nat)
      requires i < |modules|
      ensures j == FirstAfter(Listed(), i, i + 1)
    {
      ghost var order := Listed();
      j := i + 1;
      while j < |modules| && modules[j].name !in modules[i].after
        invariant i + 1 <= j <= |modules|
        invariant FirstAfter(order, i, j) == FirstAfter(order, i, i + 1)
      {
        j := j + 1;
      }
    }

    /** The first element that has to move, and the element it moves past; `i` is the length when there is none. */
    method FindMove() returns (i: nat, j: int)
      ensures i <= |modules| && RepairFrom(Listed(), i) == Repair(Listed())
      ensures i == |modules| <==> Satisfied(Listed())
      ensures i < |modules| ==>
        var b, a := LastBefore(Listed(), i, i), FirstAfter(Listed(), i, i + 1);
        j == (if b >= 0 then b else a) && 0 <= j < |modules|
    {
      hide Satisfied, LastBefore, FirstAfter, Views, MoveBefore, MoveAfter, Module.View, Permuted;
      ghost var order := Listed();
      SatisfiedIffSettled(order);
      i, j := 0, -1;
      while i < |modules|
        invariant i <= |modules|
        invariant RepairFrom(order, i) == Repair(order)
        invariant forall m | 0 <= m < i :: Settled(order, m)
      {
        j := ScanBack(i);
        if j < 0 {
          j := ScanOn(i);
        }
        if j < |modules| {
          assert !Settled(order, i);
          return;
        }
        assert Settled(order, i) && RepairFrom(order, i) == RepairFrom(order, i + 1);
        i := i + 1;
      }
    }

    /** One round of the repair loop; `moved` is false when the list was already in order. */
    method Round() returns (moved: bool)
      requires Valid()
      modifies this`modules
      ensures Valid()
      ensures Listed() == Repair(old(Listed()))
      ensures !moved <==> Satisfied(old(Listed()))
      ensures !moved ==> modules == old(modules)
      ensures Permuted(modules, old(modules))
    {
      hide Satisfied, LastBefore, FirstAfter, Views, MoveBefore, MoveAfter, Permuted, Numbered, Repair;
      PermutedReflexive(modules);
      var i, j := FindMove();
      moved := i < |modules|;
      if moved {
        MovesPermute(modules, i, j);
        ViewsOfMoves(modules, i, j);
        NumberedMoves(modules, registered, i, j);
        if j < i {
          modules := MoveBefore(modules, i, j);
        } else {
          modules := MoveAfter(modules, i, j);
        }
      }
    }

    /** At most a hundred rounds, then every handler in list order until one fails; `works` says which do not. */
    method Init(works: nat -> bool) returns (outcome: Outcome, ran: seq<nat>)
      requires Valid()
      modifies this`modules
      ensures Valid()
      ensures Permuted(modules, old(modules))
      ensures outcome.Exited? <==> forall n: nat | n < 100 :: !Satisfied(Iterate(old(Listed()), n))
      ensures outcome.Exited? ==> ran == [] && Listed() == Iterate(old(Listed()), 100)
      ensures !outcome.Exited? ==> Satisfied(Listed())
      ensures !outcome.Exited? ==> |ran| <= |modules| && forall i | 0 <= i < |ran| :: ran[i] == modules[i].id
      ensures outcome.Started? ==> |ran| == |modules| && forall id | id in ran :: works(id)
      ensures outcome.Panicked? ==>
        |ran| > 0 && !works(ran[|ran| - 1]) && forall id | id in ran[..|ran| - 1] :: works(id)
    {
      hide Satisfied, Views, Repair, Permuted, Numbered;
      PermutedReflexive(modules);
      ghost var start := Listed();
      var loaded := false;
      var count := 0;
      while count < 100 && !loaded
        invariant 0 <= count <= 100
        invariant Valid() && Permuted(modules, old(modules))
        invariant !loaded ==> Listed() == Iterate(start, count)
        invariant !loaded ==> forall n: nat | n < count :: !Satisfied(Iterate(start, n))
        invariant loaded ==> Satisfied(Listed()) && exists n: nat | n < 100 :: Satisfied(Iterate(start, n))
        decreases 100 - count, !loaded
      {
        label before:
        var moved := Round();
        PermutedTransitive(modules, old@before(modules), old(modules));
        if moved {
          count := count + 1;
        } else {
          loaded := true;
        }
      }
      ran := [];
      if !loaded {
        return Exited, ran;
      }
      var i := 0;
      while i < |modules|
        invariant i == |ran| <= |modules|
        invariant forall k | 0 <= k < i :: ran[k] == modules[k].id && works(ran[k])
      {
        ran := ran + [modules[i].id];
        if !works(modules[i].id) {
          return Panicked, ran;
        }
        i := i + 1;
      }
      return Started, ran;
    }
  }
}
