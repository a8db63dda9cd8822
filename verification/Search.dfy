/** Batching of documents for the search index: the workers of search/search.go. */
module Search {

  const GROUP_LIMIT: nat := 100
  const FAILED_GROUP_LIMIT: nat := 10
  const THREAD_LIMIT: nat := 10

  /** What became of documents a group worker took: a group handed to BulkDocuments, or a batch thrown away. */
  datatype Handled<T> = Sent(group: seq<T>) | Dropped(batch: seq<seq<T>>, client: bool)

  /** One of the two pipelines: the shared list of groups, the batch its group worker holds, and, for the record,
      what the worker has done and what the buffer worker has read. */
  datatype State<T> = State(groups: seq<seq<T>>, batch: seq<seq<T>>, handled: seq<Handled<T>>, arrived: seq<T>)

  function Flat<T>(groups: seq<seq<T>>): seq<T> {
    if groups == [] then [] else groups[0] + Flat(groups[1..])
  }

  function FlatHandled<T>(handled: seq<Handled<T>>): seq<T> {
    if handled == [] then []
    else
      var last := handled[|handled| - 1];
      FlatHandled(handled[..|handled| - 1]) +
      (match last case Sent(group) => group case Dropped(batch, _) => Flat(batch))
  }

  // ---- The critical sections

  /** Appending one entry under the lock. */
  function Append<T>(groups: seq<seq<T>>, limit: nat, entry: T): seq<seq<T>>
    requires groups != []
  {
    var n := |groups| - 1;
    if |groups[n]| >= limit then groups + [[entry]] else groups[..n] + [groups[n] + [entry]]
  }

  datatype Step<T> = Read(entry: T) | Swap(client: bool) | Dispatch

  /** One atomic step of either worker. A swap is possible when the group worker has no batch in hand. */
  function Next<T>(s: State<T>, limit: nat, step: Step<T>): State<T>
    requires s.groups != []
  {
    match step
    case Read(entry) => s.(groups := Append(s.groups, limit, entry), arrived := s.arrived + [entry])
    case Swap(client) =>
      if s.batch != [] then s
      else if !client || s.groups[0] == [] then s.(groups := [[]], handled := s.handled + [Dropped(s.groups, client)])
      else s.(groups := [[]], batch := s.groups)
    case Dispatch =>
      if s.batch == [] then s
      else if s.batch[0] == [] then s.(batch := s.batch[1..])
      else s.(batch := s.batch[1..], handled := s.handled + [Sent(s.batch[0])])
  }

  function Run<T>(s: State<T>, limit: nat, steps: seq<Step<T>>): (r: State<T>)
    requires s.groups != []
    ensures r.groups != []
  {
    if steps == [] then s
    else Next(Run(s, limit, steps[..|steps| - 1]), limit, steps[|steps| - 1])
  }

  // ---- The invariant

  /** All groups are exactly full, except for the last, which holds at most as many. */
  ghost predicate Packed<T>(groups: seq<seq<T>>, limit: nat) {
    forall i | 0 <= i < |groups| :: |groups[i]| <= limit && (i < |groups| - 1 ==> |groups[i]| == limit)
  }

  ghost predicate Invariant<T>(s: State<T>, limit: nat) {
    && s.groups != [] && Packed(s.groups, limit) && (|s.groups| > 1 ==> s.groups[|s.groups| - 1] != [])
    && Packed(s.batch, limit) && (forall i | 0 <= i < |s.batch| :: s.batch[i] != [])
    && (forall i | 0 <= i < |s.handled| ::
         match s.handled[i]
         case Sent(group) => 0 < |group| <= limit
         case Dropped(batch, client) => client ==> Flat(batch) == [])
    && s.arrived == FlatHandled(s.handled) + Flat(s.batch) + Flat(s.groups)
  }

  lemma {:induction false} FlatAppend<T>(a: seq<seq<T>>, b: seq<seq<T>>)
    ensures Flat(a + b) == Flat(a) + Flat(b)
  {
    if a == [] {
      assert a + b == b;
    } else {
      FlatAppend(a[1..], b);
      assert (a + b)[0] == a[0] && (a + b)[1..] == a[1..] + b;
    }
  }

  lemma FlatOne<T>(group: seq<T>)
    ensures Flat([group]) == group
  {
    assert [group][1..] == [];
  }

  lemma FlatHandledMore<T>(handled: seq<Handled<T>>, h: Handled<T>)
    ensures FlatHandled(handled + [h]) ==
      FlatHandled(handled) + (match h case Sent(group) => group case Dropped(batch, _) => Flat(batch))
  {
    assert (handled + [h])[..|handled|] == handled;
  }

  /** An append adds the entry at the very end and keeps the groups packed. */
  lemma AppendPacks<T>(groups: seq<seq<T>>, limit: nat, entry: T)
    requires groups != [] && limit > 0 && Packed(groups, limit)
    ensures var more := Append(groups, limit, entry);
      more != [] && Packed(more, limit) && more[|more| - 1] != [] && Flat(more) == Flat(groups) + [entry]
  {
    hide Flat;
    var n := |groups| - 1;
    if |groups[n]| >= limit {
      FlatAppend(groups, [[entry]]);
      FlatOne([entry]);
    } else {
      FlatAppend(groups[..n], [groups[n] + [entry]]);
      FlatAppend(groups[..n], [groups[n]]);
      FlatOne(groups[n] + [entry]);
      FlatOne(groups[n]);
      assert groups == groups[..n] + [groups[n]];
    }
  }

  /** A packed list whose front group is empty holds nothing. */
  lemma EmptyFront<T>(groups: seq<seq<T>>, limit: nat)
    requires groups != [] && limit > 0 && Packed(groups, limit) && groups[0] == []
    ensures Flat(groups) == []
  {
    assert |groups| == 1;
    FlatOne(groups[0]);
    assert groups == [groups[0]];
  }

  lemma ReadKeeps<T>(s: State<T>, limit: nat, entry: T)
    requires limit > 0 && Invariant(s, limit)
    ensures Invariant(Next(s, limit, Read(entry)), limit)
  {
    hide Append, Flat, FlatHandled, Packed;
    AppendPacks(s.groups, limit, entry);
    assert s.arrived + [entry] == FlatHandled(s.handled) + Flat(s.batch) + (Flat(s.groups) + [entry]);
  }

  lemma SwapKeeps<T>(s: State<T>, limit: nat, client: bool)
    requires limit > 0 && Invariant(s, limit)
    ensures Invariant(Next(s, limit, Swap(client)), limit)
  {
    hide Flat, FlatHandled, Packed, Append;
    if s.batch == [] {
      if !client || s.groups[0] == [] {
        DropKeeps(s, limit, client);
      } else {
        TakeKeeps(s, limit);
      }
    }
  }

  /** The batch is thrown away. */
  lemma DropKeeps<T>(s: State<T>, limit: nat, client: bool)
    requires limit > 0 && Invariant(s, limit) && s.batch == [] && (!client || s.groups[0] == [])
    ensures Invariant(s.(groups := [[]], handled := s.handled + [Dropped(s.groups, client)]), limit)
  {
    hide Flat, FlatHandled;
    if client {
      EmptyFront(s.groups, limit);
    }
    EmptyFlat<T>();
    FlatHandledMore(s.handled, Dropped(s.groups, client));
    assert s.arrived == FlatHandled(s.handled + [Dropped(s.groups, client)]) + [] + [];
  }

  /** The batch is taken; no group in it is empty. */
  lemma TakeKeeps<T>(s: State<T>, limit: nat)
    requires limit > 0 && Invariant(s, limit) && s.batch == [] && s.groups[0] != []
    ensures Invariant(s.(groups := [[]], batch := s.groups), limit)
  {
    hide Flat, FlatHandled;
    EmptyFlat<T>();
    assert s.arrived == FlatHandled(s.handled) + Flat(s.groups) + [];
  }

  lemma EmptyFlat<T>()
    ensures Flat<T>([]) == [] && Flat<T>([[]]) == []
  {
    FlatOne<T>([]);
  }

  lemma DispatchKeeps<T>(s: State<T>, limit: nat)
    requires limit > 0 && Invariant(s, limit)
    ensures Invariant(Next(s, limit, Dispatch), limit)
  {
    if s.batch != [] {
      var s' := Next(s, limit, Dispatch);
      FlatHandledMore(s.handled, Sent(s.batch[0]));
      assert Flat(s.batch) == s.batch[0] + Flat(s.batch[1..]);
      hide Flat, FlatHandled;
      assert forall i | 0 <= i < |s'.batch| :: s'.batch[i] == s.batch[i + 1];
      assert s.arrived == (FlatHandled(s.handled) + s.batch[0]) + Flat(s.batch[1..]) + Flat(s.groups);
    }
  }

  function Initial<T>(): State<T> {
    State([[]], [], [], [])
  }

  /** In every interleaving, what was read from the buffer is, in order and once each: what was handled, then the batch
      in hand, then the waiting groups; only the last group is not full. */
  lemma {:induction false} EveryDocumentInOnePlace<T>(limit: nat, steps: seq<Step<T>>)
    requires limit > 0
    ensures Invariant(Run(Initial<T>(), limit, steps), limit)
  {
    if steps == [] {
      FlatOne<T>([]);
    } else {
      var last := |steps| - 1;
      var s := Run(Initial<T>(), limit, steps[..last]);
      EveryDocumentInOnePlace(limit, steps[..last]);
      hide Invariant, Next;
      match steps[last]
      case Read(entry) => ReadKeeps(s, limit, entry);
      case Swap(client) => SwapKeeps(s, limit, client);
      case Dispatch => DispatchKeeps(s, limit);
    }
  }

  /** At the limits of the two pipelines: no request of the first is made for more than a hundred documents, and none of
      the second for more than ten. */
  lemma RequestsFitTheLimits<T>(steps: seq<Step<T>>, failed: seq<Step<T>>, i: nat)
    ensures var sent := Run(Initial<T>(), GROUP_LIMIT, steps).handled;
      i < |sent| && sent[i].Sent? ==> 0 < |sent[i].group| <= 100
    ensures var resent := Run(Initial<T>(), FAILED_GROUP_LIMIT, failed).handled;
      i < |resent| && resent[i].Sent? ==> 0 < |resent[i].group| <= 10
  {
    hide Run;
    EveryDocumentInOnePlace(GROUP_LIMIT, steps);
    EveryDocumentInOnePlace(FAILED_GROUP_LIMIT, failed);
  }

  ghost predicate ClientSet<T>(steps: seq<Step<T>>) {
    forall i | 0 <= i < |steps| :: steps[i].Swap? ==> steps[i].client
  }

  function SentGroups<T>(handled: seq<Handled<T>>): seq<seq<T>> {
    if handled == [] then []
    else
      var last := handled[|handled| - 1];
      SentGroups(handled[..|handled| - 1]) + (if last.Sent? then [last.group] else [])
  }

  lemma {:induction false} NothingDropped<T>(handled: seq<Handled<T>>)
    requires forall i | 0 <= i < |handled| :: handled[i].Dropped? ==> Flat(handled[i].batch) == []
    ensures FlatHandled(handled) == Flat(SentGroups(handled))
  {
    if handled != [] {
      var n := |handled| - 1;
      NothingDropped(handled[..n]);
      if handled[n].Sent? {
        FlatAppend(SentGroups(handled[..n]), [handled[n].group]);
        FlatOne(handled[n].group);
      } else {
        assert SentGroups(handled) == SentGroups(handled[..n]);
      }
    }
  }

  lemma {:induction false} ClientStaysSet<T>(limit: nat, steps: seq<Step<T>>)
    requires ClientSet(steps)
    ensures forall i | 0 <= i < |Run(Initial<T>(), limit, steps).handled| ::
      var h := Run(Initial<T>(), limit, steps).handled[i]; h.Dropped? ==> h.client
  {
    if steps != [] {
      ClientStaysSet(limit, steps[..|steps| - 1]);
    }
  }

  /** While a client is set nothing is thrown away: every document read has been sent once, or still waits. */
  lemma NothingLostWithClient<T>(limit: nat, steps: seq<Step<T>>)
    requires limit > 0 && ClientSet(steps)
    ensures var s := Run(Initial<T>(), limit, steps);
      s.arrived == Flat(SentGroups(s.handled)) + Flat(s.batch) + Flat(s.groups)
  {
    hide Run;
    EveryDocumentInOnePlace(limit, steps);
    ClientStaysSet(limit, steps);
    var s := Run(Initial<T>(), limit, steps);
    NothingDropped(s.handled);
  }

  /** And while none is set nothing is sent. */
  lemma {:induction false} NothingSentWithoutClient<T>(limit: nat, steps: seq<Step<T>>)
    requires forall i | 0 <= i < |steps| :: steps[i].Swap? ==> !steps[i].client
    ensures Run(Initial<T>(), limit, steps).batch == []
    ensures forall i | 0 <= i < |Run(Initial<T>(), limit, steps).handled| ::
      Run(Initial<T>(), limit, steps).handled[i].Dropped?
  {
    hide Append;
    if steps != [] {
      NothingSentWithoutClient(limit, steps[..|steps| - 1]);
    }
  }

  // ---- The workers

  class Pipeline<T> {
    const limit: nat
    var groups: seq<seq<T>>
    var batch: seq<seq<T>>
    ghost var handled: seq<Handled<T>>
    ghost var arrived: seq<T>

    constructor (limit: nat)
      ensures this.limit == limit && View() == Initial<T>()
    {
      this.limit := limit;
      groups, batch, handled, arrived := [[]], [], [], [];
    }

    ghost function View(): State<T>
      reads this
    {
      State(groups, batch, handled, arrived)
    }

    /** One turn of workerBuffer (or workerFailedBuffer): the critical section for an entry it received. */
    method Buffer(entry: T)
      requires groups != []
      modifies this
      ensures View() == Next(old(View()), limit, Read(entry))
    {
      var group := groups[|groups| - 1];
      if |group| >= limit {
        group := [];
        groups := groups + [group];
      }
      groups := groups[..|groups| - 1] + [group + [entry]];
      arrived := arrived + [entry];
      ghost var before := old(groups);
      assert (before + [[]])[..|before|] == before;
      assert [] + [entry] == [entry];
    }

    /** The start of a turn of workerGroup (or workerFailedGroup): the swap, and the look at client and front group. */
    method TakeGroups(client: bool) returns (pause: bool)
      requires groups != [] && batch == []
      modifies this
      ensures View() == Next(old(View()), limit, Swap(client))
      ensures pause <==> !client || old(groups)[0] == []
      ensures groups == [[]] && batch == if pause then [] else old(groups)
    {
      var curGrps := groups;
      groups := [[]];
      if !client || |curGrps[0]| == 0 {
        handled := handled + [Dropped(curGrps, client)];
        return true;
      }
      batch := curGrps;
      return false;
    }

    /** Taking the front group of the batch; `started` when a thread is started for it. */
    method DispatchFront() returns (started: bool, group: seq<T>)
      requires groups != [] && batch != []
      modifies this
      ensures View() == Next(old(View()), limit, Dispatch)
      ensures started <==> old(batch)[0] != []
      ensures group == old(batch)[0]
    {
      group := batch[0];
      batch := batch[1..];
      started := |group| != 0;
      if started {
        handled := handled + [Sent(group)];
      }
    }

    /** One wave: groups from the front, each in its own thread, until the list is empty or the limit is reached. */
    method StartWave() returns (wave: seq<seq<T>>)
      requires groups != [] && batch != []
      modifies this
      ensures groups == old(groups) && arrived == old(arrived) && |batch| < |old(batch)|
      ensures wave + NonEmpty(batch) == NonEmpty(old(batch))
      ensures |wave| <= THREAD_LIMIT && (batch != [] ==> |wave| == THREAD_LIMIT)
    {
      hide NonEmpty;
      wave := [];
      assert [] + NonEmpty(batch) == NonEmpty(batch);
      while batch != [] && |wave| < THREAD_LIMIT
        invariant groups == old(groups) && groups != [] && arrived == old(arrived)
        invariant |wave| <= THREAD_LIMIT && |batch| <= |old(batch)| && (|batch| == |old(batch)| ==> wave == [])
        invariant wave + NonEmpty(batch) == NonEmpty(old(batch))
        decreases |batch|
      {
        ghost var rest := batch;
        NonEmptyFront(rest);
        var started, group := DispatchFront();
        if started {
          assert wave + ([group] + NonEmpty(batch)) == (wave + [group]) + NonEmpty(batch);
          wave := wave + [group];
        }
      }
    }

    /** The rest of the turn when no other worker runs in between: waves of threads, each waited for. */
    method DrainBatch() returns (waves: seq<seq<seq<T>>>)
      requires groups != [] && batch != [] && batch[0] != []
      modifies this
      ensures batch == [] && groups == old(groups) && arrived == old(arrived)
      ensures Flat(waves) == NonEmpty(old(batch))
      ensures forall i | 0 <= i < |waves| - 1 :: |waves[i]| == THREAD_LIMIT
      ensures forall i | 0 <= i < |waves| :: |waves[i]| <= THREAD_LIMIT
    {
      hide NonEmpty, Flat;
      waves := [];
      NothingLeft(batch);
      while batch != []
        invariant groups == old(groups) && groups != [] && arrived == old(arrived)
        invariant Flat(waves) + NonEmpty(batch) == NonEmpty(old(batch))
        invariant forall i | 0 <= i < |waves| :: |waves[i]| <= THREAD_LIMIT
        invariant batch != [] ==> forall i | 0 <= i < |waves| :: |waves[i]| == THREAD_LIMIT
        invariant forall i | 0 <= i < |waves| - 1 :: |waves[i]| == THREAD_LIMIT
        decreases |batch|
      {
        ghost var before := batch;
        var wave := StartWave();
        FlatAppend(waves, [wave]);
        FlatOne(wave);
        assert Flat(waves) + (wave + NonEmpty(batch)) == (Flat(waves) + wave) + NonEmpty(batch);
        waves := waves + [wave];
      }
      NothingLeft(batch);
    }
  }

  lemma NonEmptyFront<T>(groups: seq<seq<T>>)
    requires groups != []
    ensures groups[0] != [] ==> NonEmpty(groups) == [groups[0]] + NonEmpty(groups[1..])
    ensures groups[0] == [] ==> NonEmpty(groups) == NonEmpty(groups[1..])
  {
  }

  lemma NothingLeft<T>(groups: seq<seq<T>>)
    ensures Flat<seq<T>>([]) == []
    ensures groups == [] ==> NonEmpty(groups) == []
  {
  }

  function NonEmpty<T(==)>(groups: seq<seq<T>>): seq<seq<T>> {
    if groups == [] then []
    else (if groups[0] != [] then [groups[0]] else []) + NonEmpty(groups[1..])
  }
}
