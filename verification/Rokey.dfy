/** Hourly signing keys shared by all nodes: rokey/utils.go, rokey/cache.go, and the session signatures of
    session/session.go made with them. */
module Rokey {
  import opened Wrappers
  import opened Text

  /** 0 is the zero object id, which no stored document has. */
  type KeyId = nat
  type NodeId = nat

  /** The key index (type, timeblock) is unique in the store. */
  type Block = (string, int)

  datatype Key = Key(id: KeyId, typ: string, timeblock: int, timestamp: int, secret: string)

  datatype Cache = Cache(byId: map<KeyId, Key>, byHour: map<string, Key>)

  /** A call of Get or GetId on its way: the time it read at the start, and the key it got from the store. */
  datatype Flight = Flight(node: NodeId, typ: string, timestamp: int, found: Option<Key>)

  datatype Answer = Answer(typ: string, timeblock: int, key: Key)

  /** The clock, the collection and its index on ids, the caches of the nodes, the calls on their way; and for the
      record every key ever inserted and every answer Get has given. */
  datatype State = State(
    now: int,
    next: KeyId,
    store: map<Block, Key>,
    ids: map<KeyId, Block>,
    caches: map<NodeId, Cache>,
    flights: seq<Flight>,
    issued: map<Block, Key>,
    answers: seq<Answer>)

  const HOUR: int := 3600
  const STORE_EXPIRE: int := 720 * HOUR
  const CACHE_EXPIRE: int := 721 * HOUR

  function Timeblock(now: int): int {
    now - now % HOUR
  }

  function TimeKey(typ: string, timeblock: int): string {
    typ + "-" + Decimal(timeblock)
  }

  function CacheOf(caches: map<NodeId, Cache>, n: NodeId): Cache {
    if n in caches then caches[n] else Cache(map[], map[])
  }

  function GetCache(c: Cache, typ: string, timeblock: int): Option<Key> {
    var k := TimeKey(typ, timeblock);
    if k in c.byHour && c.byHour[k].typ == typ then Some(c.byHour[k]) else None
  }

  function GetCacheId(c: Cache, typ: string, id: KeyId): Option<Key> {
    if id in c.byId && c.byId[id].typ == typ then Some(c.byId[id]) else None
  }

  // ---- Steps

  /** The critical sections of the nodes' calls, the store's own expiry and the passing of time. */
  datatype Step =
    | BeginGet(node: NodeId, typ: string)
    | Upsert(flight: nat, secret: string)  // find the block's key, or insert one with this secret
    | Fetch(node: NodeId, typ: string, id: KeyId)
    | CacheId(flight: nat)
    | CacheHour(flight: nat)
    | CleanIds(node: NodeId)
    | CleanHours(node: NodeId)
    | Expire(block: Block)  // the store's index on timestamps, free to run late
    | Tick(seconds: nat)

  function Begin(s: State, n: NodeId, typ: string): State {
    var cached := GetCache(CacheOf(s.caches, n), typ, Timeblock(s.now));
    if cached.Some? then s.(answers := s.answers + [Answer(typ, Timeblock(s.now), cached.value)])
    else s.(flights := s.flights + [Flight(n, typ, s.now, None)])
  }

  /** The atomic upsert of a block, with the time its caller read. */
  function Stored(s: State, typ: string, timestamp: int, secret: string): (State, Key) {
    var b := (typ, Timeblock(timestamp));
    if b in s.store then (s, s.store[b])
    else
      var k := Key(s.next, typ, b.1, timestamp, secret);
      (s.(next := s.next + 1, store := s.store[b := k], ids := s.ids[k.id := b], issued := s.issued[b := k]), k)
  }

  function Upserted(s: State, i: nat, secret: string): State {
    if i < |s.flights| && s.flights[i].found.None? then
      var f := s.flights[i];
      var (s1, k) := Stored(s, f.typ, f.timestamp, secret);
      s1.(flights := s.flights[i := f.(found := Some(k))],
          answers := s.answers + [Answer(f.typ, Timeblock(f.timestamp), k)])
    else s
  }

  /** GetId past its cache: a stored key of another type is fetched too, and cached. */
  function Fetched(s: State, n: NodeId, typ: string, id: KeyId): State {
    if GetCacheId(CacheOf(s.caches, n), typ, id).None? && id in s.ids && s.ids[id] in s.store then
      s.(flights := s.flights + [Flight(n, typ, s.now, Some(s.store[s.ids[id]]))])
    else s
  }

  function Next(s: State, step: Step): State {
    match step
    case BeginGet(n, typ) => Begin(s, n, typ)
    case Upsert(i, secret) => Upserted(s, i, secret)
    case Fetch(n, typ, id) => Fetched(s, n, typ, id)
    case CacheId(i) =>
      if i < |s.flights| && s.flights[i].found.Some? then
        var f := s.flights[i];
        s.(caches := s.caches[f.node := KeepId(CacheOf(s.caches, f.node), f.found.value)])
      else s
    case CacheHour(i) =>
      if i < |s.flights| && s.flights[i].found.Some? then
        var f := s.flights[i];
        s.(caches := s.caches[f.node := KeepHour(CacheOf(s.caches, f.node), f.found.value)])
      else s
    case CleanIds(n) => s.(caches := s.caches[n := DropIds(CacheOf(s.caches, n), s.now)])
    case CleanHours(n) => s.(caches := s.caches[n := DropHours(CacheOf(s.caches, n), s.now)])
    case Expire(b) =>
      if b in s.store && s.now - s.store[b].timestamp >= STORE_EXPIRE then
        s.(store := s.store - {b}, ids := s.ids - {s.store[b].id})
      else s
    case Tick(d) => s.(now := s.now + d)
  }

  function KeepId(c: Cache, k: Key): Cache {
    c.(byId := c.byId[k.id := k])
  }

  function KeepHour(c: Cache, k: Key): Cache {
    c.(byHour := c.byHour[TimeKey(k.typ, k.timeblock) := k])
  }

  function DropIds(c: Cache, now: int): Cache {
    c.(byId := map i | i in c.byId && now - c.byId[i].timestamp < CACHE_EXPIRE :: c.byId[i])
  }

  function DropHours(c: Cache, now: int): Cache {
    c.(byHour := map t | t in c.byHour && now - c.byHour[t].timestamp < CACHE_EXPIRE :: c.byHour[t])
  }

  function Run(s: State, steps: seq<Step>): State {
    if steps == [] then s else Next(Run(s, steps[..|steps| - 1]), steps[|steps| - 1])
  }

  predicate Initial(s: State) {
    && s.store == map[] && s.ids == map[] && s.caches == map[] && s.flights == [] && s.issued == map[]
    && s.answers == [] && s.next > 0
  }

  /** The step is not an upsert by a call that read its time more than `patience` seconds ago. */
  predicate Timely(s: State, step: Step, patience: int) {
    step.Upsert? && step.flight < |s.flights| ==> s.now - s.flights[step.flight].timestamp <= patience
  }

  predicate Prompt(s: State, steps: seq<Step>, patience: int) {
    steps == [] ||
    (Prompt(s, steps[..|steps| - 1], patience) &&
     Timely(Run(s, steps[..|steps| - 1]), steps[|steps| - 1], patience))
  }

  /** All answers for one type and hour are one key. */
  ghost predicate Agree(answers: seq<Answer>) {
    forall i, j | 0 <= i < |answers| && 0 <= j < |answers| ::
      answers[i].typ == answers[j].typ && answers[i].timeblock == answers[j].timeblock ==>
      answers[i].key == answers[j].key
  }

  // ---- Invariant

  predicate Issued(issued: map<Block, Key>, k: Key) {
    (k.typ, k.timeblock) in issued && issued[(k.typ, k.timeblock)] == k
  }

  ghost predicate KeysSound(issued: map<Block, Key>, now: int, next: KeyId) {
    && next > 0
    && (forall b | b in issued ::
         var k := issued[b];
         b == (k.typ, k.timeblock) && k.timeblock == Timeblock(k.timestamp) && k.timestamp <= now && 0 < k.id < next)
    && (forall b, d | b in issued && d in issued :: issued[b].id == issued[d].id ==> b == d)
  }

  ghost predicate StoreSound(issued: map<Block, Key>, store: map<Block, Key>, now: int) {
    && (forall b | b in store :: b in issued && store[b] == issued[b])
    && (forall b | b in issued :: b in store || now - issued[b].timestamp >= STORE_EXPIRE)
  }

  ghost predicate IndexSound(store: map<Block, Key>, ids: map<KeyId, Block>) {
    && (forall b | b in store :: store[b].id in ids && ids[store[b].id] == b)
    && (forall i | i in ids :: ids[i] in store && store[ids[i]].id == i)
  }

  ghost predicate CacheSound(issued: map<Block, Key>, c: Cache) {
    && (forall i | i in c.byId :: c.byId[i].id == i && Issued(issued, c.byId[i]))
    && (forall t | t in c.byHour :: t == TimeKey(c.byHour[t].typ, c.byHour[t].timeblock) && Issued(issued, c.byHour[t]))
  }

  ghost predicate CachesSound(issued: map<Block, Key>, caches: map<NodeId, Cache>) {
    forall n | n in caches :: CacheSound(issued, caches[n])
  }

  ghost predicate FlightsSound(issued: map<Block, Key>, flights: seq<Flight>, now: int) {
    forall i | 0 <= i < |flights| ::
      flights[i].timestamp <= now && (flights[i].found.Some? ==> Issued(issued, flights[i].found.value))
  }

  ghost predicate AnswersSound(issued: map<Block, Key>, answers: seq<Answer>) {
    forall i | 0 <= i < |answers| ::
      Issued(issued, answers[i].key) && answers[i].key.typ == answers[i].typ &&
      answers[i].key.timeblock == answers[i].timeblock
  }

  ghost predicate Invariant(s: State) {
    && KeysSound(s.issued, s.now, s.next) && StoreSound(s.issued, s.store, s.now) && IndexSound(s.store, s.ids)
    && CachesSound(s.issued, s.caches) && FlightsSound(s.issued, s.flights, s.now) && AnswersSound(s.issued, s.answers)
  }

  ghost predicate Grows(issued: map<Block, Key>, issued': map<Block, Key>) {
    forall b | b in issued :: b in issued' && issued'[b] == issued[b]
  }

  /** Equal cache keys of one type are of one hour, whatever characters the type has. */
  lemma TimeKeyInjective(typ: string, a: int, b: int)
    requires TimeKey(typ, a) == TimeKey(typ, b)
    ensures a == b
  {
    assert Decimal(a) == TimeKey(typ, a)[|typ| + 1..];
    assert Decimal(b) == TimeKey(typ, b)[|typ| + 1..];
    DecimalInjective(a, b);
  }

  /** What the hour cache answers is the hour's key. */
  lemma CachedIsIssued(issued: map<Block, Key>, c: Cache, typ: string, timeblock: int)
    requires CacheSound(issued, c) && GetCache(c, typ, timeblock).Some?
    ensures var k := GetCache(c, typ, timeblock).value;
      Issued(issued, k) && k.typ == typ && k.timeblock == timeblock
  {
    hide TimeKey;
    TimeKeyInjective(typ, timeblock, GetCache(c, typ, timeblock).value.timeblock);
  }

  lemma SoundGrows(s: State, issued': map<Block, Key>)
    requires Grows(s.issued, issued')
    ensures CachesSound(s.issued, s.caches) ==> CachesSound(issued', s.caches)
    ensures FlightsSound(s.issued, s.flights, s.now) ==> FlightsSound(issued', s.flights, s.now)
    ensures AnswersSound(s.issued, s.answers) ==> AnswersSound(issued', s.answers)
  {
    hide TimeKey;
  }

  /** Within 719 hours of reading the time, the key of that hour has not expired. */
  lemma HourNotOver(now: int, timestamp: int, made: int)
    requires timestamp <= now <= timestamp + 719 * HOUR && Timeblock(made) == Timeblock(timestamp)
    ensures now - made < STORE_EXPIRE
  {
  }

  /** A prompt upsert answers with the block's one key, old or new. */
  lemma StoredKeeps(s: State, typ: string, timestamp: int, secret: string)
    requires Invariant(s) && timestamp <= s.now <= timestamp + 719 * HOUR
    ensures var (s', k) := Stored(s, typ, timestamp, secret);
      && Invariant(s') && Grows(s.issued, s'.issued)
      && Issued(s'.issued, k) && k.typ == typ && k.timeblock == Timeblock(timestamp)
      && s'.caches == s.caches && s'.now == s.now && s'.answers == s.answers && s'.flights == s.flights
  {
    hide CachesSound, FlightsSound, AnswersSound;
    var b := (typ, Timeblock(timestamp));
    if b !in s.store {
      assert b !in s.issued by {
        if b in s.issued {
          HourNotOver(s.now, timestamp, s.issued[b].timestamp);
        }
      }
      hide Timeblock;
      SoundGrows(s, Stored(s, typ, timestamp, secret).0.issued);
      hide StoreSound, KeysSound, IndexSound;
      AddedSound(s, Key(s.next, typ, b.1, timestamp, secret));
    }
  }

  lemma AddedSound(s: State, k: Key)
    requires KeysSound(s.issued, s.now, s.next) && StoreSound(s.issued, s.store, s.now) && IndexSound(s.store, s.ids)
    requires (k.typ, k.timeblock) !in s.issued && k.id == s.next && k.timeblock == Timeblock(k.timestamp)
    requires k.timestamp <= s.now
    ensures var b := (k.typ, k.timeblock);
      && KeysSound(s.issued[b := k], s.now, s.next + 1) && StoreSound(s.issued[b := k], s.store[b := k], s.now)
      && IndexSound(s.store[b := k], s.ids[k.id := b])
  {
    hide Timeblock;
    assert s.next !in s.ids;
  }

  lemma UpsertKeeps(s: State, i: nat, secret: string)
    requires Invariant(s) && Timely(s, Upsert(i, secret), 719 * HOUR)
    ensures Invariant(Upserted(s, i, secret)) && Grows(s.issued, Upserted(s, i, secret).issued)
  {
    hide KeysSound, StoreSound, IndexSound, CachesSound, Stored, Timeblock;
    if i < |s.flights| && s.flights[i].found.None? {
      StoredKeeps(s, s.flights[i].typ, s.flights[i].timestamp, secret);
    }
  }

  lemma CachesKeep(s: State, n: NodeId, c: Cache)
    requires Invariant(s) && (CacheSound(s.issued, CacheOf(s.caches, n)) ==> CacheSound(s.issued, c))
    ensures Invariant(s.(caches := s.caches[n := c]))
  {
    hide KeysSound, StoreSound, IndexSound, FlightsSound, AnswersSound, TimeKey;
  }

  lemma KeepSound(issued: map<Block, Key>, c: Cache, k: Key)
    requires CacheSound(issued, c) && Issued(issued, k)
    ensures CacheSound(issued, KeepId(c, k)) && CacheSound(issued, KeepHour(c, k))
  {
    hide TimeKey;
  }

  lemma ExpireKeeps(s: State, b: Block)
    requires Invariant(s)
    ensures Invariant(Next(s, Expire(b)))
  {
    hide KeysSound, CachesSound, FlightsSound, AnswersSound;
  }

  lemma BeginKeeps(s: State, n: NodeId, typ: string)
    requires Invariant(s)
    ensures Invariant(Begin(s, n, typ)) && Begin(s, n, typ).issued == s.issued
  {
    hide KeysSound, StoreSound, IndexSound, CachesSound, TimeKey, Timeblock, GetCache;
    var c := CacheOf(s.caches, n);
    if GetCache(c, typ, Timeblock(s.now)).Some? {
      assert CacheSound(s.issued, c) by { CacheIsSound(s, n); }
      CachedIsIssued(s.issued, c, typ, Timeblock(s.now));
    }
  }

  lemma FetchKeeps(s: State, n: NodeId, typ: string, id: KeyId)
    requires Invariant(s)
    ensures Invariant(Fetched(s, n, typ, id)) && Fetched(s, n, typ, id).issued == s.issued
  {
    hide CachesSound, AnswersSound, TimeKey, Timeblock, GetCacheId, IndexSound;
    if Fetched(s, n, typ, id) != s {
      assert Issued(s.issued, s.store[s.ids[id]]);
    }
  }

  lemma CacheIsSound(s: State, n: NodeId)
    requires Invariant(s)
    ensures CacheSound(s.issued, CacheOf(s.caches, n))
  {
  }

  lemma CacheKeeps(s: State, i: nat)
    requires Invariant(s)
    ensures Invariant(Next(s, CacheId(i))) && Invariant(Next(s, CacheHour(i)))
  {
    hide KeysSound, StoreSound, IndexSound, CachesSound, CacheSound, AnswersSound, KeepId, KeepHour, Issued, CacheOf;
    if i < |s.flights| && s.flights[i].found.Some? {
      var f := s.flights[i];
      var c := CacheOf(s.caches, f.node);
      CacheIsSound(s, f.node);
      KeepSound(s.issued, c, f.found.value);
      CachesKeep(s, f.node, KeepId(c, f.found.value));
      CachesKeep(s, f.node, KeepHour(c, f.found.value));
    }
  }

  lemma CleanKeeps(s: State, n: NodeId)
    requires Invariant(s)
    ensures Invariant(Next(s, CleanIds(n))) && Invariant(Next(s, CleanHours(n)))
  {
    hide KeysSound, StoreSound, IndexSound, CachesSound, AnswersSound, FlightsSound, CacheOf, TimeKey, Issued;
    CacheIsSound(s, n);
    CachesKeep(s, n, DropIds(CacheOf(s.caches, n), s.now));
    CachesKeep(s, n, DropHours(CacheOf(s.caches, n), s.now));
  }

  lemma TickKeeps(s: State, d: nat)
    requires Invariant(s)
    ensures Invariant(s.(now := s.now + d))
  {
    hide IndexSound, CachesSound, AnswersSound, Issued, Timeblock;
  }

  /** Every step of every node keeps the invariant, and no issued key is ever replaced. */
  lemma NextKeeps(s: State, step: Step)
    requires Invariant(s) && Timely(s, step, 719 * HOUR)
    ensures Invariant(Next(s, step)) && Grows(s.issued, Next(s, step).issued)
  {
    hide Invariant, Timely, Begin, Upserted, Fetched, KeepId, KeepHour, DropIds, DropHours, CacheOf;
    match step {
      case BeginGet(n, typ) => BeginKeeps(s, n, typ);
      case Upsert(i, secret) => UpsertKeeps(s, i, secret);
      case Fetch(n, typ, id) => FetchKeeps(s, n, typ, id);
      case CacheId(i) => CacheKeeps(s, i);
      case CacheHour(i) => CacheKeeps(s, i);
      case CleanIds(n) => CleanKeeps(s, n);
      case CleanHours(n) => CleanKeeps(s, n);
      case Expire(b) => ExpireKeeps(s, b);
      case Tick(d) => TickKeeps(s, d);
    }
  }

  lemma {:induction false} RunKeeps(s: State, steps: seq<Step>)
    requires Invariant(s) && Prompt(s, steps, 719 * HOUR)
    ensures Invariant(Run(s, steps)) && Grows(s.issued, Run(s, steps).issued)
  {
    hide Next, Invariant, Timely;
    if steps != [] {
      var last := |steps| - 1;
      RunKeeps(s, steps[..last]);
      NextKeeps(Run(s, steps[..last]), steps[last]);
    }
  }

  // ---- One key per type and hour

  lemma {:induction false} PatienceGrows(s: State, steps: seq<Step>, patience: int, more: int)
    requires Prompt(s, steps, patience) && patience <= more
    ensures Prompt(s, steps, more)
  {
    if steps != [] {
      PatienceGrows(s, steps[..|steps| - 1], patience, more);
    }
  }

  /** In every interleaving on any number of nodes in which no call upserts more than 719 hours after it read the
      time, all answers of Get for one type and hour are the same key. */
  lemma AnswersAgree(s: State, steps: seq<Step>)
    requires Initial(s) && Prompt(s, steps, 719 * HOUR)
    ensures Agree(Run(s, steps).answers)
  {
    hide Run, Prompt;
    RunKeeps(s, steps);
  }

  function Begun(): State {
    State(0, 1, map[], map[], map[], [], map[], [])
  }

  /** One node makes the key in the first second of an hour, another begins in its last second. */
  function Straggler(): seq<Step> {
    [BeginGet(0, ""), Upsert(0, "a"), Tick(HOUR - 1), BeginGet(1, ""), Tick(719 * HOUR + 1), Expire(("", 0)),
     Upsert(1, "b")]
  }

  lemma RunMore(s: State, steps: seq<Step>, step: Step, patience: int)
    ensures Run(s, steps + [step]) == Next(Run(s, steps), step)
    ensures Prompt(s, steps + [step], patience) <==>
      Prompt(s, steps, patience) && Timely(Run(s, steps), step, patience)
  {
    hide Next, Timely;
    assert (steps + [step])[..|steps|] == steps;
  }

  function FirstKey(): Key {
    Key(1, "", 0, 0, "a")
  }

  /** The first node has its key, the second has read the time. */
  function Halfway(): State {
    State(HOUR - 1, 2, map[("", 0) := FirstKey()], map[1 := ("", 0)], map[],
          [Flight(0, "", 0, Some(FirstKey())), Flight(1, "", HOUR - 1, None)],
          map[("", 0) := FirstKey()], [Answer("", 0, FirstKey())])
  }

  lemma StragglerBegins()
    ensures var s2 := Next(Next(Begun(), BeginGet(0, "")), Upsert(0, "a"));
      Next(Next(s2, Tick(HOUR - 1)), BeginGet(1, "")) == Halfway()
  {
    hide Decimal, TimeKey;
  }

  lemma StragglerEnds()
    ensures var late := Next(Next(Halfway(), Tick(719 * HOUR + 1)), Expire(("", 0)));
      && Timely(late, Upsert(1, "b"), 719 * HOUR + 1)
      && Next(late, Upsert(1, "b")).answers == [Answer("", 0, FirstKey()), Answer("", 0, Key(2, "", 0, HOUR - 1, "b"))]
  {
    hide Decimal, TimeKey;
  }

  lemma StragglerSplits()
    ensures Prompt(Begun(), Straggler(), 719 * HOUR + 1) && !Agree(Run(Begun(), Straggler()).answers)
  {
    hide Run, Prompt, Next, Halfway, Begun;
    var w := Straggler();
    assert Run(Begun(), []) == Begun() && Prompt(Begun(), [], 719 * HOUR + 1) by { RunEmpty(); }
    assert [] + [w[0]] == w[..1] && w[..1] + [w[1]] == w[..2] && w[..2] + [w[2]] == w[..3] && w[..3] + [w[3]] == w[..4];
    assert w[..4] + [w[4]] == w[..5] && w[..5] + [w[5]] == w[..6] && w[..6] + [w[6]] == w;
    RunMore(Begun(), [], w[0], 719 * HOUR + 1);
    RunMore(Begun(), w[..1], w[1], 719 * HOUR + 1);
    RunMore(Begun(), w[..2], w[2], 719 * HOUR + 1);
    RunMore(Begun(), w[..3], w[3], 719 * HOUR + 1);
    RunMore(Begun(), w[..4], w[4], 719 * HOUR + 1);
    RunMore(Begun(), w[..5], w[5], 719 * HOUR + 1);
    RunMore(Begun(), w[..6], w[6], 719 * HOUR + 1);
    StragglerBegins();
    StragglerEnds();
    assert Timely(Next(Begun(), w[0]), w[1], 719 * HOUR + 1) by { StragglerOnTime(); }
    assert Run(Begun(), w).answers[0].key != Run(Begun(), w).answers[1].key;
  }

  lemma StragglerOnTime()
    ensures Timely(Next(Begun(), BeginGet(0, "")), Upsert(0, "a"), 719 * HOUR + 1)
  {
    hide Decimal, TimeKey;
  }

  lemma RunEmpty()
    ensures Run(Begun(), []) == Begun() && Prompt(Begun(), [], 719 * HOUR + 1)
  {
  }

  /** 719 hours is the longest patience that keeps one key for each type and hour in every run. */
  lemma AgreementIffPrompt(patience: int)
    ensures (forall s, steps | Initial(s) && Prompt(s, steps, patience) :: Agree(Run(s, steps).answers))
      <==> patience <= 719 * HOUR
  {
    if patience <= 719 * HOUR {
      forall s, steps | Initial(s) && Prompt(s, steps, patience)
        ensures Agree(Run(s, steps).answers)
      {
        hide Run, Prompt, Agree, Initial;
        PatienceGrows(s, steps, patience, 719 * HOUR);
        AnswersAgree(s, steps);
      }
    } else {
      hide Run, Prompt, Agree, Straggler;
      StragglerSplits();
      PatienceGrows(Begun(), Straggler(), 719 * HOUR + 1, patience);
      assert Initial(Begun());
    }
  }

  // ---- Whole calls

  /** The steps of one call of Get: the cache alone, or the store and both caches. */
  function GetSteps(s: State, n: NodeId, typ: string, secret: string): seq<Step> {
    if GetCache(CacheOf(s.caches, n), typ, Timeblock(s.now)).Some? then [BeginGet(n, typ)]
    else [BeginGet(n, typ), Upsert(|s.flights|, secret), CacheId(|s.flights|), CacheHour(|s.flights|)]
  }

  function GetIdSteps(s: State, n: NodeId, typ: string, id: KeyId): seq<Step> {
    if GetCacheId(CacheOf(s.caches, n), typ, id).None? && id in s.ids && s.ids[id] in s.store then
      [Fetch(n, typ, id), CacheId(|s.flights|), CacheHour(|s.flights|)]
    else []
  }

  /** The key a call of GetId finds. */
  function Lookup(s: State, n: NodeId, typ: string, id: KeyId): Option<Key> {
    var cached := GetCacheId(CacheOf(s.caches, n), typ, id);
    if cached.Some? then cached
    else if id in s.ids && s.ids[id] in s.store && s.store[s.ids[id]].typ == typ then Some(s.store[s.ids[id]])
    else None
  }

  lemma RunOne(s: State, a: Step)
    ensures Run(s, [a]) == Next(s, a)
    ensures Prompt(s, [a], 719 * HOUR) <==> Timely(s, a, 719 * HOUR)
  {
    hide Next, Timely;
    assert [a][..0] == [];
  }

  /** The steps of a call in order, from the state they start in. */
  lemma RunThree(s: State, a: Step, b: Step, c: Step)
    ensures Run(s, [a, b, c]) == Next(Next(Next(s, a), b), c)
    ensures Prompt(s, [a, b, c], 719 * HOUR) <==>
      Timely(s, a, 719 * HOUR) && Timely(Next(s, a), b, 719 * HOUR) && Timely(Next(Next(s, a), b), c, 719 * HOUR)
  {
    hide Next, Timely, Run, Prompt;
    RunOne(s, a);
    RunMore(s, [a], b, 719 * HOUR);
    RunMore(s, [a, b], c, 719 * HOUR);
    assert [a] + [b] == [a, b] && [a, b] + [c] == [a, b, c];
  }

  lemma RunFour(s: State, a: Step, b: Step, c: Step, d: Step)
    ensures Run(s, [a, b, c, d]) == Next(Next(Next(Next(s, a), b), c), d)
    ensures Prompt(s, [a, b, c, d], 719 * HOUR) <==>
      && Timely(s, a, 719 * HOUR) && Timely(Next(s, a), b, 719 * HOUR) && Timely(Next(Next(s, a), b), c, 719 * HOUR)
      && Timely(Next(Next(Next(s, a), b), c), d, 719 * HOUR)
  {
    hide Next, Timely, Run, Prompt;
    RunThree(s, a, b, c);
    RunMore(s, [a, b, c], d, 719 * HOUR);
    assert [a, b, c] + [d] == [a, b, c, d];
  }

  /** The two cache writes of a call together. */
  lemma KeptTwice(s: State, i: nat)
    requires i < |s.flights| && s.flights[i].found.Some?
    ensures var f := s.flights[i];
      Next(Next(s, CacheId(i)), CacheHour(i)) ==
      s.(caches := s.caches[f.node := KeepHour(KeepId(CacheOf(s.caches, f.node), f.found.value), f.found.value)])
  {
    hide KeepId, KeepHour;
    var f := s.flights[i];
    var c := KeepId(CacheOf(s.caches, f.node), f.found.value);
    var d := KeepHour(c, f.found.value);
    assert s.caches[f.node := c][f.node := d] == s.caches[f.node := d];
  }

  /** What a call of Get that misses the cache leaves behind. */
  lemma GetRuns(s: State, n: NodeId, typ: string, secret: string)
    requires GetCache(CacheOf(s.caches, n), typ, Timeblock(s.now)).None?
    ensures var (s1, k) := Stored(s, typ, s.now, secret);
      Run(s, GetSteps(s, n, typ, secret)) ==
      s1.(caches := s.caches[n := KeepHour(KeepId(CacheOf(s.caches, n), k), k)],
          flights := s.flights + [Flight(n, typ, s.now, Some(k))],
          answers := s.answers + [Answer(typ, Timeblock(s.now), k)])
  {
    hide Run, Prompt, KeepId, KeepHour, GetCache, CacheOf, Timeblock, TimeKey;
    var i := |s.flights|;
    RunFour(s, BeginGet(n, typ), Upsert(i, secret), CacheId(i), CacheHour(i));
    var k := Stored(s, typ, s.now, secret).1;
    assert (s.flights + [Flight(n, typ, s.now, None)])[i := Flight(n, typ, s.now, Some(k))] ==
      s.flights + [Flight(n, typ, s.now, Some(k))];
    KeptTwice(Next(Next(s, BeginGet(n, typ)), Upsert(i, secret)), i);
  }

  lemma GetIdRuns(s: State, n: NodeId, typ: string, id: KeyId)
    requires GetCacheId(CacheOf(s.caches, n), typ, id).None? && id in s.ids && s.ids[id] in s.store
    ensures var k := s.store[s.ids[id]];
      Run(s, GetIdSteps(s, n, typ, id)) ==
      s.(caches := s.caches[n := KeepHour(KeepId(CacheOf(s.caches, n), k), k)],
         flights := s.flights + [Flight(n, typ, s.now, Some(k))])
  {
    hide Run, Prompt, KeepId, KeepHour, GetCacheId, CacheOf, TimeKey;
    var i := |s.flights|;
    RunThree(s, Fetch(n, typ, id), CacheId(i), CacheHour(i));
    KeptTwice(Next(s, Fetch(n, typ, id)), i);
  }

  /** An uninterrupted call of Get ends in a sound state and its answer is the current hour's key. */
  lemma GetIsSound(s: State, n: NodeId, typ: string, secret: string)
    requires Invariant(s)
    ensures var s' := Run(s, GetSteps(s, n, typ, secret));
      && Invariant(s') && Grows(s.issued, s'.issued)
      && s'.answers != [] && s'.answers[|s'.answers| - 1].typ == typ
      && s'.answers[|s'.answers| - 1].timeblock == Timeblock(s.now)
      && Issued(s'.issued, s'.answers[|s'.answers| - 1].key) && s'.answers[|s'.answers| - 1].key.typ == typ
  {
    hide Run, Prompt, TimeKey, Timeblock, KeysSound, StoreSound, IndexSound, CachesSound, FlightsSound, KeepId,
      KeepHour, GetCache, Stored, Grows;
    var steps := GetSteps(s, n, typ, secret);
    if GetCache(CacheOf(s.caches, n), typ, Timeblock(s.now)).Some? {
      RunOne(s, steps[0]);
    } else {
      RunFour(s, steps[0], steps[1], steps[2], steps[3]);
    }
    RunKeeps(s, steps);
  }

  /** After such a call the node holds the hour's key under both of its cache keys, or had it in the hour cache before;
      and a key that was not stored yet is new, of this hour, and has the secret drawn for it. */
  lemma GetLeaves(s: State, n: NodeId, typ: string, secret: string)
    requires Invariant(s)
    ensures Run(s, GetSteps(s, n, typ, secret)).answers != []
    ensures var s', hour := Run(s, GetSteps(s, n, typ, secret)), Timeblock(s.now);
      var cached, k := GetCache(CacheOf(s.caches, n), typ, hour), s'.answers[|s'.answers| - 1].key;
      && GetCache(CacheOf(s'.caches, n), typ, hour) == Some(k)
      && (cached.Some? ==> k == cached.value && s'.store == s.store)
      && (cached.None? ==>
           && GetCacheId(CacheOf(s'.caches, n), typ, k.id) == Some(k)
           && (typ, hour) in s'.store && s'.store[(typ, hour)] == k)
      && (cached.None? && (typ, hour) in s.store ==> k == s.store[(typ, hour)] && s'.store == s.store)
      && (cached.None? && (typ, hour) !in s.store ==>
           k == Key(s.next, typ, hour, s.now, secret) && s'.store == s.store[(typ, hour) := k])
  {
    GetIsSound(s, n, typ, secret);
    var steps, hour := GetSteps(s, n, typ, secret), Timeblock(s.now);
    if GetCache(CacheOf(s.caches, n), typ, hour).Some? {
      RunOne(s, BeginGet(n, typ));
      assert Run(s, steps) == Begin(s, n, typ);
    } else {
      GetRuns(s, n, typ, secret);
      StoredIsFound(s, typ, secret);
      var (s1, k) := Stored(s, typ, s.now, secret);
      KeptIsFound(s1.caches, n, k);
    }
  }

  /** After a call of GetId that had to ask the store, the node holds what it found, of whatever type, under its id. */
  lemma GetIdLeaves(s: State, n: NodeId, typ: string, id: KeyId)
    requires Invariant(s)
    requires GetCacheId(CacheOf(s.caches, n), typ, id).None? && id in s.ids && s.ids[id] in s.store
    ensures var s', k := Run(s, GetIdSteps(s, n, typ, id)), s.store[s.ids[id]];
      k.id == id && GetCacheId(CacheOf(s'.caches, n), k.typ, id) == Some(k) && s'.store == s.store
  {
    GetIdRuns(s, n, typ, id);
    KeptIsFound(s.caches, n, s.store[s.ids[id]]);
    hide Run, KeysSound, StoreSound, CachesSound, FlightsSound, AnswersSound;
  }

  lemma StoredIsFound(s: State, typ: string, secret: string)
    requires Invariant(s)
    ensures var (s1, k) := Stored(s, typ, s.now, secret);
      && k.typ == typ && k.timeblock == Timeblock(s.now)
      && (typ, k.timeblock) in s1.store && s1.store[(typ, k.timeblock)] == k
  {
    hide Timeblock, CachesSound, FlightsSound, AnswersSound;
  }

  lemma KeptIsFound(caches: map<NodeId, Cache>, n: NodeId, k: Key)
    ensures var c := KeepHour(KeepId(CacheOf(caches, n), k), k);
      && CacheOf(caches[n := c], n) == c
      && GetCache(c, k.typ, k.timeblock) == Some(k) && GetCacheId(c, k.typ, k.id) == Some(k)
  {
    hide TimeKey;
  }

  class Cluster {
    const mac: Mac
    var now: int
    var next: KeyId
    var store: map<Block, Key>
    var ids: map<KeyId, Block>
    var caches: map<NodeId, Cache>
    ghost var flights: seq<Flight>
    ghost var issued: map<Block, Key>
    ghost var answers: seq<Answer>

    constructor (mac: Mac, now: int)
      ensures this.mac == mac && this.now == now && Initial(View())
    {
      this.mac, this.now, next := mac, now, 1;
      store, ids, caches, flights, issued, answers := map[], map[], map[], [], map[], [];
    }

    ghost function View(): State
      reads this
    {
      State(now, next, store, ids, caches, flights, issued, answers)
    }

    method PutCache(n: NodeId, k: Key)
      modifies this`caches
      ensures caches == old(caches)[n := KeepHour(KeepId(CacheOf(old(caches), n), k), k)]
    {
      var c := CacheOf(caches, n);
      c := c.(byId := c.byId[k.id := k]);
      c := c.(byHour := c.byHour[k.typ + "-" + Decimal(k.timeblock) := k]);
      caches := caches[n := c];
    }

    method Get(n: NodeId, typ: string, secret: string) returns (rkey: Key)
      modifies this
      ensures View() == Run(old(View()), GetSteps(old(View()), n, typ, secret))
      ensures answers != [] && answers[|answers| - 1].key == rkey
    {
      hide Run, TimeKey, Prompt, KeepId, KeepHour, CacheOf, GetCache;
      ghost var s := View();
      var timeblock := now - now % HOUR;
      var cached := GetCache(CacheOf(caches, n), typ, timeblock);
      if cached.Some? {
        answers := answers + [Answer(typ, timeblock, cached.value)];
        RunOne(s, BeginGet(n, typ));
        return cached.value;
      }
      GetRuns(s, n, typ, secret);
      if (typ, timeblock) in store {
        rkey := store[(typ, timeblock)];
      } else {
        rkey := Key(next, typ, timeblock, now, secret);
        next := next + 1;
        store := store[(typ, timeblock) := rkey];
        ids := ids[rkey.id := (typ, timeblock)];
        issued := issued[(typ, timeblock) := rkey];
      }
      PutCache(n, rkey);
      flights := flights + [Flight(n, typ, now, Some(rkey))];
      answers := answers + [Answer(typ, timeblock, rkey)];
    }

    method GetId(n: NodeId, typ: string, id: KeyId) returns (rkey: Option<Key>)
      modifies this`caches, this`flights
      ensures View() == Run(old(View()), GetIdSteps(old(View()), n, typ, id))
      ensures rkey == Lookup(old(View()), n, typ, id)
    {
      hide Run, TimeKey, Prompt, KeepId, KeepHour, CacheOf, GetCacheId;
      ghost var s := View();
      assert Run(s, []) == s by { RunNone(s); }
      rkey := GetCacheId(CacheOf(caches, n), typ, id);
      if rkey.Some? {
        return;
      }
      if id in ids && ids[id] in store {
        rkey := Some(store[ids[id]]);
      }
      if rkey.Some? {
        GetIdRuns(s, n, typ, id);
        flights := flights + [Flight(n, typ, now, rkey)];
        PutCache(n, rkey.value);
        if rkey.value.typ != typ {
          rkey := None;
        }
      }
    }

    method CleanCache(n: NodeId)
      modifies this`caches
      ensures View() == Next(Next(old(View()), CleanIds(n)), CleanHours(n))
      ensures var before, after := CacheOf(old(caches), n), CacheOf(caches, n);
        && (forall i :: i in after.byId <==> i in before.byId && now - before.byId[i].timestamp < 721 * HOUR)
        && (forall t :: t in after.byHour <==> t in before.byHour && now - before.byHour[t].timestamp < 721 * HOUR)
    {
      CleanCacheIds(n);
      CleanCacheHours(n);
    }

    method CleanCacheIds(n: NodeId)
      modifies this`caches
      ensures View() == Next(old(View()), CleanIds(n))
    {
      var byId := CacheOf(caches, n).byId;
      ghost var before := byId;
      var todo := byId.Keys;
      while todo != {}
        invariant todo <= before.Keys && byId.Keys <= before.Keys
        invariant forall i | i in byId :: byId[i] == before[i]
        invariant forall i | i in before :: i in byId <==> i in todo || now - before[i].timestamp < CACHE_EXPIRE
        decreases todo
      {
        var key :| key in todo;
        if now - byId[key].timestamp >= CACHE_EXPIRE {
          byId := byId - {key};
        }
        todo := todo - {key};
      }
      assert byId == DropIds(CacheOf(caches, n), now).byId;
      caches := caches[n := CacheOf(caches, n).(byId := byId)];
    }

    method CleanCacheHours(n: NodeId)
      modifies this`caches
      ensures View() == Next(old(View()), CleanHours(n))
    {
      var byHour := CacheOf(caches, n).byHour;
      ghost var before := byHour;
      var todo := byHour.Keys;
      while todo != {}
        invariant todo <= before.Keys && byHour.Keys <= before.Keys
        invariant forall t | t in byHour :: byHour[t] == before[t]
        invariant forall t | t in before :: t in byHour <==> t in todo || now - before[t].timestamp < CACHE_EXPIRE
        decreases todo
      {
        var key :| key in todo;
        if now - byHour[key].timestamp >= CACHE_EXPIRE {
          byHour := byHour - {key};
        }
        todo := todo - {key};
      }
      assert byHour == DropHours(CacheOf(caches, n), now).byHour;
      caches := caches[n := CacheOf(caches, n).(byHour := byHour)];
    }

    /** Signs a new session; `drawn` is the session's random secret. None stands for the empty-secret error. */
    method GenerateSignature(n: NodeId, typ: string, secret: string, drawn: string)
      returns (session: Session, sig: Option<string>)
      modifies this
      ensures View() == Run(old(View()), GetSteps(old(View()), n, typ, secret)) && answers != []
      ensures var k := answers[|answers| - 1].key;
        session == Session(typ, k.id, drawn) && sig == (if k.secret == "" then None else Some(mac(k.secret, drawn)))
    {
      hide Run, GetSteps;
      var rkey := Get(n, typ, secret);
      session := Session(typ, rkey.id, drawn);
      if rkey.secret == "" {
        return session, None;
      }
      sig := Some(mac(rkey.secret, drawn));
    }

    /** Checks a signature on any node; `failed` is the empty-secret error. */
    method CheckSignature(n: NodeId, session: Session, inSig: string) returns (valid: bool, failed: bool)
      modifies this`caches, this`flights
      ensures valid == Accepts(mac, old(View()), n, session, inSig)
      ensures failed <==>
        && session.rokey != 0 && session.secret != ""
        && var found := Lookup(old(View()), n, session.typ, session.rokey); found.Some? && found.value.secret == ""
    {
      hide Run, GetIdSteps, Lookup;
      if session.rokey == 0 || session.secret == "" {
        return false, false;
      }
      var rkey := GetId(n, session.typ, session.rokey);
      if rkey.None? {
        return false, false;
      }
      if rkey.value.secret == "" {
        return false, true;
      }
      var outSig := mac(rkey.value.secret, session.secret);
      return inSig == outSig, false;
    }
  }

  lemma RunNone(s: State)
    ensures Run(s, []) == s
  {
  }

  // ---- Session signatures

  /** HMAC-SHA512 in base64, of which only that it is a function matters here. */
  type Mac = (string, string) -> string

  datatype Session = Session(typ: string, rokey: KeyId, secret: string)

  predicate Accepts(mac: Mac, s: State, n: NodeId, session: Session, inSig: string) {
    var found := Lookup(s, n, session.typ, session.rokey);
    && session.rokey != 0 && session.secret != ""
    && found.Some? && found.value.secret != "" && inSig == mac(found.value.secret, session.secret)
  }

  /** The key is in the node's cache or in the store. */
  predicate Available(s: State, n: NodeId, k: Key) {
    (k.id in CacheOf(s.caches, n).byId && CacheOf(s.caches, n).byId[k.id] == k) || (k.typ, k.timeblock) in s.store
  }

  /** GetId finds an issued key exactly while it is available, and never another one. */
  lemma LookupFinds(s: State, n: NodeId, k: Key)
    requires Invariant(s) && Issued(s.issued, k)
    ensures Lookup(s, n, k.typ, k.id) == if Available(s, n, k) then Some(k) else None
  {
    hide FlightsSound, AnswersSound, TimeKey, Timeblock;
    var c := CacheOf(s.caches, n);
    assert CacheSound(s.issued, c);
    if k.id in c.byId {
      assert Issued(s.issued, c.byId[k.id]);
    }
    if k.id in s.ids {
      assert s.store[s.ids[k.id]].id == k.id;
    }
  }

  /** What GetId finds for a type and an id is the issued key of that type and id, exactly while it is available. */
  lemma LookupIff(s: State, n: NodeId, typ: string, id: KeyId, k: Key)
    requires Invariant(s)
    ensures Lookup(s, n, typ, id) == Some(k) <==>
      Issued(s.issued, k) && k.typ == typ && k.id == id && Available(s, n, k)
  {
    hide FlightsSound, AnswersSound, TimeKey, Timeblock;
    var c := CacheOf(s.caches, n);
    assert CacheSound(s.issued, c);
    if Lookup(s, n, typ, id) == Some(k) {
      assert Issued(s.issued, k) && k.id == id;
    } else if Issued(s.issued, k) && k.typ == typ && k.id == id {
      assert (k.typ, k.timeblock) in s.issued && s.issued[(k.typ, k.timeblock)] == k;
      LookupFinds(s, n, k);
    }
  }

  /** A session signed with any answer that Get has given in any run, its call interleaved with whatever steps of other
      nodes, is accepted on every node `m` after any further steps, with its own signature and no other, exactly while
      the key is in m's cache or in the store; and the store keeps it for 720 hours. */
  lemma SignatureChecksEverywhere(mac: Mac, s: State, before: seq<Step>, i: nat, drawn: string, steps: seq<Step>,
                                  m: NodeId, inSig: string)
    requires Invariant(s) && drawn != "" && Prompt(s, before, 719 * HOUR)
    requires var signed := Run(s, before); i < |signed.answers| && Prompt(signed, steps, 719 * HOUR)
    ensures var signed := Run(s, before);
      var a, later := signed.answers[i], Run(signed, steps);
      && (Accepts(mac, later, m, Session(a.typ, a.key.id, drawn), inSig) <==>
          a.key.secret != "" && Available(later, m, a.key) && inSig == mac(a.key.secret, drawn))
      && (later.now - a.key.timestamp < STORE_EXPIRE ==> Available(later, m, a.key))
  {
    hide Run, Prompt, Lookup, CachesSound, FlightsSound, IndexSound, Timeblock;
    var signed := Run(s, before);
    RunKeeps(s, before);
    RunKeeps(signed, steps);
    LookupFinds(Run(signed, steps), m, signed.answers[i].key);
  }

  lemma InitialInvariant(s: State)
    requires Initial(s)
    ensures Invariant(s)
  {
  }
}
