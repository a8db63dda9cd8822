/** Bulk requests and retries: BulkDocuments of search/document.go. */
module Bulk {
  import opened Sequences

  const RETRY_COUNT: nat := 5
  const BUFFER_SIZE: nat := 2048

  /** How one of the three rounds of a call goes. The first two end the call while it is writing the request: the
      index of a document cannot be added, or the document cannot be marshalled. */
  datatype Round = IndexFails(at: nat) | MarshalFails(at: nat) | RequestFails | Status(code: int)

  /** What a call leaves: the attempts of its documents, which of them each request held, and whether it gave up. */
  datatype Call = Call(attempts: seq<nat>, requests: seq<seq<nat>>, gaveUp: bool)

  function Bump(a: nat): nat {
    if a >= RETRY_COUNT then a else a + 1
  }

  /** The first `n` documents have been written into the request, those out of attempts passed over. */
  function Bumped(attempts: seq<nat>, n: nat): (r: seq<nat>)
    requires n <= |attempts|
    ensures |r| == |attempts|
    ensures forall i | 0 <= i < |r| :: r[i] == if i < n then Bump(attempts[i]) else attempts[i]
  {
    seq(|attempts|, i requires 0 <= i < |attempts| => if i < n then Bump(attempts[i]) else attempts[i])
  }

  /** Positions, below `n`, of the documents with attempts left. */
  function Included(attempts: seq<nat>, n: nat): seq<nat>
    requires n <= |attempts|
  {
    if n == 0 then []
    else Included(attempts, n - 1) + (if attempts[n - 1] < RETRY_COUNT then [n - 1] else [])
  }

  /** How far the writing of the request gets: the documents written, and whether it was cut short. */
  function Written(attempts: seq<nat>, round: Round): (nat, bool) {
    match round
    case IndexFails(at) => if at < |attempts| then (at, true) else (|attempts|, false)
    case MarshalFails(at) =>
      if at < |attempts| && attempts[at] < RETRY_COUNT then (at + 1, true) else (|attempts|, false)
    case _ => (|attempts|, false)
  }

  /** The call from round `i` on. */
  function Rounds(attempts: seq<nat>, env: seq<Round>, i: nat): (c: Call)
    requires i <= |env|
    ensures |c.attempts| == |attempts|
    decreases |env| - i
  {
    if i == |env| then Call(attempts, [], true)
    else
      var (n, cut) := Written(attempts, env[i]);
      if cut then Call(Bumped(attempts, n), [], false)
      else
        var included, bumped := Included(attempts, n), Bumped(attempts, n);
        if env[i] == Status(200) then Call(bumped, [included], false)
        else
          var rest := Rounds(bumped, env, i + 1);
          Call(rest.attempts, [included] + rest.requests, rest.gaveUp)
  }

  /** The documents handed to the failed buffer; `lengths` holds the buffer's length, which other workers change as
      well, as it is read for each document. */
  function Requeued(attempts: seq<nat>, noRetry: seq<bool>, lengths: seq<nat>, n: nat): seq<nat>
    requires n <= |attempts| == |noRetry| == |lengths|
  {
    if n == 0 then []
    else
      var before := Requeued(attempts, noRetry, lengths, n - 1);
      if attempts[n - 1] < RETRY_COUNT && !noRetry[n - 1] && lengths[n - 1] <= BUFFER_SIZE then before + [n - 1]
      else before
  }

  // ---- The method

  class Document {
    const noRetry: bool
    var attempts: nat

    constructor (noRetry: bool)
      ensures this.noRetry == noRetry && attempts == 0
    {
      this.noRetry, attempts := noRetry, 0;
    }
  }

  ghost predicate Distinct(docs: seq<Document>) {
    forall i, j | 0 <= i < j < |docs| :: docs[i] != docs[j]
  }

  function Attempts(docs: seq<Document>): (r: seq<nat>)
    reads docs
    ensures |r| == |docs| && forall i | 0 <= i < |docs| :: r[i] == docs[i].attempts
  {
    seq(|docs|, i requires 0 <= i < |docs| reads docs => docs[i].attempts)
  }

  function NoRetries(docs: seq<Document>): (r: seq<bool>)
    ensures |r| == |docs| && forall i | 0 <= i < |docs| :: r[i] == docs[i].noRetry
  {
    seq(|docs|, i requires 0 <= i < |docs| => docs[i].noRetry)
  }

  /** Writing one request: every document with attempts left is counted and included. */
  method WriteRequest(docs: seq<Document>, round: Round) returns (included: seq<nat>, cut: bool)
    requires Distinct(docs)
    modifies docs
    ensures var (n, c) := Written(old(Attempts(docs)), round);
      && cut == c && Attempts(docs) == Bumped(old(Attempts(docs)), n)
      && (!cut ==> included == Included(old(Attempts(docs)), |docs|))
  {
    hide Bumped, Included, Attempts;
    ghost var before := Attempts(docs);
    included, cut := [], false;
    WriteNothing(before);
    var i := 0;
    while i < |docs|
      invariant 0 <= i <= |docs|
      invariant forall k | 0 <= k < |docs| :: docs[k].attempts == if k < i then Bump(before[k]) else before[k]
      invariant included == Included(before, i)
      invariant round.IndexFails? && round.at < |docs| ==> i <= round.at
      invariant round.MarshalFails? && round.at < |docs| && before[round.at] < RETRY_COUNT ==> i <= round.at
    {
      WriteOne(before, i);
      if round.IndexFails? && round.at == i {
        assert Attempts(docs) == Bumped(before, i);
        return included, true;
      }
      if docs[i].attempts < RETRY_COUNT {
        docs[i].attempts := docs[i].attempts + 1;
        if round.MarshalFails? && round.at == i {
          assert Attempts(docs) == Bumped(before, i + 1);
          return included, true;
        }
        included := included + [i];
      }
      i := i + 1;
    }
    assert Attempts(docs) == Bumped(before, |docs|);
  }

  lemma WriteNothing(attempts: seq<nat>)
    ensures Bumped(attempts, 0) == attempts && Included(attempts, 0) == []
  {
  }

  lemma WriteOne(attempts: seq<nat>, i: nat)
    requires i < |attempts|
    ensures Included(attempts, i + 1) == Included(attempts, i) + (if attempts[i] < RETRY_COUNT then [i] else [])
  {
  }

  lemma RoundsAt(attempts: seq<nat>, env: seq<Round>, i: nat)
    requires i < |env|
    ensures var (n, cut) := Written(attempts, env[i]);
      if cut then Rounds(attempts, env, i) == Call(Bumped(attempts, n), [], false)
      else
        var rest := Rounds(Bumped(attempts, n), env, i + 1);
        && n == |attempts|
        && Rounds(attempts, env, i) ==
             if env[i] == Status(200) then Call(Bumped(attempts, n), [Included(attempts, n)], false)
             else Call(rest.attempts, [Included(attempts, n)] + rest.requests, rest.gaveUp)
  {
  }

  /** Three rounds at most, until a request is accepted. */
  method SendRounds(docs: seq<Document>, env: seq<Round>) returns (requests: seq<seq<nat>>, gaveUp: bool)
    requires Distinct(docs)
    modifies docs
    ensures Rounds(old(Attempts(docs)), env, 0) == Call(Attempts(docs), requests, gaveUp)
  {
    hide Rounds, Bumped, Included, Written, Distinct, Attempts;
    ghost var whole := Rounds(Attempts(docs), env, 0);
    requests := [];
    var i := 0;
    assert forall c: Call :: c == Call(c.attempts, [] + c.requests, c.gaveUp);
    while i < |env|
      invariant 0 <= i <= |env|
      invariant var rest := Rounds(Attempts(docs), env, i);
        whole == Call(rest.attempts, requests + rest.requests, rest.gaveUp)
    {
      RoundsAt(Attempts(docs), env, i);
      var included, cut := WriteRequest(docs, env[i]);
      if cut {
        assert requests + [] == requests;
        return requests, false;
      }
      if env[i] == Status(200) {
        return requests + [included], false;
      }
      ghost var rest := Rounds(Attempts(docs), env, i + 1);
      assert requests + ([included] + rest.requests) == (requests + [included]) + rest.requests;
      requests := requests + [included];
      i := i + 1;
    }
    RoundsEnd(Attempts(docs), env);
    assert requests + [] == requests;
    return requests, true;
  }

  lemma RoundsEnd(attempts: seq<nat>, env: seq<Round>)
    ensures Rounds(attempts, env, |env|) == Call(attempts, [], true)
  {
  }

  method BulkDocuments(docs: seq<Document>, env: seq<Round>, lengths: seq<nat>)
    returns (requests: seq<seq<nat>>, requeued: seq<nat>)
    requires Distinct(docs) && |env| == 3 && |lengths| == |docs|
    modifies docs
    ensures var c := Rounds(old(Attempts(docs)), env, 0);
      && Attempts(docs) == c.attempts && requests == c.requests
      && requeued == (if c.gaveUp then Requeued(c.attempts, NoRetries(docs), lengths, |docs|) else [])
  {
    hide Rounds, Requeued, Distinct, Attempts, NoRetries;
    var gaveUp;
    requests, gaveUp := SendRounds(docs, env);
    requeued := [];
    if gaveUp {
      ghost var attempts, noRetry := Attempts(docs), NoRetries(docs);
      NoneRequeued(attempts, noRetry, lengths);
      var k := 0;
      while k < |docs|
        invariant 0 <= k <= |docs|
        invariant requeued == Requeued(attempts, noRetry, lengths, k)
        invariant Attempts(docs) == attempts
      {
        RequeueOne(attempts, noRetry, lengths, k);
        if docs[k].attempts < RETRY_COUNT && !docs[k].noRetry {
          if lengths[k] <= BUFFER_SIZE {
            requeued := requeued + [k];
          }
        }
        k := k + 1;
      }
    }
  }

  lemma NoneRequeued(attempts: seq<nat>, noRetry: seq<bool>, lengths: seq<nat>)
    requires |attempts| == |noRetry| == |lengths|
    ensures Requeued(attempts, noRetry, lengths, 0) == []
  {
  }

  lemma RequeueOne(attempts: seq<nat>, noRetry: seq<bool>, lengths: seq<nat>, k: nat)
    requires k < |attempts| == |noRetry| == |lengths|
    ensures var before := Requeued(attempts, noRetry, lengths, k);
      Requeued(attempts, noRetry, lengths, k + 1) ==
      if attempts[k] < RETRY_COUNT && !noRetry[k] && lengths[k] <= BUFFER_SIZE then before + [k] else before
  {
  }

  // ---- What a call means for one document

  function Requests(requests: seq<seq<nat>>, i: nat): nat {
    if requests == [] then 0 else (if i in requests[0] then 1 else 0) + Requests(requests[1..], i)
  }

  lemma {:induction false} IncludedIff(attempts: seq<nat>, n: nat, i: nat)
    requires n <= |attempts|
    ensures i in Included(attempts, n) <==> i < n && attempts[i] < RETRY_COUNT
  {
    if n > 0 {
      IncludedIff(attempts, n - 1, i);
    }
  }

  /** Each request a document is part of takes one of its five attempts, and a call that gives up has taken as many as
      its rounds allow. */
  lemma {:induction false} CallCounts(attempts: seq<nat>, env: seq<Round>, k: nat, i: nat)
    requires i < |attempts| && attempts[i] <= RETRY_COUNT && k <= |env|
    ensures var c, left := Rounds(attempts, env, k), |env| - k;
      && c.attempts[i] <= RETRY_COUNT
      && attempts[i] + Requests(c.requests, i) <= c.attempts[i]
      && (c.gaveUp ==> c.attempts[i] == if attempts[i] + left <= RETRY_COUNT then attempts[i] + left else RETRY_COUNT)
    decreases |env| - k
  {
    if k < |env| {
      var (n, cut) := Written(attempts, env[k]);
      if !cut {
        var included, bumped := Included(attempts, n), Bumped(attempts, n);
        IncludedIff(attempts, n, i);
        if env[k] != Status(200) {
          CallCounts(bumped, env, k + 1, i);
          var rest := Rounds(bumped, env, k + 1);
          assert ([included] + rest.requests)[0] == included && ([included] + rest.requests)[1..] == rest.requests;
        }
      }
    }
  }

  /** After `k` rounds without success, this round ends the call: by success, or by failing to write its request. */
  predicate Ends(attempts: seq<nat>, round: Round, k: nat) {
    match round
    case Status(code) => code == 200
    case RequestFails => false
    case IndexFails(at) => at < |attempts|
    case MarshalFails(at) => at < |attempts| && attempts[at] + k < RETRY_COUNT
  }

  /** The round that ends the call has counted document `i` before it did so. */
  predicate Counts(round: Round, i: nat) {
    match round
    case Status(_) => true
    case RequestFails => true
    case IndexFails(at) => i < at
    case MarshalFails(at) => i <= at
  }

  function Capped(n: nat): nat {
    if n < RETRY_COUNT then n else RETRY_COUNT
  }

  /** The request holds those with attempts left after `k` rounds. */
  ghost predicate HoldsExactly(request: seq<nat>, attempts: seq<nat>, k: nat) {
    forall d: nat :: d in request <==> d < |attempts| && attempts[d] + k < RETRY_COUNT
  }

  lemma AllIncluded(attempts: seq<nat>)
    ensures HoldsExactly(Included(attempts, |attempts|), attempts, 0)
  {
    forall d: nat
      ensures d in Included(attempts, |attempts|) <==> d < |attempts| && attempts[d] < RETRY_COUNT
    {
      IncludedIff(attempts, |attempts|, d);
    }
  }

  /** What a call does from round `i` on when round `e` is the first to end it, or none does and `e` is their number: it
      gives up exactly if none does; each request holds those with attempts left at its round, and only a request that
      could be written is made; and every round made counts one attempt, up to five. */
  ghost predicate Table(c: Call, attempts: seq<nat>, env: seq<Round>, i: nat, e: nat)
    requires i <= e <= |env| && |c.attempts| == |attempts|
  {
    && (c.gaveUp <==> e == |env|)
    && |c.requests| == e - i + (if e < |env| && env[e] == Status(200) then 1 else 0)
    && (forall j | 0 <= j < |c.requests| :: HoldsExactly(c.requests[j], attempts, j))
    && (forall d | 0 <= d < |attempts| ::
         c.attempts[d] == Capped(attempts[d] + (e - i) + (if e < |env| && Counts(env[e], d) then 1 else 0)))
  }

  lemma {:induction false} CallTable(attempts: seq<nat>, env: seq<Round>, i: nat, e: nat)
    requires i <= e <= |env| && (forall d | 0 <= d < |attempts| :: attempts[d] <= RETRY_COUNT)
    requires forall j | i <= j < e :: !Ends(attempts, env[j], j - i)
    requires e < |env| ==> Ends(attempts, env[e], e - i)
    ensures Table(Rounds(attempts, env, i), attempts, env, i, e)
    decreases e - i
  {
    hide Rounds, Included;
    if i == |env| {
      RoundsEnd(attempts, env);
    } else {
      RoundsAt(attempts, env, i);
      AllIncluded(attempts);
      if e > i {
        hide Table, Included;
        assert !Ends(attempts, env[i], 0);
        EndsLater(attempts, env, i, e);
        var bumped := Bumped(attempts, |attempts|);
        CallTable(bumped, env, i + 1, e);
        TableStep(Rounds(bumped, env, i + 1), Included(attempts, |attempts|), attempts, bumped, env, i, e);
      }
    }
  }

  /** One more round in front that does not end the call. */
  lemma TableStep(rest: Call, included: seq<nat>, attempts: seq<nat>, bumped: seq<nat>, env: seq<Round>, i: nat, e: nat)
    requires i < e <= |env| && |rest.attempts| == |attempts| == |bumped|
    requires forall d | 0 <= d < |attempts| :: attempts[d] <= RETRY_COUNT && bumped[d] == Bump(attempts[d])
    requires HoldsExactly(included, attempts, 0) && Table(rest, bumped, env, i + 1, e)
    ensures Table(Call(rest.attempts, [included] + rest.requests, rest.gaveUp), attempts, env, i, e)
  {
    forall k | 0 <= k < |rest.requests|
      ensures HoldsExactly(rest.requests[k], attempts, k + 1)
    {
      assert HoldsExactly(rest.requests[k], bumped, k);
    }
    hide HoldsExactly;
    var requests := [included] + rest.requests;
    assert forall j | 0 < j < |requests| :: requests[j] == rest.requests[j - 1];
  }

  /** A round ends the call as it would one round later with all attempts counted. */
  lemma EndsLater(attempts: seq<nat>, env: seq<Round>, i: nat, e: nat)
    requires i < e <= |env| && (forall d | 0 <= d < |attempts| :: attempts[d] <= RETRY_COUNT)
    ensures forall j | i < j < |env| ::
      Ends(Bumped(attempts, |attempts|), env[j], j - i - 1) <==> Ends(attempts, env[j], j - i)
  {
  }

  /** A document is requeued exactly when it has attempts left, wants retries, and the buffer has room at its turn. */
  lemma {:induction false} RequeuedIff(attempts: seq<nat>, noRetry: seq<bool>, lengths: seq<nat>, n: nat, i: nat)
    requires n <= |attempts| == |noRetry| == |lengths|
    ensures i in Requeued(attempts, noRetry, lengths, n) <==>
      i < n && attempts[i] < RETRY_COUNT && !noRetry[i] && lengths[i] <= BUFFER_SIZE
  {
    if n > 0 {
      RequeuedIff(attempts, noRetry, lengths, n - 1, i);
    }
  }

  // ---- The life of a document across calls

  /** How far a document has come: attempts used, calls it was part of, requests that held it, whether it waits. */
  datatype Life = Life(attempts: nat, calls: nat, requests: nat, waiting: bool)

  type DocumentId = nat

  /** Both pipelines together: a new document waits for its first call, a requeued one for its next. */
  datatype Event =
    | Indexed(id: DocumentId)
    | Called(group: seq<DocumentId>, noRetry: seq<bool>, env: seq<Round>, lengths: seq<nat>)

  ghost predicate Fits(lives: map<DocumentId, Life>, e: Event) {
    match e
    case Indexed(id) => id !in lives
    case Called(group, noRetry, env, lengths) =>
      && |env| == 3 && |noRetry| == |group| == |lengths|
      && (forall i, j | 0 <= i < j < |group| :: group[i] != group[j])
      && (forall i | 0 <= i < |group| :: group[i] in lives && lives[group[i]].waiting)
  }

  function AttemptsOf(lives: map<DocumentId, Life>, group: seq<DocumentId>): (r: seq<nat>)
    requires forall i | 0 <= i < |group| :: group[i] in lives
    ensures |r| == |group| && forall i | 0 <= i < |group| :: r[i] == lives[group[i]].attempts
  {
    seq(|group|, i requires 0 <= i < |group| => lives[group[i]].attempts)
  }

  ghost function Step(lives: map<DocumentId, Life>, e: Event): map<DocumentId, Life>
    requires Fits(lives, e)
  {
    match e
    case Indexed(id) => lives[id := Life(0, 0, 0, true)]
    case Called(group, noRetry, env, lengths) =>
      var c := Rounds(AttemptsOf(lives, group), env, 0);
      var requeued := if c.gaveUp then Requeued(c.attempts, noRetry, lengths, |group|) else [];
      map id | id in lives ::
        if id in group then
          var l, i := lives[id], Place(group, id);
          Life(c.attempts[i], l.calls + 1, l.requests + Requests(c.requests, i), i in requeued)
        else lives[id]
  }

  ghost predicate Possible(events: seq<Event>)
    decreases |events|, 0
  {
    events == [] ||
    (Possible(events[..|events| - 1]) && Fits(After(events[..|events| - 1]), events[|events| - 1]))
  }

  ghost function After(events: seq<Event>): map<DocumentId, Life>
    requires Possible(events)
    decreases |events|, 1
  {
    if events == [] then map[] else Step(After(events[..|events| - 1]), events[|events| - 1])
  }

  ghost predicate Bounded(l: Life) {
    && l.requests <= l.attempts <= RETRY_COUNT
    && l.calls <= 2
    && (l.calls == 0 ==> l.attempts == 0)
    && (l.waiting ==> l.calls < 2 && l.attempts == 3 * l.calls)
  }

  lemma StepBounds(lives: map<DocumentId, Life>, e: Event)
    requires Fits(lives, e) && forall id | id in lives :: Bounded(lives[id])
    ensures forall id | id in Step(lives, e) :: Bounded(Step(lives, e)[id])
  {
    if e.Called? {
      var attempts := AttemptsOf(lives, e.group);
      var c := Rounds(attempts, e.env, 0);
      forall id | id in lives && id in e.group
        ensures Bounded(Step(lives, e)[id])
      {
        var i := Place(e.group, id);
        assert lives[id].waiting && Bounded(lives[id]);
        CallCounts(attempts, e.env, 0, i);
        if c.gaveUp && i in Requeued(c.attempts, e.noRetry, e.lengths, |e.group|) {
          RequeuedIff(c.attempts, e.noRetry, e.lengths, |e.group|, i);
        }
      }
    }
  }

  /** Over its whole life, however requests fail, a document is in at most two calls and five requests; so the failed
      buffer passes it on at most once. */
  lemma {:induction false} EveryLifeBounded(events: seq<Event>)
    requires Possible(events)
    ensures forall id | id in After(events) :: Bounded(After(events)[id])
  {
    if events != [] {
      EveryLifeBounded(events[..|events| - 1]);
      StepBounds(After(events[..|events| - 1]), events[|events| - 1]);
    }
  }
}
