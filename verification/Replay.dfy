/** The replay window of signed requests: signature/signature.go, signature/utils.go, nonce/nonce.go, and SinceAbs of
    utils/misc.go. Durations and the clock are in nanoseconds, request timestamps in seconds. */
module Replay {
  import opened Wrappers
  import opened Text

  const NANO: int := 1_000_000_000
  const TWO63: int := 0x8000_0000_0000_0000
  const TWO64: int := 0x1_0000_0000_0000_0000

  /** Seconds from the first of January of year 1 to the Unix epoch, added in 64 bits by time.Unix. */
  const UNIX_TO_INTERNAL: int := 62_135_596_800

  /** Age at which the store's index may remove a nonce. */
  const LIFETIME: int := 24 * 3600 * NANO

  function Wrap(x: int): int {
    var r := x % TWO64;
    if r >= TWO63 then r - TWO64 else r
  }

  function Saturate(x: int): int {
    if x < -TWO63 then -TWO63 else if x >= TWO63 then TWO63 - 1 else x
  }

  /** The instant that a 64-bit Unix timestamp stands for. */
  function Instant(timestamp: int): int {
    (Wrap(timestamp + UNIX_TO_INTERNAL) - UNIX_TO_INTERNAL) * NANO
  }

  /** time.Since saturates; the negation is a 64-bit product. */
  function SinceAbs(now: int, instant: int): int {
    var s := Saturate(now - instant);
    if s < 0 then Wrap(s * -1) else s
  }

  function Limit(window: int): int {
    Wrap(window * NANO)
  }

  predicate InWindow(window: int, now: int, instant: int) {
    SinceAbs(now, instant) <= Limit(window)
  }

  lemma WrapIsEven(k: int)
    ensures Wrap(2 * k) % 2 == 0
  {
    var q, r := 2 * k / TWO64, 2 * k % TWO64;
    assert r == 2 * (k - TWO63 * q);
  }

  lemma LimitIsEven(window: int)
    ensures Limit(window) % 2 == 0 && -TWO63 <= Limit(window) < TWO63
  {
    assert window * NANO == 2 * (window * 500_000_000);
    WrapIsEven(window * 500_000_000);
  }

  /** The magnitude, except that 2^63 nanoseconds or more ahead it is the negative -2^63. */
  lemma SinceAbsMeans(now: int, instant: int)
    ensures instant - now >= TWO63 ==> SinceAbs(now, instant) == -TWO63
    ensures 0 <= instant - now < TWO63 ==> SinceAbs(now, instant) == instant - now
    ensures 0 <= now - instant ==> SinceAbs(now, instant) == if now - instant < TWO63 then now - instant else TWO63 - 1
  {
  }

  /** What the window check lets pass: instants within the limit, and instants 2^63 nanoseconds or more ahead. */
  lemma WindowMeans(window: int, now: int, instant: int)
    ensures InWindow(window, now, instant) <==>
      (instant - Limit(window) <= now <= instant + Limit(window)) || instant - now >= TWO63
  {
    hide SinceAbs, Limit;
    LimitIsEven(window);
    SinceAbsMeans(now, instant);
  }

  /** The instant is the timestamp's own, and the limit the window's, exactly while 64 bits hold them. */
  lemma InstantMeans(timestamp: int, window: int)
    ensures Instant(timestamp) == timestamp * NANO <==> -TWO63 <= timestamp + UNIX_TO_INTERNAL < TWO63
    ensures Limit(window) == window * NANO <==> -TWO63 <= window * NANO < TWO63
  {
    WrapMeans(timestamp + UNIX_TO_INTERNAL);
    WrapMeans(window * NANO);
    hide Wrap;
  }

  lemma WrapMeans(x: int)
    ensures Wrap(x) == x <==> -TWO63 <= x < TWO63
  {
  }

  // ---- The protocol

  datatype User = User(api: bool, token: string, secret: string)

  datatype Request = Request(token: string, nonce: string, timestamp: int, signature: string, method_: string,
                             path: string)

  /** The window setting, the users by token, and the keyed hash of a text under a secret. */
  datatype Config = Config(window: int, users: map<string, User>, mac: (string, string) -> string)

  /** The text that is signed. */
  function Message(u: User, r: Request): string {
    u.token + "&" + (Decimal(r.timestamp) + "&" + (r.nonce + "&" + (r.method_ + "&" + r.path)))
  }

  lemma FirstField(a: string, x: string, b: string, y: string)
    requires '&' !in a && '&' !in b && a + "&" + x == b + "&" + y
    ensures a == b && x == y
  {
    var s, t := a + "&" + x, b + "&" + y;
    assert s[..|a|] == a && t[..|b|] == b && s[|a| + 1..] == x && t[|b| + 1..] == y;
    FindFirst(s, '&', |a|);
    FindFirst(t, '&', |b|);
  }

  lemma DecimalPlain(n: int)
    ensures '&' !in Decimal(n)
  {
  }

  /** A signed text fixes all that is signed: user, timestamp, nonce, method and path, as long as the fields before the
      path do not hold the separator. */
  lemma MessageInjective(u: User, r: Request, v: User, q: Request)
    requires '&' !in u.token + r.nonce + r.method_ && '&' !in v.token + q.nonce + q.method_
    requires Message(u, r) == Message(v, q)
    ensures u.token == v.token && r.timestamp == q.timestamp && r.nonce == q.nonce
    ensures r.method_ == q.method_ && r.path == q.path
  {
    var rest, rest' := r.nonce + "&" + (r.method_ + "&" + r.path), q.nonce + "&" + (q.method_ + "&" + q.path);
    FirstField(u.token, Decimal(r.timestamp) + "&" + rest, v.token, Decimal(q.timestamp) + "&" + rest');
    DecimalPlain(r.timestamp);
    DecimalPlain(q.timestamp);
    FirstField(Decimal(r.timestamp), rest, Decimal(q.timestamp), rest');
    DecimalInjective(r.timestamp, q.timestamp);
    FirstField(r.nonce, r.method_ + "&" + r.path, q.nonce, q.method_ + "&" + q.path);
    FirstField(r.method_, r.path, q.method_, q.path);
  }

  datatype Error = BadToken | BadNonce | OutsideWindow | UserNotFound | DuplicateNonce | BadSignature

  /** A request that passed every check before the nonce, at the given time. */
  datatype Flight = Flight(request: Request, checked: int, pending: bool)

  datatype Acceptance = Acceptance(request: Request, checked: int, inserted: int)

  datatype State = State(now: int, nonces: map<string, int>, flights: seq<Flight>, accepted: seq<Acceptance>)

  function UserOf(config: Config, token: string): Option<User> {
    if token in config.users then
      var u := config.users[token];
      if u.api && u.token != "" && u.secret != "" then Some(u) else None
    else None
  }

  /** The checks made before the nonce is inserted, in their order. */
  function Check(config: Config, now: int, r: Request): Option<Error> {
    if r.token == "" then Some(BadToken)
    else if |r.nonce| < 16 || |r.nonce| > 128 then Some(BadNonce)
    else if !InWindow(config.window, now, Instant(r.timestamp)) then Some(OutsideWindow)
    else if UserOf(config, r.token).None? then Some(UserNotFound)
    else None
  }

  /** The token is that of an API user with token and secret. */
  predicate Known(users: map<string, User>, token: string) {
    token in users && users[token].api && users[token].token != "" && users[token].secret != ""
  }

  /** The request has its parts, and its timestamp is in the window. */
  predicate InTime(config: Config, now: int, r: Request) {
    r.token != "" && 16 <= |r.nonce| <= 128 && InWindow(config.window, now, Instant(r.timestamp))
  }

  predicate Signed(config: Config, r: Request) {
    var u := UserOf(config, r.token);
    u.Some? && r.signature == config.mac(u.value.secret, Message(u.value, r))
  }

  datatype Step =
    | Begin(request: Request)
    | Insert(flight: nat)
    | Expire(nonce: string)
    | Tick(nanoseconds: nat)

  function Inserted(config: Config, s: State, i: nat): State {
    if i < |s.flights| && s.flights[i].pending then
      var f := s.flights[i];
      var s1 := s.(flights := s.flights[i := f.(pending := false)]);
      if f.request.nonce in s.nonces then s1
      else
        s1.(nonces := s.nonces[f.request.nonce := s.now],
            accepted := if Signed(config, f.request)
                        then s.accepted + [Acceptance(f.request, f.checked, s.now)] else s.accepted)
    else s
  }

  function Next(config: Config, s: State, step: Step): State {
    match step
    case Begin(r) =>
      if Check(config, s.now, r).None? then s.(flights := s.flights + [Flight(r, s.now, true)]) else s
    case Insert(i) => Inserted(config, s, i)
    case Expire(n) =>
      if n in s.nonces && s.now - s.nonces[n] >= LIFETIME then s.(nonces := s.nonces - {n}) else s
    case Tick(d) => s.(now := s.now + d)
  }

  function Run(config: Config, s: State, steps: seq<Step>): State
    decreases |steps|
  {
    if steps == [] then s else Run(config, Next(config, s, steps[0]), steps[1..])
  }

  /** No request inserts its nonce more than `patience` nanoseconds after its window check. */
  predicate Prompt(config: Config, s: State, steps: seq<Step>, patience: nat)
    decreases |steps|
  {
    steps == [] ||
    ((steps[0].Insert? && steps[0].flight < |s.flights| ==>
        s.now - s.flights[steps[0].flight].checked <= patience) &&
     Prompt(config, Next(config, s, steps[0]), steps[1..], patience))
  }

  function Fresh(start: int): State {
    State(start, map[], [], [])
  }

  /** No two acceptances carry this timestamp and nonce. */
  ghost predicate Once(accepted: seq<Acceptance>, timestamp: int, nonce: string) {
    forall i, j | 0 <= i < j < |accepted| ::
      !(accepted[i].request.timestamp == accepted[j].request.timestamp == timestamp &&
        accepted[i].request.nonce == accepted[j].request.nonce == nonce)
  }

  // ---- Invariant

  ghost predicate FlightsSound(config: Config, flights: seq<Flight>, start: int, now: int) {
    forall i | 0 <= i < |flights| ::
      start <= flights[i].checked <= now && Check(config, flights[i].checked, flights[i].request).None?
  }

  ghost predicate AcceptedSound(config: Config, accepted: seq<Acceptance>, start: int, patience: nat) {
    forall i | 0 <= i < |accepted| ::
      && start <= accepted[i].checked <= accepted[i].inserted <= accepted[i].checked + patience
      && Check(config, accepted[i].checked, accepted[i].request).None? && Signed(config, accepted[i].request)
  }

  /** Acceptances of one nonce lie a whole lifetime apart. */
  ghost predicate Apart(accepted: seq<Acceptance>) {
    forall i, j | 0 <= i < j < |accepted| && accepted[i].request.nonce == accepted[j].request.nonce ::
      accepted[j].inserted - accepted[i].inserted >= LIFETIME
  }

  /** A nonce accepted less than a lifetime ago is still stored. */
  ghost predicate Remembered(s: State) {
    && (forall n | n in s.nonces :: s.nonces[n] <= s.now)
    && (forall i | 0 <= i < |s.accepted| ::
         var a := s.accepted[i];
         (a.request.nonce in s.nonces && s.nonces[a.request.nonce] >= a.inserted) || s.now - a.inserted >= LIFETIME)
  }

  ghost predicate Invariant(config: Config, s: State, start: int, patience: nat) {
    && FlightsSound(config, s.flights, start, s.now) && AcceptedSound(config, s.accepted, start, patience)
    && Apart(s.accepted) && Remembered(s) && start <= s.now
  }

  lemma NextKeeps(config: Config, s: State, step: Step, start: int, patience: nat)
    requires Invariant(config, s, start, patience)
    requires step.Insert? && step.flight < |s.flights| ==> s.now - s.flights[step.flight].checked <= patience
    ensures Invariant(config, Next(config, s, step), start, patience)
  {
    hide Check, Signed;
  }

  lemma {:induction false} RunKeeps(config: Config, s: State, steps: seq<Step>, start: int, patience: nat)
    requires Invariant(config, s, start, patience) && Prompt(config, s, steps, patience)
    ensures Invariant(config, Run(config, s, steps), start, patience)
    decreases |steps|
  {
    hide Next, Invariant;
    if steps != [] {
      NextKeeps(config, s, steps[0], start, patience);
      RunKeeps(config, Next(config, s, steps[0]), steps[1..], start, patience);
    }
  }

  // ---- At most once

  /** The first and the last moment from `start` on at which the window check passes, if there is any. */
  function Span(window: int, instant: int, start: int): Option<(int, int)> {
    var limit := Limit(window);
    if instant - start >= TWO63 then Some((start, if limit >= 0 then instant + limit else instant - TWO63))
    else if limit >= 0 && instant + limit >= start then
      Some((if instant - limit >= start then instant - limit else start, instant + limit))
    else None
  }

  lemma SpanMeans(window: int, instant: int, start: int)
    ensures forall t :: t >= start && InWindow(window, t, instant) ==>
      var span := Span(window, instant, start); span.Some? && span.value.0 <= t <= span.value.1
    ensures var span := Span(window, instant, start);
      span.Some? ==>
        && start <= span.value.0 <= span.value.1
        && InWindow(window, span.value.0, instant) && InWindow(window, span.value.1, instant)
  {
    hide InWindow, Limit;
    forall t | t >= start && InWindow(window, t, instant)
      ensures var span := Span(window, instant, start); span.Some? && span.value.0 <= t <= span.value.1
    {
      WindowMeans(window, t, instant);
    }
    var span := Span(window, instant, start);
    if span.Some? {
      WindowMeans(window, span.value.0, instant);
      WindowMeans(window, span.value.1, instant);
    }
  }

  /** The timestamp's span, with the delay before the insert, is shorter than the life of a nonce. */
  predicate Covered(window: int, timestamp: int, start: int, patience: nat) {
    var span := Span(window, Instant(timestamp), start);
    span.Some? ==> span.value.1 + patience - span.value.0 < LIFETIME
  }

  lemma CoveredIsOnce(config: Config, start: int, patience: nat, steps: seq<Step>, timestamp: int, nonce: string)
    requires Covered(config.window, timestamp, start, patience) && Prompt(config, Fresh(start), steps, patience)
    ensures Once(Run(config, Fresh(start), steps).accepted, timestamp, nonce)
  {
    hide InWindow, Run, Prompt, Span, Signed, Instant;
    RunKeeps(config, Fresh(start), steps, start, patience);
    SpanMeans(config.window, Instant(timestamp), start);
  }

  /** Accepted at the first moment, checked again at the last one, and inserted as late as it may be. */
  function Replayed(r: Request, start: int, first: int, last: int, patience: nat): seq<Step>
    requires start <= first <= last
  {
    [Tick(first - start), Begin(r), Insert(0), Tick(last - first), Begin(r), Tick(patience), Expire(r.nonce), Insert(1)]
  }

  lemma RunCons(config: Config, s: State, step: Step, rest: seq<Step>, patience: nat)
    ensures Run(config, s, [step] + rest) == Run(config, Next(config, s, step), rest)
    ensures Prompt(config, s, [step] + rest, patience) <==>
      (step.Insert? && step.flight < |s.flights| ==> s.now - s.flights[step.flight].checked <= patience) &&
      Prompt(config, Next(config, s, step), rest, patience)
  {
    hide Next;
    assert ([step] + rest)[1..] == rest;
  }

  lemma RunFour(config: Config, s: State, a: Step, b: Step, c: Step, d: Step, rest: seq<Step>, patience: nat)
    requires !a.Insert? && !b.Insert?
    ensures var s2 := Next(config, Next(config, s, a), b);
      var s3 := Next(config, s2, c);
      && Run(config, s, [a, b, c, d] + rest) == Run(config, Next(config, s3, d), rest)
      && (Prompt(config, s, [a, b, c, d] + rest, patience) <==>
          && (c.Insert? && c.flight < |s2.flights| ==> s2.now - s2.flights[c.flight].checked <= patience)
          && (d.Insert? && d.flight < |s3.flights| ==> s3.now - s3.flights[d.flight].checked <= patience)
          && Prompt(config, Next(config, s3, d), rest, patience))
  {
    hide Next, Run, Prompt;
    var s1 := Next(config, s, a);
    var s2 := Next(config, s1, b);
    RunCons(config, s, a, [b, c, d] + rest, patience);
    RunCons(config, s1, b, [c, d] + rest, patience);
    RunCons(config, s2, c, [d] + rest, patience);
    RunCons(config, Next(config, s2, c), d, rest, patience);
    assert [a] + ([b, c, d] + rest) == [a, b, c, d] + rest;
    assert [b] + ([c, d] + rest) == [b, c, d] + rest;
    assert [c] + ([d] + rest) == [c, d] + rest;
  }

  /** A request that can fail no check but those of the window and the nonce store. */
  predicate Genuine(config: Config, r: Request) {
    r.token != "" && 16 <= |r.nonce| <= 128 && Signed(config, r)
  }

  lemma RunNone(config: Config, s: State, patience: nat)
    ensures Run(config, s, []) == s && Prompt(config, s, [], patience)
  {
  }

  /** The clock at `last`, the nonce stored and spent at `first`. */
  function Middle(r: Request, first: int, last: int): State {
    State(last, map[r.nonce := first], [Flight(r, first, false)], [Acceptance(r, first, first)])
  }

  lemma FirstHalf(config: Config, r: Request, start: int, first: int, last: int)
    requires Genuine(config, r) && InWindow(config.window, first, Instant(r.timestamp)) && start <= first <= last
    ensures var s2 := Next(config, Next(config, Fresh(start), Tick(first - start)), Begin(r));
      && s2.flights == [Flight(r, first, true)] && s2.now == first
      && Next(config, Next(config, s2, Insert(0)), Tick(last - first)) == Middle(r, first, last)
  {
    hide InWindow, Instant;
  }

  lemma SecondHalf(config: Config, r: Request, first: int, last: int, patience: nat)
    requires Genuine(config, r) && InWindow(config.window, last, Instant(r.timestamp))
    requires first <= last && last + patience - first >= LIFETIME
    ensures var s2 := Next(config, Next(config, Middle(r, first, last), Begin(r)), Tick(patience));
      var s3 := Next(config, s2, Expire(r.nonce));
      && s3.flights == [Flight(r, first, false), Flight(r, last, true)] && s3.now == last + patience
      && Next(config, s3, Insert(1)).accepted == [Acceptance(r, first, first), Acceptance(r, last, last + patience)]
  {
    hide InWindow, Instant;
  }

  lemma UncoveredIsReplayed(config: Config, start: int, patience: nat, r: Request) returns (steps: seq<Step>)
    requires !Covered(config.window, r.timestamp, start, patience) && Genuine(config, r)
    ensures Prompt(config, Fresh(start), steps, patience)
    ensures !Once(Run(config, Fresh(start), steps).accepted, r.timestamp, r.nonce)
  {
    hide InWindow, Run, Prompt, Instant, UserOf, Span, Check, Next;
    SpanMeans(config.window, Instant(r.timestamp), start);
    var (first, last) := Span(config.window, Instant(r.timestamp), start).value;
    steps := Replayed(r, start, first, last, patience);
    assert steps[..4] + (steps[4..] + []) == steps;
    assert steps[..4] == [steps[0], steps[1], steps[2], steps[3]];
    assert steps[4..] == [steps[4], steps[5], steps[6], steps[7]];
    RunFour(config, Fresh(start), steps[0], steps[1], steps[2], steps[3], steps[4..] + [], patience);
    var middle := Middle(r, first, last);
    RunFour(config, middle, steps[4], steps[5], steps[6], steps[7], [], patience);
    var end := Next(config, Next(config, Next(config, Next(config, middle, steps[4]), steps[5]), steps[6]), steps[7]);
    RunNone(config, end, patience);
    FirstHalf(config, r, start, first, last);
    SecondHalf(config, r, first, last, patience);
    assert Prompt(config, middle, steps[4..] + [], patience);
    assert end.accepted[0].request == end.accepted[1].request == r;
  }

  /** A genuine request's timestamp and nonce are accepted at most once in every run of every number of nodes exactly
      when its span and the longest delay fit into the life of a nonce. */
  lemma OnceIffCovered(config: Config, start: int, patience: nat, r: Request)
    requires Genuine(config, r)
    ensures (forall steps | Prompt(config, Fresh(start), steps, patience) ::
               Once(Run(config, Fresh(start), steps).accepted, r.timestamp, r.nonce)) <==>
      Covered(config.window, r.timestamp, start, patience)
  {
    hide Prompt, Run, Once, Genuine, Covered;
    if Covered(config.window, r.timestamp, start, patience) {
      forall steps | Prompt(config, Fresh(start), steps, patience)
        ensures Once(Run(config, Fresh(start), steps).accepted, r.timestamp, r.nonce)
      {
        CoveredIsOnce(config, start, patience, steps, r.timestamp, r.nonce);
      }
    } else {
      var steps := UncoveredIsReplayed(config, start, patience, r);
    }
  }

  /** Two windows and a delay that together are shorter than the life of a nonce cover every timestamp less than 2^63
      nanoseconds ahead of the first moment, and no other timestamp. */
  lemma TwoWindowsCover(window: int, timestamp: int, start: int, patience: nat)
    requires 0 <= Limit(window) && 2 * Limit(window) + patience < LIFETIME
    ensures Covered(window, timestamp, start, patience) <==> Instant(timestamp) - start < TWO63
  {
    hide Instant, Limit;
  }

  /** Accepted requests carry the token of an API user with a secret, a nonce of allowed length, and the keyed hash of
      their fields under that user's secret; each was in its window. */
  lemma AcceptedIsGenuine(config: Config, start: int, patience: nat, steps: seq<Step>, i: nat)
    requires Prompt(config, Fresh(start), steps, patience) && i < |Run(config, Fresh(start), steps).accepted|
    ensures var a := Run(config, Fresh(start), steps).accepted[i];
      var r := a.request;
      && r.token != "" && 16 <= |r.nonce| <= 128 && InWindow(config.window, a.checked, Instant(r.timestamp))
      && r.token in config.users && config.users[r.token].api
      && config.users[r.token].token != "" && config.users[r.token].secret != ""
      && r.signature == config.mac(config.users[r.token].secret, Message(config.users[r.token], r))
  {
    hide InWindow, Run, Prompt, Instant, Message;
    RunKeeps(config, Fresh(start), steps, start, patience);
  }

  // ---- The handler

  class Server {
    const config: Config
    var now: int
    var nonces: map<string, int>
    ghost var flights: seq<Flight>
    ghost var accepted: seq<Acceptance>

    constructor (config: Config, start: int)
      ensures this.config == config && View() == Fresh(start)
    {
      this.config, now, nonces, flights, accepted := config, start, map[], [], [];
    }

    ghost function View(): State
      reads this
    {
      State(now, nonces, flights, accepted)
    }

    /** Inserts under the unique id. */
    method InsertNonce(n: string) returns (duplicate: bool)
      modifies this`nonces
      ensures duplicate == (n in old(nonces))
      ensures nonces == if duplicate then old(nonces) else old(nonces)[n := now]
    {
      if n in nonces {
        return true;
      }
      nonces := nonces[n := now];
      return false;
    }

    /** One uninterrupted request: the two steps of the protocol, with the first failing check as its error. A request
        with a wrong signature has spent its nonce all the same. */
    method Validate(r: Request) returns (err: Option<Error>)
      modifies this`nonces, this`flights, this`accepted
      ensures View() == Next(config, Next(config, old(View()), Begin(r)), Insert(|old(flights)|))
      ensures accepted == if err.None? then old(accepted) + [Acceptance(r, now, now)] else old(accepted)
      ensures err == Some(BadToken) <==> r.token == ""
      ensures err == Some(BadNonce) <==> r.token != "" && !(16 <= |r.nonce| <= 128)
      ensures err == Some(OutsideWindow) <==>
        r.token != "" && 16 <= |r.nonce| <= 128 && !InWindow(config.window, now, Instant(r.timestamp))
      ensures err == Some(UserNotFound) <==> InTime(config, now, r) && !Known(config.users, r.token)
      ensures err == Some(DuplicateNonce) <==>
        InTime(config, now, r) && Known(config.users, r.token) && r.nonce in old(nonces)
      ensures err.None? <==>
        && InTime(config, now, r) && r.nonce !in old(nonces)
        && r.token in config.users && config.users[r.token].api
        && config.users[r.token].token != "" && config.users[r.token].secret != ""
        && r.signature == config.mac(config.users[r.token].secret, Message(config.users[r.token], r))
      ensures nonces == if err.None? || err == Some(BadSignature) then old(nonces)[r.nonce := now] else old(nonces)
    {
      if r.token == "" {
        return Some(BadToken);
      }
      if |r.nonce| < 16 || |r.nonce| > 128 {
        return Some(BadNonce);
      }
      if SinceAbs(now, Instant(r.timestamp)) > Wrap(config.window * NANO) {
        return Some(OutsideWindow);
      }
      var user := UserOf(config, r.token);
      if user.None? {
        return Some(UserNotFound);
      }
      flights := flights + [Flight(r, now, false)];
      var duplicate := InsertNonce(r.nonce);
      if duplicate {
        return Some(DuplicateNonce);
      }
      var usr := user.value;
      var authString := usr.token + "&" + (Decimal(r.timestamp) + "&" + (r.nonce + "&" + (r.method_ + "&" + r.path)));
      var signature := config.mac(usr.secret, authString);
      if r.signature != signature {
        return Some(BadSignature);
      }
      accepted := accepted + [Acceptance(r, now, now)];
      return None;
    }
  }
}
