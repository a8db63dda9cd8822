/** The user console's multi-step login: uhandlers/auth.go over the tokens of secondary/. */
module Login {
  import opened Wrappers
  import opened Secondary

  /** The validator's fixed answer for a user: is a device required, and which provider. */
  datatype Policy = Policy(device: bool, provider: Option<nat>)

  datatype What =
    | PrimaryApproved                // local password or provider callback
    | ProviderPassed(token: TokenId) // a User token was completed
    | DeviceShown                    // a login ceremony with a registered device succeeded
    | DeviceRegistered               // a registration from a login succeeded
    | DeviceAdded                    // a device arrived from another console
    | SessionMade

  datatype Event = Event(time: int, user: UserId, what: What)

  type Log = seq<Event>

  datatype State = State(
    now: int,
    next: TokenId,
    tokens: map<TokenId, Token>,
    devices: map<UserId, nat>,
    log: Log)

  datatype Config = Config(policies: UserId -> Policy, expire: nat)

  function DeviceCount(devices: map<UserId, nat>, u: UserId): nat {
    if u in devices then devices[u] else 0
  }

  /** A request and the answers its foreign calls give. `stopped` stands for everything that ends the request
      before its last write: the validator turning the user away, or any store error in between. */
  datatype Request =
    | Primary(user: UserId, stopped: bool)
    | SecondaryPost(token: TokenId, attempt: Attempt, stopped: bool)
    | RegisterGet(token: TokenId, begun: bool)
    | RegisterPost(token: TokenId, denied: bool, accepted: bool, stopped: bool)
    | RespondGet(token: TokenId, begun: bool)
    | RespondPost(token: TokenId, denied: bool, accepted: bool, stopped: bool)
    | AddDevice(user: UserId)
    | RemoveDevice(user: UserId)
    | Tick(seconds: nat)

  // ---- Specification: one decision table for all handlers

  datatype Stage = AskDevice | AskProvider | AskRegister | Grant

  /** What is asked for next, given what this login has shown so far. */
  function Demand(p: Policy, hasDevice: bool, shown: bool, passed: bool): Stage {
    if p.device && hasDevice && !shown && !passed then AskDevice
    else if p.provider.Some? && !passed then AskProvider
    else if p.device && !hasDevice && !shown then AskRegister
    else Grant
  }

  function Record(s: State, u: UserId, what: What): State {
    s.(log := s.log + [Event(s.now, u, what)])
  }

  function Mint(s: State, u: UserId, kind: Kind, provider: Provider): State {
    s.(next := s.next + 1, tokens := s.tokens[s.next := NewToken(u, kind, 0, provider, s.now)])
  }

  function Advance(c: Config, s: State, u: UserId, stage: Stage): State
    requires stage.AskProvider? ==> c.policies(u).provider.Some?
  {
    match stage
    case AskDevice => Mint(s, u, UserDevice, DeviceProvider)
    case AskProvider => Mint(s, u, User, External(c.policies(u).provider.value))
    case AskRegister => Mint(s, u, UserDeviceRegister, DeviceProvider)
    case Grant => Record(s, u, SessionMade)
  }

  function Proceed(c: Config, s: State, u: UserId, shown: bool, passed: bool): State {
    Advance(c, s, u, Demand(c.policies(u), DeviceCount(s.devices, u) > 0, shown, passed))
  }

  predicate Present(c: Config, s: State, k: TokenId, kind: Kind) {
    k in s.tokens && Usable(s.tokens[k], kind, s.now, c.expire)
  }

  function Next(c: Config, s: State, r: Request): State {
    match r
    case Primary(u, stopped) =>
      var s1 := Record(s, u, PrimaryApproved);
      if stopped then s1 else Proceed(c, s1, u, false, false)
    case SecondaryPost(k, a, stopped) =>
      if !Present(c, s, k, User) then s
      else
        var t := s.tokens[k];
        var s1 := s.(tokens := s.tokens[k := Marked(t, a)]);
        if Verdict(t, a) != Passed then s1
        else
          var s2 := Record(s1, t.user, ProviderPassed(k));
          if stopped then s2 else Proceed(c, s2, t.user, false, true)
    case RegisterGet(k, begun) =>
      if Present(c, s, k, UserDeviceRegister) && CanBegin(s.tokens[k]) && begun
      then s.(tokens := s.tokens[k := s.tokens[k].(requested := true)]) else s
    case RegisterPost(k, denied, accepted, stopped) =>
      if !Present(c, s, k, UserDeviceRegister) || denied || !CanFinish(s.tokens[k]) || !accepted then s
      else
        var u := s.tokens[k].user;
        var s1 := Record(s.(devices := s.devices[u := DeviceCount(s.devices, u) + 1]), u, DeviceRegistered);
        if stopped then s1 else Record(s1, u, SessionMade)
    case RespondGet(k, begun) =>
      if Present(c, s, k, UserDevice) && CanBegin(s.tokens[k]) && begun
      then s.(tokens := s.tokens[k := s.tokens[k].(requested := true)]) else s
    case RespondPost(k, denied, accepted, stopped) =>
      if !Present(c, s, k, UserDevice) || denied || !CanFinish(s.tokens[k]) || !accepted then s
      else
        var u := s.tokens[k].user;
        var s1 := Record(s, u, DeviceShown);
        if stopped then s1 else Proceed(c, s1, u, true, false)
    case AddDevice(u) =>
      Record(s.(devices := s.devices[u := DeviceCount(s.devices, u) + 1]), u, DeviceAdded)
    case RemoveDevice(u) =>
      if DeviceCount(s.devices, u) == 0 then s
      else s.(devices := s.devices[u := DeviceCount(s.devices, u) - 1])
    case Tick(d) => s.(now := s.now + d)
  }

  function Run(c: Config, s: State, requests: seq<Request>): State {
    if requests == [] then s
    else Next(c, Run(c, s, requests[..|requests| - 1]), requests[|requests| - 1])
  }

  predicate Initial(s: State) {
    s.tokens == map[] && s.log == []
  }

  // ---- The console itself

  class Console {
    const config: Config
    var now: int
    var next: TokenId
    var tokens: map<TokenId, Token>
    var devices: map<UserId, nat>
    var log: Log

    constructor (config: Config, now: int, devices: map<UserId, nat>)
      ensures this.config == config && this.now == now && this.devices == devices
      ensures Initial(View())
    {
      this.config, this.now, this.devices := config, now, devices;
      next, tokens, log := 0, map[], [];
    }

    function View(): State
      reads this
    {
      State(now, next, tokens, devices, log)
    }

    method Audit(u: UserId, what: What)
      modifies this`log
      ensures View() == Record(old(View()), u, what)
    {
      log := log + [Event(now, u, what)];
    }

    method NewSecondary(u: UserId, kind: Kind, provider: Provider)
      modifies this`tokens, this`next
      ensures View() == Mint(old(View()), u, kind, provider)
    {
      tokens := tokens[next := NewToken(u, kind, 0, provider, now)];
      next := next + 1;
    }

    /** The stored token of the given type, unless it has expired. */
    method GetSecondary(k: TokenId, kind: Kind) returns (secd: SecondaryToken?)
      ensures secd != null <==> Present(config, View(), k, kind)
      ensures secd != null <==> k in tokens && tokens[k].kind == kind && now - tokens[k].minted <= config.expire
      ensures secd != null ==> fresh(secd) && k in tokens && secd.token == tokens[k]
    {
      secd := null;
      if k in tokens && tokens[k].kind == kind && tokens[k].minted >= now - config.expire {
        secd := new SecondaryToken(tokens[k]);
      }
    }

    /** authSessionPost and authCallbackGet once the user is known: the two differ only in how they answer. */
    method AuthPrimary(u: UserId, stopped: bool)
      modifies this
      ensures View() == Next(config, old(View()), Primary(u, stopped))
    {
      Audit(u, PrimaryApproved);
      if stopped {
        return;
      }
      var p := config.policies(u);
      if p.device {
        var kind, provider;
        if DeviceCount(devices, u) == 0 {
          if p.provider.None? {
            kind, provider := UserDeviceRegister, DeviceProvider;
          } else {
            kind, provider := User, External(p.provider.value);
          }
        } else {
          kind, provider := UserDevice, DeviceProvider;
        }
        NewSecondary(u, kind, provider);
        return;
      } else if p.provider.Some? {
        NewSecondary(u, User, External(p.provider.value));
        return;
      }
      Audit(u, SessionMade);
    }

    method AuthSecondaryPost(k: TokenId, a: Attempt, stopped: bool)
      modifies this
      ensures View() == Next(config, old(View()), SecondaryPost(k, a, stopped))
    {
      var secd := GetSecondary(k, User);
      if secd == null {
        return;
      }
      var u := secd.token.user;
      var outcome := secd.Handle(a);
      tokens := tokens[k := secd.token];
      if outcome != Passed {
        return;
      }
      Audit(u, ProviderPassed(k));
      if stopped {
        return;
      }
      if config.policies(u).device {
        if DeviceCount(devices, u) == 0 {
          NewSecondary(u, UserDeviceRegister, DeviceProvider);
          return;
        }
      }
      Audit(u, SessionMade);
    }

    method AuthWanRegisterGet(k: TokenId, begun: bool)
      modifies this
      ensures View() == Next(config, old(View()), RegisterGet(k, begun))
    {
      var secd := GetSecondary(k, UserDeviceRegister);
      if secd == null {
        return;
      }
      var outcome := secd.DeviceBegin(begun);
      if outcome == Passed {
        tokens := tokens[k := secd.token];
      }
    }

    method AuthWanRegisterPost(k: TokenId, denied: bool, accepted: bool, stopped: bool)
      modifies this
      ensures View() == Next(config, old(View()), RegisterPost(k, denied, accepted, stopped))
    {
      var secd := GetSecondary(k, UserDeviceRegister);
      if secd == null || denied {
        return;
      }
      var u := secd.token.user;
      var outcome := secd.DeviceFinish(accepted);
      if outcome != Passed {
        return;
      }
      devices := devices[u := DeviceCount(devices, u) + 1];
      Audit(u, DeviceRegistered);
      if stopped {
        return;
      }
      Audit(u, SessionMade);
    }

    method AuthWanRequestGet(k: TokenId, begun: bool)
      modifies this
      ensures View() == Next(config, old(View()), RespondGet(k, begun))
    {
      var secd := GetSecondary(k, UserDevice);
      if secd == null {
        return;
      }
      var outcome := secd.DeviceBegin(begun);
      if outcome == Passed {
        tokens := tokens[k := secd.token];
      }
    }

    method AuthWanRespondPost(k: TokenId, denied: bool, accepted: bool, stopped: bool)
      modifies this
      ensures View() == Next(config, old(View()), RespondPost(k, denied, accepted, stopped))
    {
      var secd := GetSecondary(k, UserDevice);
      if secd == null || denied {
        return;
      }
      var u := secd.token.user;
      var outcome := secd.DeviceFinish(accepted);
      if outcome != Passed {
        return;
      }
      Audit(u, DeviceShown);
      if stopped {
        return;
      }
      var p := config.policies(u);
      if p.provider.Some? {
        NewSecondary(u, User, External(p.provider.value));
        return;
      }
      Audit(u, SessionMade);
    }
  }

  // ---- Safety

  /** An event of one of the given kinds for `u`, no older than `since`. */
  ghost predicate Happened(log: Log, u: UserId, ok: What -> bool, since: int) {
    exists i :: 0 <= i < |log| && log[i].user == u && log[i].time >= since && ok(log[i].what)
  }

  const IS_PRIMARY: What -> bool := (w: What) => w.PrimaryApproved?
  const IS_PROVIDER: What -> bool := (w: What) => w.ProviderPassed?
  const IS_DEVICE: What -> bool := (w: What) => w.DeviceShown? || w.DeviceRegistered? || w.DeviceAdded?
  const IS_CEREMONY: What -> bool := (w: What) => w.DeviceShown? || w.DeviceRegistered?

  /** Every factor the policy asks of `u` was given earlier, and recently: the login itself within three token
      lifetimes, the provider and the device within one. Where no provider is asked for, the device factor is a
      ceremony. */
  ghost predicate Justified(c: Config, log: Log, u: UserId, time: int) {
    var p := c.policies(u);
    && Happened(log, u, IS_PRIMARY, time - 3 * c.expire)
    && (p.provider.Some? ==> Happened(log, u, IS_PROVIDER, time - c.expire))
    && (p.device ==> Happened(log, u, IS_DEVICE, time - c.expire))
    && (p.device && p.provider.None? ==> Happened(log, u, IS_CEREMONY, time - c.expire))
  }

  /** Every session in the log is justified by what stands before it. */
  ghost predicate Safe(c: Config, log: Log) {
    forall i | 0 <= i < |log| && log[i].what.SessionMade? :: Justified(c, log[..i], log[i].user, log[i].time)
  }

  /** What a stored token is worth: the steps that must lie behind it. */
  ghost predicate Backed(c: Config, s: State, t: Token) {
    var p := c.policies(t.user);
    && t.minted <= s.now
    && match t.kind
       case UserDevice => p.device && Happened(s.log, t.user, IS_PRIMARY, t.minted)
       case User =>
         && p.provider.Some?
         && Happened(s.log, t.user, IS_PRIMARY, t.minted - c.expire)
         && (p.device ==> Happened(s.log, t.user, IS_DEVICE, t.minted) || DeviceCount(s.devices, t.user) == 0)
       case UserDeviceRegister =>
         && p.device
         && Happened(s.log, t.user, IS_PRIMARY, t.minted - 2 * c.expire)
         && (p.provider.Some? ==> Happened(s.log, t.user, IS_PROVIDER, t.minted))
       case _ => true
  }

  ghost predicate Invariant(c: Config, s: State) {
    && Safe(c, s.log)
    && (forall k | k in s.tokens :: k < s.next && Backed(c, s, s.tokens[k]))
  }

  lemma HappenedGrows(log: Log, e: Event, u: UserId, ok: What -> bool, since: int)
    ensures Happened(log, u, ok, since) ==> Happened(log + [e], u, ok, since)
    ensures e.user == u && e.time >= since && ok(e.what) ==> Happened(log + [e], u, ok, since)
  {
    if Happened(log, u, ok, since) {
      var i :| 0 <= i < |log| && log[i].user == u && log[i].time >= since && ok(log[i].what);
      assert (log + [e])[i] == log[i];
    }
    assert (log + [e])[|log|] == e;
  }

  lemma HappenedSince(log: Log, u: UserId, ok: What -> bool, since: int, earlier: int)
    requires Happened(log, u, ok, since) && earlier <= since
    ensures Happened(log, u, ok, earlier)
  {
    var i :| 0 <= i < |log| && log[i].user == u && log[i].time >= since && ok(log[i].what);
  }

  lemma SafeGrows(c: Config, log: Log, e: Event)
    requires Safe(c, log)
    requires e.what.SessionMade? ==> Justified(c, log, e.user, e.time)
    ensures Safe(c, log + [e])
  {
    hide Justified;
    forall i | 0 <= i < |log + [e]| && (log + [e])[i].what.SessionMade?
      ensures Justified(c, (log + [e])[..i], (log + [e])[i].user, (log + [e])[i].time)
    {
      assert (log + [e])[..i] == log[..i];
      assert i == |log| ==> log[..i] == log;
    }
  }

  /** A stored token stays backed when the log grows and the devices of its user go at most to zero, or are joined
      by one whose arrival is logged. */
  lemma BackedGrows(c: Config, s: State, s': State, t: Token, e: Event)
    requires Backed(c, s, t) && s'.log == s.log + [e] && e.time == s.now == s'.now
    requires || DeviceCount(s'.devices, t.user) == DeviceCount(s.devices, t.user)
             || (e.user == t.user && IS_DEVICE(e.what))
    ensures Backed(c, s', t)
  {
    hide Happened;
    HappenedGrows(s.log, e, t.user, IS_PRIMARY, t.minted);
    HappenedGrows(s.log, e, t.user, IS_PRIMARY, t.minted - c.expire);
    HappenedGrows(s.log, e, t.user, IS_PRIMARY, t.minted - 2 * c.expire);
    HappenedGrows(s.log, e, t.user, IS_PROVIDER, t.minted);
    HappenedGrows(s.log, e, t.user, IS_DEVICE, t.minted);
  }

  /** Logging an event, with or without a device arriving for its user. */
  lemma RecordKeeps(c: Config, s: State, devices: map<UserId, nat>, u: UserId, what: What)
    requires Invariant(c, s)
    requires what.SessionMade? ==> Justified(c, s.log, u, s.now)
    requires forall v :: DeviceCount(devices, v) == DeviceCount(s.devices, v) || (v == u && IS_DEVICE(what))
    ensures Invariant(c, Record(s.(devices := devices), u, what))
  {
    hide Happened, Justified, Backed;
    var e := Event(s.now, u, what);
    var s' := Record(s.(devices := devices), u, what);
    SafeGrows(c, s.log, e);
    forall k | k in s'.tokens
      ensures k < s'.next && Backed(c, s', s'.tokens[k])
    {
      BackedGrows(c, s, s', s.tokens[k], e);
    }
  }

  lemma MintKeeps(c: Config, s: State, u: UserId, kind: Kind, provider: Provider)
    requires Invariant(c, s)
    requires Backed(c, s, NewToken(u, kind, 0, provider, s.now))
    ensures Invariant(c, Mint(s, u, kind, provider))
  {
    hide Happened, Safe;
    var s' := Mint(s, u, kind, provider);
    forall k | k in s'.tokens
      ensures k < s'.next && Backed(c, s', s'.tokens[k])
    {
      assert k != s.next ==> Backed(c, s, s.tokens[k]);
    }
  }

  /** Marking a token, or letting time pass, or losing a device, keeps what is behind the tokens. */
  lemma QuietKeeps(c: Config, s: State, s': State)
    requires Invariant(c, s) && s'.log == s.log && s'.now >= s.now && s'.next == s.next
    requires s'.tokens.Keys == s.tokens.Keys
    requires forall k | k in s.tokens ::
      s'.tokens[k].user == s.tokens[k].user && s'.tokens[k].kind == s.tokens[k].kind &&
      s'.tokens[k].minted == s.tokens[k].minted
    requires forall u :: DeviceCount(s'.devices, u) <= DeviceCount(s.devices, u)
    ensures Invariant(c, s')
  {
    hide Happened, Safe;
    forall k | k in s'.tokens
      ensures k < s'.next && Backed(c, s', s'.tokens[k])
    {
      assert Backed(c, s, s.tokens[k]);
    }
  }

  lemma CeremonyIsDevice(log: Log, u: UserId, since: int)
    requires Happened(log, u, IS_CEREMONY, since)
    ensures Happened(log, u, IS_DEVICE, since)
  {
    var i :| 0 <= i < |log| && log[i].user == u && log[i].time >= since && IS_CEREMONY(log[i].what);
    assert IS_DEVICE(log[i].what);
  }

  /** Going on from a step is safe: the stage the table demands is backed by what has happened. */
  lemma ProceedKeeps(c: Config, s: State, u: UserId, shown: bool, passed: bool)
    requires Invariant(c, s)
    requires Happened(s.log, u, IS_PRIMARY, s.now - (if passed then 2 else if shown then 1 else 0) * c.expire)
    requires shown ==> !passed && c.policies(u).device && Happened(s.log, u, IS_CEREMONY, s.now)
    requires passed ==> c.policies(u).provider.Some? && Happened(s.log, u, IS_PROVIDER, s.now)
    requires passed && c.policies(u).device && DeviceCount(s.devices, u) > 0 ==>
      Happened(s.log, u, IS_DEVICE, s.now - c.expire)
    ensures Invariant(c, Proceed(c, s, u, shown, passed))
  {
    if shown {
      CeremonyIsDevice(s.log, u, s.now);
    }
    hide Happened, Safe;
    var p := c.policies(u);
    var since := s.now - (if passed then 2 else if shown then 1 else 0) * c.expire;
    HappenedSince(s.log, u, IS_PRIMARY, since, s.now - 3 * c.expire);
    HappenedSince(s.log, u, IS_PRIMARY, since, s.now - 2 * c.expire);
    if !passed {
      HappenedSince(s.log, u, IS_PRIMARY, since, s.now - c.expire);
    }
    match Demand(p, DeviceCount(s.devices, u) > 0, shown, passed)
    case AskDevice => MintKeeps(c, s, u, UserDevice, DeviceProvider);
    case AskProvider => MintKeeps(c, s, u, User, External(p.provider.value));
    case AskRegister => MintKeeps(c, s, u, UserDeviceRegister, DeviceProvider);
    case Grant =>
      if shown {
        HappenedSince(s.log, u, IS_DEVICE, s.now, s.now - c.expire);
        HappenedSince(s.log, u, IS_CEREMONY, s.now, s.now - c.expire);
      }
      if passed {
        HappenedSince(s.log, u, IS_PROVIDER, s.now, s.now - c.expire);
      }
      RecordKeeps(c, s, s.devices, u, SessionMade);
  }

  lemma NextKeeps(c: Config, s: State, r: Request)
    requires Invariant(c, s)
    ensures Invariant(c, Next(c, s, r))
  {
    hide Happened, Safe;
    match r
    case Primary(u, stopped) =>
      RecordKeeps(c, s, s.devices, u, PrimaryApproved);
      var s1 := Record(s, u, PrimaryApproved);
      HappenedGrows(s.log, Event(s.now, u, PrimaryApproved), u, IS_PRIMARY, s.now);
      if !stopped {
        ProceedKeeps(c, s1, u, false, false);
      }
    case SecondaryPost(k, a, stopped) => SecondaryPostKeeps(c, s, k, a, stopped);
    case RegisterGet(k, begun) => QuietKeeps(c, s, Next(c, s, r));
    case RegisterPost(k, denied, accepted, stopped) => RegisterPostKeeps(c, s, k, denied, accepted, stopped);
    case RespondGet(k, begun) => QuietKeeps(c, s, Next(c, s, r));
    case RespondPost(k, denied, accepted, stopped) => RespondPostKeeps(c, s, k, denied, accepted, stopped);
    case AddDevice(u) => RecordKeeps(c, s, s.devices[u := DeviceCount(s.devices, u) + 1], u, DeviceAdded);
    case RemoveDevice(u) => QuietKeeps(c, s, Next(c, s, r));
    case Tick(d) => QuietKeeps(c, s, Next(c, s, r));
  }

  lemma SecondaryPostKeeps(c: Config, s: State, k: TokenId, a: Attempt, stopped: bool)
    requires Invariant(c, s)
    ensures Invariant(c, Next(c, s, SecondaryPost(k, a, stopped)))
  {
    hide Happened, Safe;
    if Present(c, s, k, User) {
      var t := s.tokens[k];
      var u, p := t.user, c.policies(t.user);
      assert Backed(c, s, t);
      var s1 := s.(tokens := s.tokens[k := Marked(t, a)]);
      QuietKeeps(c, s, s1);
      if Verdict(t, a) == Passed {
        var e := Event(s.now, u, ProviderPassed(k));
        RecordKeeps(c, s1, s1.devices, u, ProviderPassed(k));
        HappenedGrows(s.log, e, u, IS_PROVIDER, s.now);
        HappenedSince(s.log, u, IS_PRIMARY, t.minted - c.expire, s.now - 2 * c.expire);
        HappenedGrows(s.log, e, u, IS_PRIMARY, s.now - 2 * c.expire);
        if p.device && DeviceCount(s.devices, u) > 0 {
          HappenedSince(s.log, u, IS_DEVICE, t.minted, s.now - c.expire);
          HappenedGrows(s.log, e, u, IS_DEVICE, s.now - c.expire);
        }
        if !stopped {
          ProceedKeeps(c, Record(s1, u, ProviderPassed(k)), u, false, true);
        }
      }
    }
  }

  lemma RegisterPostKeeps(c: Config, s: State, k: TokenId, denied: bool, accepted: bool, stopped: bool)
    requires Invariant(c, s)
    ensures Invariant(c, Next(c, s, RegisterPost(k, denied, accepted, stopped)))
  {
    hide Happened, Safe;
    if Present(c, s, k, UserDeviceRegister) && !denied && CanFinish(s.tokens[k]) && accepted {
      var t := s.tokens[k];
      var u, p := t.user, c.policies(t.user);
      assert Backed(c, s, t);
      var devices := s.devices[u := DeviceCount(s.devices, u) + 1];
      var s1 := Record(s.(devices := devices), u, DeviceRegistered);
      var e := Event(s.now, u, DeviceRegistered);
      RecordKeeps(c, s, devices, u, DeviceRegistered);
      HappenedSince(s.log, u, IS_PRIMARY, t.minted - 2 * c.expire, s.now - 3 * c.expire);
      HappenedGrows(s.log, e, u, IS_PRIMARY, s.now - 3 * c.expire);
      HappenedGrows(s.log, e, u, IS_DEVICE, s.now - c.expire);
      HappenedGrows(s.log, e, u, IS_CEREMONY, s.now - c.expire);
      if p.provider.Some? {
        HappenedSince(s.log, u, IS_PROVIDER, t.minted, s.now - c.expire);
        HappenedGrows(s.log, e, u, IS_PROVIDER, s.now - c.expire);
      }
      RecordKeeps(c, s1, s1.devices, u, SessionMade);
    }
  }

  lemma RespondPostKeeps(c: Config, s: State, k: TokenId, denied: bool, accepted: bool, stopped: bool)
    requires Invariant(c, s)
    ensures Invariant(c, Next(c, s, RespondPost(k, denied, accepted, stopped)))
  {
    hide Happened, Safe;
    if Present(c, s, k, UserDevice) && !denied && CanFinish(s.tokens[k]) && accepted {
      var t := s.tokens[k];
      var u := t.user;
      assert Backed(c, s, t);
      var e := Event(s.now, u, DeviceShown);
      RecordKeeps(c, s, s.devices, u, DeviceShown);
      HappenedSince(s.log, u, IS_PRIMARY, t.minted, s.now - c.expire);
      HappenedGrows(s.log, e, u, IS_PRIMARY, s.now - c.expire);
      HappenedGrows(s.log, e, u, IS_CEREMONY, s.now);
      if !stopped {
        ProceedKeeps(c, Record(s, u, DeviceShown), u, true, false);
      }
    }
  }

  /** In every run, from any store of devices, every session comes after all the factors its user's policy asks for. */
  lemma {:induction false} EverySessionJustified(c: Config, s: State, requests: seq<Request>)
    requires Initial(s)
    ensures Invariant(c, Run(c, s, requests))
    ensures Safe(c, Run(c, s, requests).log)
  {
    hide Next;
    if requests != [] {
      var last := |requests| - 1;
      EverySessionJustified(c, s, requests[..last]);
      NextKeeps(c, Run(c, s, requests[..last]), requests[last]);
    }
  }

  // ---- Devices that arrive from elsewhere

  lemma ProceedWrites(c: Config, s: State, u: UserId, shown: bool, passed: bool)
    ensures Proceed(c, s, u, shown, passed).log in {s.log, s.log + [Event(s.now, u, SessionMade)]}
  {
  }

  /** At most a factor and a session, the factor first. */
  ghost predicate Tail(tail: seq<Event>, r: Request) {
    && |tail| <= 2 && (|tail| == 2 ==> tail[1].what.SessionMade?)
    && (forall i | 0 <= i < |tail| :: tail[i].what.DeviceAdded? ==> r.AddDevice?)
    && forall i | 0 <= i < |tail| && tail[i].what.ProviderPassed? ::
         i == 0 && r.SecondaryPost? && tail[i].what.token == r.token
  }

  lemma ProceedTail(c: Config, s: State, s1: State, e: Event, u: UserId, shown: bool, passed: bool, r: Request)
    returns (tail: seq<Event>)
    requires s1.log == s.log + [e] && Tail([e], r)
    ensures Proceed(c, s1, u, shown, passed).log == s.log + tail && Tail(tail, r)
  {
    ProceedWrites(c, s1, u, shown, passed);
    hide Proceed;
    tail := Proceed(c, s1, u, shown, passed).log[|s.log|..];
    var made := Event(s1.now, u, SessionMade);
    assert s.log + [e] + [made] == s.log + [e, made];
  }

  /** What one request can write. */
  lemma Writes(c: Config, s: State, r: Request) returns (tail: seq<Event>)
    ensures Next(c, s, r).log == s.log + tail && Tail(tail, r)
  {
    hide Verdict, Marked, Usable, CanBegin, CanFinish, DeviceCount, Proceed;
    tail := [];
    match r {
    case Primary(u, stopped) =>
      var e := Event(s.now, u, PrimaryApproved);
      tail := [e];
      if !stopped {
        tail := ProceedTail(c, s, Record(s, u, PrimaryApproved), e, u, false, false, r);
      }
    case SecondaryPost(k, a, stopped) =>
      if Present(c, s, k, User) && Verdict(s.tokens[k], a) == Passed {
        var t := s.tokens[k];
        var e := Event(s.now, t.user, ProviderPassed(k));
        tail := [e];
        if !stopped {
          var s1 := s.(tokens := s.tokens[k := Marked(t, a)]);
          tail := ProceedTail(c, s, Record(s1, t.user, ProviderPassed(k)), e, t.user, false, true, r);
        }
      }
    case RegisterPost(k, denied, accepted, stopped) =>
      if Present(c, s, k, UserDeviceRegister) && !denied && CanFinish(s.tokens[k]) && accepted {
        var u := s.tokens[k].user;
        tail := [Event(s.now, u, DeviceRegistered)] + (if stopped then [] else [Event(s.now, u, SessionMade)]);
      }
    case RespondPost(k, denied, accepted, stopped) =>
      if Present(c, s, k, UserDevice) && !denied && CanFinish(s.tokens[k]) && accepted {
        var u := s.tokens[k].user;
        var e := Event(s.now, u, DeviceShown);
        tail := [e];
        if !stopped {
          tail := ProceedTail(c, s, Record(s, u, DeviceShown), e, u, true, false, r);
        }
      }
    case AddDevice(u) => tail := [Event(s.now, u, DeviceAdded)];
    case _ =>
    }
  }

  const IS_ADDITION: What -> bool := (w: What) => w.DeviceAdded?

  /** A session of a user who owes a device comes after a ceremony of this console within one token lifetime, unless
      another console added a device for that very user within that time and a provider is asked for as well. */
  lemma DeviceFactorWasACeremony(c: Config, s: State, requests: seq<Request>, i: nat)
    requires Initial(s)
    requires var log := Run(c, s, requests).log;
      i < |log| && log[i].what.SessionMade? && c.policies(log[i].user).device
    ensures var log := Run(c, s, requests).log;
      var u, since := log[i].user, log[i].time - c.expire;
      || Happened(log[..i], u, IS_CEREMONY, since)
      || (c.policies(u).provider.Some? && Happened(log[..i], u, IS_ADDITION, since))
  {
    hide Run;
    var log := Run(c, s, requests).log;
    var u, since := log[i].user, log[i].time - c.expire;
    EverySessionJustified(c, s, requests);
    assert Justified(c, log[..i], u, log[i].time);
    var j :| 0 <= j < i && log[..i][j].user == u && log[..i][j].time >= since && IS_DEVICE(log[..i][j].what);
    assert IS_CEREMONY(log[..i][j].what) || IS_ADDITION(log[..i][j].what);
  }

  /** Every session of `u` comes after a ceremony of this console within one token lifetime. */
  ghost predicate CeremonyFirst(c: Config, log: Log, u: UserId) {
    forall i | 0 <= i < |log| && log[i] == Event(log[i].time, u, SessionMade) ::
      Happened(log[..i], u, IS_CEREMONY, log[i].time - c.expire)
  }

  /** For a user who owes a device, that holds in every run, whatever other consoles do, exactly when the policy asks
      for no provider: only the answering of a provider leaves the time in which an added device ends the wait. */
  lemma CeremonyFirstIffNoProvider(c: Config, u: UserId)
    requires c.policies(u).device
    ensures (forall s, requests | Initial(s) :: CeremonyFirst(c, Run(c, s, requests).log, u))
       <==> c.policies(u).provider.None?
  {
    hide Run, Happened;
    if c.policies(u).provider.None? {
      forall s, requests | Initial(s)
        ensures CeremonyFirst(c, Run(c, s, requests).log, u)
      {
        var log := Run(c, s, requests).log;
        forall i | 0 <= i < |log| && log[i] == Event(log[i].time, u, SessionMade)
          ensures Happened(log[..i], u, IS_CEREMONY, log[i].time - c.expire)
        {
          DeviceFactorWasACeremony(c, s, requests, i);
        }
      }
    } else {
      var s := State(0, 0, map[], map[], []);
      var requests := AddedDeviceEndsTheWait(c, s, u, c.policies(u).provider.value);
      var log := Run(c, s, requests).log;
      assert log[3] == Event(log[3].time, u, SessionMade);
      NotBefore(log, 3, u, log[3].time - c.expire);
      assert !CeremonyFirst(c, log, u);
    }
  }

  lemma NotBefore(log: Log, i: nat, u: UserId, since: int)
    requires i <= |log| && !Happened(log, u, IS_CEREMONY, since)
    ensures !Happened(log[..i], u, IS_CEREMONY, since)
  {
    assert forall j | 0 <= j < i :: log[..i][j] == log[j];
  }

  lemma RunOneMore(c: Config, s: State, requests: seq<Request>, r: Request)
    ensures Run(c, s, requests + [r]) == Next(c, Run(c, s, requests), r)
  {
    assert (requests + [r])[..|requests|] == requests;
  }

  /** A device added while the provider is being answered lets the login of a user who had none end with a session of
      that user and no device ceremony. */
  lemma AddedDeviceEndsTheWait(c: Config, s: State, u: UserId, provider: nat) returns (requests: seq<Request>)
    requires Initial(s) && c.policies(u) == Policy(true, Some(provider)) && DeviceCount(s.devices, u) == 0
    ensures requests == [Primary(u, false), AddDevice(u), SecondaryPost(s.next, Passing(), false)]
    ensures var log := Run(c, s, requests).log;
      |log| == 4 && log[3] == Event(s.now, u, SessionMade) && forall since :: !Happened(log, u, IS_CEREMONY, since)
  {
    var r1, r2, r3 := Primary(u, false), AddDevice(u), SecondaryPost(s.next, Passing(), false);
    requests := [r1, r2, r3];
    RunFour(c, s, r1, r2, r3, r3);
    hide Run;
    var k := s.next;
    var s1 := Next(c, s, r1);
    assert s1 == State(s.now, k + 1, s.tokens[k := NewToken(u, User, 0, External(provider), s.now)], s.devices,
                       [Event(s.now, u, PrimaryApproved)]);
    var s2 := AddedState(c, s1, u);
    FinishWithProvider(c, s2, k, u, External(provider));
  }

  lemma AddedState(c: Config, s: State, u: UserId) returns (s': State)
    ensures s' == Next(c, s, AddDevice(u))
    ensures s'.log == s.log + [Event(s.now, u, DeviceAdded)] && s'.tokens == s.tokens && s'.now == s.now
    ensures DeviceCount(s'.devices, u) > 0
  {
    s' := Next(c, s, AddDevice(u));
  }

  lemma FinishWithProvider(c: Config, s: State, k: TokenId, u: UserId, provider: Provider)
    requires k in s.tokens && s.tokens[k] == NewToken(u, User, 0, provider, s.now)
    requires DeviceCount(s.devices, u) > 0
    ensures Next(c, s, SecondaryPost(k, Passing(), false)).log
         == s.log + [Event(s.now, u, ProviderPassed(k)), Event(s.now, u, SessionMade)]
  {
  }

  // ---- Which request does what

  /** The request of `u` is not turned away or broken off, and its factor has been given. */
  predicate Gives(c: Config, s: State, r: Request, u: UserId) {
    match r
    case Primary(v, stopped) => v == u && !stopped
    case SecondaryPost(k, a, stopped) =>
      !stopped && Present(c, s, k, User) && s.tokens[k].user == u && Verdict(s.tokens[k], a) == Passed
    case RegisterPost(k, denied, accepted, stopped) =>
      !stopped && !denied && accepted && Present(c, s, k, UserDeviceRegister) && s.tokens[k].user == u &&
      CanFinish(s.tokens[k])
    case RespondPost(k, denied, accepted, stopped) =>
      !stopped && !denied && accepted && Present(c, s, k, UserDevice) && s.tokens[k].user == u && CanFinish(s.tokens[k])
    case _ => false
  }

  /** After this request the policy leaves nothing to ask for. */
  predicate Last(p: Policy, hasDevice: bool, r: Request) {
    match r
    case Primary(_, _) => !p.device && p.provider.None?
    case SecondaryPost(_, _, _) => !p.device || hasDevice
    case RegisterPost(_, _, _, _) => true
    case RespondPost(_, _, _, _) => p.provider.None?
    case _ => false
  }

  ghost predicate SessionFor(s: State, s': State, u: UserId) {
    exists i :: |s.log| <= i < |s'.log| && s'.log[i] == Event(s.now, u, SessionMade)
  }

  ghost predicate TokenFor(s: State, s': State, u: UserId, kind: Kind, provider: Provider) {
    s'.next == s.next + 1 && s.next in s'.tokens && s'.tokens[s.next] == NewToken(u, kind, 0, provider, s.now)
  }

  /** A session for `u` exactly when the factor is given for `u` and the policy leaves nothing to ask for; otherwise
      exactly the token for what is asked next, and only when the factor was given. */
  ghost predicate Makes(c: Config, s: State, r: Request, u: UserId) {
    var s', p, has := Next(c, s, r), c.policies(u), DeviceCount(s.devices, u) > 0;
    && (SessionFor(s, s', u) <==> Gives(c, s, r, u) && Last(p, has, r))
    && (TokenFor(s, s', u, UserDevice, DeviceProvider) <==> Gives(c, s, r, u) && r.Primary? && p.device && has)
    && (forall q: nat :: TokenFor(s, s', u, User, External(q)) <==>
         Gives(c, s, r, u) && p.provider == Some(q) && (r.RespondPost? || (r.Primary? && !(p.device && has))))
    && (TokenFor(s, s', u, UserDeviceRegister, DeviceProvider) <==>
         Gives(c, s, r, u) && p.device && !has && (r.SecondaryPost? || (r.Primary? && p.provider.None?)))
  }

  /** Nothing that is written is a session. */
  lemma NoSession(s: State, s': State, u: UserId)
    requires s'.log == s.log || exists e: Event :: s'.log == s.log + [e] && !e.what.SessionMade?
    ensures !SessionFor(s, s', u)
  {
  }

  /** What the stages make, after the factor `e` of `u` has been written. */
  lemma ProceedMakes(c: Config, s0: State, s: State, e: Event, u: UserId, shown: bool, passed: bool, v: UserId)
    requires s.log == s0.log + [e] && s.now == s0.now && s.next == s0.next && !e.what.SessionMade?
    ensures var p, has, s' := c.policies(u), DeviceCount(s.devices, u) > 0, Proceed(c, s, u, shown, passed);
      && (SessionFor(s0, s', v) <==>
           v == u && (passed || p.provider.None?) && (!p.device || shown || (has && passed)))
      && (TokenFor(s0, s', v, UserDevice, DeviceProvider) <==> v == u && p.device && has && !shown && !passed)
      && (forall q: nat :: TokenFor(s0, s', v, User, External(q)) <==>
           v == u && p.provider == Some(q) && !passed && (!p.device || !has || shown))
      && (TokenFor(s0, s', v, UserDeviceRegister, DeviceProvider) <==>
           v == u && p.device && !has && !shown && (passed || p.provider.None?))
  {
    hide DeviceCount;
    var s', made := Proceed(c, s, u, shown, passed), Event(s.now, u, SessionMade);
    assert s'.log[|s0.log|] == e;
    assert s'.log != s.log ==> s'.log[|s0.log| + 1] == made;
  }

  lemma SecondaryPostMakes(c: Config, s: State, k: TokenId, a: Attempt, stopped: bool, u: UserId)
    ensures Makes(c, s, SecondaryPost(k, a, stopped), u)
  {
    hide Verdict, Marked, Usable, Proceed, SessionFor, DeviceCount;
    NoSession(s, s, u);
    if Present(c, s, k, User) {
      var v := s.tokens[k].user;
      var s1 := s.(tokens := s.tokens[k := Marked(s.tokens[k], a)]);
      NoSession(s, s1, u);
      NoSession(s, Record(s1, v, ProviderPassed(k)), u);
      ProceedMakes(c, s, Record(s1, v, ProviderPassed(k)), Event(s.now, v, ProviderPassed(k)), v, false, true, u);
    }
  }

  lemma RegisterPostMakes(c: Config, s: State, k: TokenId, denied: bool, accepted: bool, stopped: bool, u: UserId)
    ensures Makes(c, s, RegisterPost(k, denied, accepted, stopped), u)
  {
    hide Usable, CanFinish, DeviceCount;
    var s' := Next(c, s, RegisterPost(k, denied, accepted, stopped));
    if s'.log != s.log {
      var e := Event(s.now, s.tokens[k].user, DeviceRegistered);
      assert s'.log[|s.log|] == e;
      assert !stopped ==> s'.log[|s.log| + 1] == Event(s.now, s.tokens[k].user, SessionMade);
    }
  }

  lemma RespondPostMakes(c: Config, s: State, k: TokenId, denied: bool, accepted: bool, stopped: bool, u: UserId)
    ensures Makes(c, s, RespondPost(k, denied, accepted, stopped), u)
  {
    hide Usable, CanFinish, Proceed, SessionFor, DeviceCount;
    NoSession(s, s, u);
    if Present(c, s, k, UserDevice) {
      var v := s.tokens[k].user;
      NoSession(s, Record(s, v, DeviceShown), u);
      ProceedMakes(c, s, Record(s, v, DeviceShown), Event(s.now, v, DeviceShown), v, true, false, u);
    }
  }

  lemma RequestMakes(c: Config, s: State, r: Request, u: UserId)
    ensures Makes(c, s, r, u)
  {
    hide Verdict, Marked, Usable, CanBegin, CanFinish, Proceed, SessionFor, DeviceCount;
    match r {
      case Primary(v, stopped) =>
        var e := Event(s.now, v, PrimaryApproved);
        NoSession(s, Record(s, v, PrimaryApproved), u);
        ProceedMakes(c, s, Record(s, v, PrimaryApproved), e, v, false, false, u);
      case SecondaryPost(k, a, stopped) => SecondaryPostMakes(c, s, k, a, stopped, u);
      case RegisterPost(k, denied, accepted, stopped) => RegisterPostMakes(c, s, k, denied, accepted, stopped, u);
      case RespondPost(k, denied, accepted, stopped) => RespondPostMakes(c, s, k, denied, accepted, stopped, u);
      case _ => NoSession(s, Next(c, s, r), u);
    }
  }

  /** Turned away or broken off. */
  predicate Ended(r: Request) {
    match r
    case Primary(_, stopped) => stopped
    case SecondaryPost(_, _, stopped) => stopped
    case RegisterPost(_, denied, _, stopped) => denied || stopped
    case RespondPost(_, denied, _, stopped) => denied || stopped
    case _ => false
  }

  /** A request that is turned away or broken off gets no token and no session, of whatever kind and for whomever. */
  lemma EndedGetsNothing(c: Config, s: State, r: Request, u: UserId)
    requires Ended(r)
    ensures Next(c, s, r).next == s.next && Next(c, s, r).tokens.Keys == s.tokens.Keys
    ensures !SessionFor(s, Next(c, s, r), u)
  {
    hide Verdict, Marked, Usable, CanFinish, SessionFor;
    RequestMakes(c, s, r, u);
  }

  /** The devices of `u` grow by one with an accepted registration of `u`, whether or not the request then breaks off,
      and otherwise only by what other consoles do. */
  lemma DevicesAfter(c: Config, s: State, r: Request, u: UserId)
    ensures var n, n' := DeviceCount(s.devices, u), DeviceCount(Next(c, s, r).devices, u);
      n' == match r
        case RegisterPost(k, denied, accepted, _) =>
          if !denied && accepted && Present(c, s, k, UserDeviceRegister) && s.tokens[k].user == u &&
             CanFinish(s.tokens[k])
          then n + 1 else n
        case AddDevice(v) => if v == u then n + 1 else n
        case RemoveDevice(v) => if v == u && n > 0 then n - 1 else n
        case _ => n
  {
    hide Verdict, Marked, Usable, CanFinish;
  }

  /** A stored token changes only by a request that names it: by an attempt, to what the attempt leaves, and by the
      beginning of a ceremony. */
  lemma TokenAfter(c: Config, s: State, r: Request, k: TokenId)
    requires k in s.tokens && k < s.next
    ensures k in Next(c, s, r).tokens
    ensures var t := s.tokens[k];
      Next(c, s, r).tokens[k] == match r
        case SecondaryPost(j, a, _) => if j == k && Present(c, s, k, User) then Marked(t, a) else t
        case RegisterGet(j, begun) =>
          if j == k && begun && Present(c, s, k, UserDeviceRegister) && CanBegin(t) then t.(requested := true) else t
        case RespondGet(j, begun) =>
          if j == k && begun && Present(c, s, k, UserDevice) && CanBegin(t) then t.(requested := true) else t
        case _ => t
  {
    hide Verdict, Marked, Usable, CanBegin, CanFinish, DeviceCount;
  }

  // ---- Every event of a run has its request

  /** The request, made in `s`, by which such an event is written. */
  ghost predicate Caused(c: Config, s: State, r: Request, e: Event) {
    match e.what
    case PrimaryApproved => r.Primary? && r.user == e.user
    case ProviderPassed(k) =>
      && r.SecondaryPost? && r.token == k && Present(c, s, k, User) && s.tokens[k].user == e.user
      && !s.tokens[k].disabled && r.attempt.answer == Some(true)
    case DeviceShown =>
      && r.RespondPost? && Present(c, s, r.token, UserDevice) && s.tokens[r.token].user == e.user
      && s.tokens[r.token].requested && !r.denied && r.accepted
    case DeviceRegistered =>
      && r.RegisterPost? && Present(c, s, r.token, UserDeviceRegister) && s.tokens[r.token].user == e.user
      && s.tokens[r.token].requested && !r.denied && r.accepted
    case DeviceAdded => r == AddDevice(e.user)
    case SessionMade =>
      !Ended(r) && Gives(c, s, r, e.user) && Last(c.policies(e.user), DeviceCount(s.devices, e.user) > 0, r)
  }

  lemma EventIsCaused(c: Config, s: State, r: Request, i: nat)
    requires |s.log| <= i < |Next(c, s, r).log|
    ensures s.log <= Next(c, s, r).log && Caused(c, s, r, Next(c, s, r).log[i])
  {
    var tail := Writes(c, s, r);
    var e := Next(c, s, r).log[i];
    EventTime(c, s, r, i);
    if e.what.SessionMade? {
      RequestMakes(c, s, r, e.user);
      hide Next, Gives, Present, Last;
      assert Gives(c, s, r, e.user);
      GivesIsNotEnded(c, s, r, e.user);
    } else {
      FactorIsCaused(c, s, r, i);
    }
  }

  lemma EventTime(c: Config, s: State, r: Request, i: nat)
    requires |s.log| <= i < |Next(c, s, r).log|
    ensures Next(c, s, r).log[i].time == s.now
  {
    hide Verdict, Marked, Usable, CanFinish, DeviceCount;
  }

  lemma GivesIsNotEnded(c: Config, s: State, r: Request, u: UserId)
    requires Gives(c, s, r, u)
    ensures !Ended(r)
  {
    hide Present;
  }

  lemma FactorIsCaused(c: Config, s: State, r: Request, i: nat)
    requires |s.log| <= i < |Next(c, s, r).log| && !Next(c, s, r).log[i].what.SessionMade?
    ensures Caused(c, s, r, Next(c, s, r).log[i])
  {
    if r.SecondaryPost? && r.token in s.tokens {
      PassedIff(s.tokens[r.token], r.attempt);
    }
    hide Verdict, Marked, Usable, DeviceCount;
  }

  /** In every run, each event in the log was written by one of the requests, at a moment when that request had what the
      event says: so a session belongs to a request that was neither turned away nor broken off, a passed provider to an
      attempt answered yes, and a device to a response that was accepted. */
  lemma {:induction false} EveryEventIsCaused(c: Config, s: State, requests: seq<Request>, i: nat) returns (j: nat)
    requires Initial(s) && i < |Run(c, s, requests).log|
    ensures j < |requests|
    ensures |Run(c, s, requests[..j]).log| <= i < |Run(c, s, requests[..j + 1]).log|
    ensures Caused(c, Run(c, s, requests[..j]), requests[j], Run(c, s, requests).log[i])
  {
    hide Next, Caused;
    var n := |requests| - 1;
    var before := Run(c, s, requests[..n]);
    var tail := Writes(c, before, requests[n]);
    assert requests[..n + 1] == requests;
    if i < |before.log| {
      j := EveryEventIsCaused(c, s, requests[..n], i);
      assert requests[..n][..j] == requests[..j] && requests[..n][..j + 1] == requests[..j + 1];
    } else {
      j := n;
      EventIsCaused(c, before, requests[n], i);
    }
  }

  lemma RequestedStays(c: Config, s: State, r: Request, k: TokenId)
    requires k in Next(c, s, r).tokens && Next(c, s, r).tokens[k].requested
    ensures (k in s.tokens && s.tokens[k].requested) || r in {RegisterGet(k, true), RespondGet(k, true)}
  {
    hide Verdict, Usable, DeviceCount;
  }

  lemma {:induction false} RequestedWasBegun(c: Config, s: State, requests: seq<Request>, k: TokenId) returns (j: nat)
    requires Initial(s)
    requires k in Run(c, s, requests).tokens && Run(c, s, requests).tokens[k].requested
    ensures j < |requests| && requests[j] in {RegisterGet(k, true), RespondGet(k, true)}
  {
    hide Next;
    var n := |requests| - 1;
    var before := Run(c, s, requests[..n]);
    RequestedStays(c, before, requests[n], k);
    if requests[n] in {RegisterGet(k, true), RespondGet(k, true)} {
      j := n;
    } else {
      j := RequestedWasBegun(c, s, requests[..n], k);
    }
  }

  /** Every ceremony in the log was begun by an earlier request on the token with which it was ended. */
  lemma CeremonyWasBegun(c: Config, s: State, requests: seq<Request>, i: nat) returns (b: nat, e: nat)
    requires Initial(s) && i < |Run(c, s, requests).log| && IS_CEREMONY(Run(c, s, requests).log[i].what)
    ensures b < e < |requests|
    ensures (requests[e].RespondPost? || requests[e].RegisterPost?) && requests[e].accepted && !requests[e].denied
    ensures requests[b] in {RegisterGet(requests[e].token, true), RespondGet(requests[e].token, true)}
  {
    hide Run, Usable;
    e := EveryEventIsCaused(c, s, requests, i);
    b := RequestedWasBegun(c, s, requests[..e], requests[e].token);
  }

  // ---- Tokens are spent once

  ghost predicate PassedAreDisabled(s: State) {
    && (forall k | k in s.tokens :: k < s.next)
    && (forall i | 0 <= i < |s.log| && s.log[i].what.ProviderPassed? ::
         var k := s.log[i].what.token; k in s.tokens && s.tokens[k].disabled)
  }

  ghost predicate PassedOnce(log: Log) {
    forall i, j | 0 <= i < j < |log| && log[i].what.ProviderPassed? :: log[j].what != log[i].what
  }

  lemma ProceedTokens(c: Config, s: State, u: UserId, shown: bool, passed: bool)
    requires forall k | k in s.tokens :: k < s.next
    ensures var s' := Proceed(c, s, u, shown, passed);
      && (forall k | k in s'.tokens :: k < s'.next)
      && (forall k | k in s.tokens :: k in s'.tokens && s'.tokens[k] == s.tokens[k])
  {
    hide DeviceCount;
  }

  lemma TokensStay(c: Config, s: State, r: Request)
    requires forall k | k in s.tokens :: k < s.next
    ensures forall k | k in Next(c, s, r).tokens :: k < Next(c, s, r).next
    ensures forall k | k in s.tokens ::
      k in Next(c, s, r).tokens && (s.tokens[k].disabled ==> Next(c, s, r).tokens[k].disabled)
  {
    hide Verdict, Usable, CanBegin, CanFinish, DeviceCount, Proceed;
    match r {
      case Primary(u, stopped) => ProceedTokens(c, Record(s, u, PrimaryApproved), u, false, false);
      case SecondaryPost(k, a, stopped) =>
        if k in s.tokens {
          var t := s.tokens[k];
          var s1 := s.(tokens := s.tokens[k := Marked(t, a)]);
          ProceedTokens(c, Record(s1, t.user, ProviderPassed(k)), t.user, false, true);
        }
      case RespondPost(k, denied, accepted, stopped) =>
        if k in s.tokens {
          ProceedTokens(c, Record(s, s.tokens[k].user, DeviceShown), s.tokens[k].user, true, false);
        }
      case _ =>
    }
  }

  lemma PassingDisables(c: Config, s: State, k: TokenId, a: Attempt, stopped: bool)
    requires forall j | j in s.tokens :: j < s.next
    ensures var s' := Next(c, s, SecondaryPost(k, a, stopped));
      |s'.log| > |s.log| ==> k in s.tokens && !s.tokens[k].disabled && k in s'.tokens && s'.tokens[k].disabled
  {
  }

  lemma NextPassesOnce(c: Config, s: State, r: Request)
    requires PassedAreDisabled(s) && PassedOnce(s.log)
    ensures PassedAreDisabled(Next(c, s, r)) && PassedOnce(Next(c, s, r).log)
  {
    hide Next;
    var s' := Next(c, s, r);
    var tail := Writes(c, s, r);
    TokensStay(c, s, r);
    if r.SecondaryPost? {
      PassingDisables(c, s, r.token, r.attempt, r.stopped);
    }
    assert forall i | 0 <= i < |s.log| :: s'.log[i] == s.log[i];
    assert forall i | |s.log| <= i < |s'.log| :: s'.log[i] == tail[i - |s.log|];
  }

  /** In every run a secondary token completes at most one provider factor. */
  lemma {:induction false} EachTokenPassesOnce(c: Config, s: State, requests: seq<Request>)
    requires Initial(s)
    ensures PassedAreDisabled(Run(c, s, requests)) && PassedOnce(Run(c, s, requests).log)
  {
    hide Next, PassedAreDisabled, PassedOnce;
    if requests == [] {
      NothingPassed(s);
    } else {
      var last := |requests| - 1;
      EachTokenPassesOnce(c, s, requests[..last]);
      NextPassesOnce(c, Run(c, s, requests[..last]), requests[last]);
    }
  }

  lemma NothingPassed(s: State)
    requires Initial(s)
    ensures PassedAreDisabled(s) && PassedOnce(s.log)
  {
  }

  // ---- The factors suffice

  /** The requests of a user who answers everything that is asked. */
  function Answers(p: Policy, hasDevice: bool, u: UserId, k: TokenId): seq<Request> {
    if p.device && hasDevice then
      [Primary(u, false), RespondGet(k, true), RespondPost(k, false, true, false)]
      + (if p.provider.Some? then [SecondaryPost(k + 1, Passing(), false)] else [])
    else if p.device then
      if p.provider.Some? then
        [Primary(u, false), SecondaryPost(k, Passing(), false),
         RegisterGet(k + 1, true), RegisterPost(k + 1, false, true, false)]
      else [Primary(u, false), RegisterGet(k, true), RegisterPost(k, false, true, false)]
    else if p.provider.Some? then [Primary(u, false), SecondaryPost(k, Passing(), false)]
    else [Primary(u, false)]
  }

  ghost predicate Granted(s: State, s': State, u: UserId) {
    |s'.log| > |s.log| && s'.log[|s'.log| - 1] == Event(s.now, u, SessionMade)
  }

  /** Since `s`, in no time and with the same devices, the newest token has become an unused one of this kind. */
  ghost predicate Asked(s: State, s': State, u: UserId, kind: Kind, provider: Provider) {
    && s'.now == s.now && s'.devices == s.devices && |s'.log| > |s.log| && s'.next > 0
    && s'.next - 1 in s'.tokens && s'.tokens[s'.next - 1] == NewToken(u, kind, 0, provider, s.now)
  }

  ghost predicate Demanded(c: Config, s: State, s': State, u: UserId, stage: Stage)
    requires stage.AskProvider? ==> c.policies(u).provider.Some?
  {
    match stage
    case AskDevice => Asked(s, s', u, UserDevice, DeviceProvider)
    case AskProvider => Asked(s, s', u, User, External(c.policies(u).provider.value))
    case AskRegister => Asked(s, s', u, UserDeviceRegister, DeviceProvider)
    case Grant => Granted(s, s', u)
  }

  lemma ProceedDemands(c: Config, s0: State, s: State, u: UserId, shown: bool, passed: bool)
    requires s.now == s0.now && s.devices == s0.devices && |s.log| > |s0.log|
    ensures var stage := Demand(c.policies(u), DeviceCount(s.devices, u) > 0, shown, passed);
            Demanded(c, s0, Proceed(c, s, u, shown, passed), u, stage)
    ensures var stage := Demand(c.policies(u), DeviceCount(s.devices, u) > 0, shown, passed);
            Proceed(c, s, u, shown, passed).next == s.next + (if stage.Grant? then 0 else 1)
  {
  }

  lemma PrimaryStep(c: Config, s: State, u: UserId)
    ensures var stage := Demand(c.policies(u), DeviceCount(s.devices, u) > 0, false, false);
            var s' := Next(c, s, Primary(u, false));
            Demanded(c, s, s', u, stage) && (!stage.Grant? ==> s'.next == s.next + 1)
  {
    hide Demanded;
    ProceedDemands(c, s, Record(s, u, PrimaryApproved), u, false, false);
  }

  lemma ProviderStep(c: Config, s0: State, s: State, u: UserId, provider: Provider)
    requires Asked(s0, s, u, User, provider)
    ensures var stage := Demand(c.policies(u), DeviceCount(s.devices, u) > 0, false, true);
            var s' := Next(c, s, SecondaryPost(s.next - 1, Passing(), false));
            Demanded(c, s0, s', u, stage) && (!stage.Grant? ==> s'.next == s.next + 1)
  {
    hide Demanded;
    var k := s.next - 1;
    var s1 := s.(tokens := s.tokens[k := Marked(s.tokens[k], Passing())]);
    ProceedDemands(c, s0, Record(s1, u, ProviderPassed(k)), u, false, true);
  }

  lemma RegisterSteps(c: Config, s0: State, s: State, u: UserId)
    requires Asked(s0, s, u, UserDeviceRegister, DeviceProvider)
    ensures var k := s.next - 1;
            Granted(s0, Next(c, Next(c, s, RegisterGet(k, true)), RegisterPost(k, false, true, false)), u)
  {
  }

  lemma RespondSteps(c: Config, s0: State, s: State, u: UserId)
    requires Asked(s0, s, u, UserDevice, DeviceProvider)
    ensures var stage := Demand(c.policies(u), DeviceCount(s.devices, u) > 0, true, false);
            var k := s.next - 1;
            var s' := Next(c, Next(c, s, RespondGet(k, true)), RespondPost(k, false, true, false));
            Demanded(c, s0, s', u, stage) && (!stage.Grant? ==> s'.next == s.next + 1)
  {
    hide Demanded;
    var k := s.next - 1;
    var s1 := s.(tokens := s.tokens[k := s.tokens[k].(requested := true)]);
    assert Next(c, s, RespondGet(k, true)) == s1;
    ProceedDemands(c, s0, Record(s1, u, DeviceShown), u, true, false);
  }

  lemma RunTwo(c: Config, s: State, r1: Request, r2: Request)
    ensures Run(c, s, [r1]) == Next(c, s, r1)
    ensures Run(c, s, [r1, r2]) == Next(c, Next(c, s, r1), r2)
  {
    hide Next;
    RunOneMore(c, s, [], r1);
    RunOneMore(c, s, [r1], r2);
    assert [] + [r1] == [r1] && [r1] + [r2] == [r1, r2];
  }

  lemma RunFour(c: Config, s: State, r1: Request, r2: Request, r3: Request, r4: Request)
    ensures Run(c, s, [r1, r2, r3]) == Next(c, Next(c, Next(c, s, r1), r2), r3)
    ensures Run(c, s, [r1, r2, r3, r4]) == Next(c, Next(c, Next(c, Next(c, s, r1), r2), r3), r4)
  {
    hide Next;
    RunTwo(c, s, r1, r2);
    RunOneMore(c, s, [r1, r2], r3);
    RunOneMore(c, s, [r1, r2, r3], r4);
    assert [r1, r2] + [r3] == [r1, r2, r3] && [r1, r2, r3] + [r4] == [r1, r2, r3, r4];
  }

  /** Whatever the policy, such a user ends with a session. */
  lemma AnsweringGrants(c: Config, s: State, u: UserId)
    ensures Granted(s, Run(c, s, Answers(c.policies(u), DeviceCount(s.devices, u) > 0, u, s.next)), u)
  {
    hide Next, Run, Passing, Granted, DeviceCount;
    var p, k, hasDevice := c.policies(u), s.next, DeviceCount(s.devices, u) > 0;
    var primary := Primary(u, false);
    var pass, pass' := SecondaryPost(k, Passing(), false), SecondaryPost(k + 1, Passing(), false);
    var s1 := Next(c, s, primary);
    PrimaryStep(c, s, u);
    match Demand(p, hasDevice, false, false)
    case Grant => RunTwo(c, s, primary, primary);
    case AskRegister =>
      var r2, r3 := RegisterGet(k, true), RegisterPost(k, false, true, false);
      RunFour(c, s, primary, r2, r3, r3);
      RegisterSteps(c, s, s1, u);
    case AskDevice =>
      var r2, r3 := RespondGet(k, true), RespondPost(k, false, true, false);
      RunFour(c, s, primary, r2, r3, pass');
      assert [primary, r2, r3] + [pass'] == [primary, r2, r3, pass'] && [primary, r2, r3] + [] == [primary, r2, r3];
      RespondSteps(c, s, s1, u);
      if p.provider.Some? {
        ProviderStep(c, s, Next(c, Next(c, s1, r2), r3), u, External(p.provider.value));
      }
    case AskProvider =>
      RunTwo(c, s, primary, pass);
      ProviderStep(c, s, s1, u, External(p.provider.value));
      if p.device {
        var r3, r4 := RegisterGet(k + 1, true), RegisterPost(k + 1, false, true, false);
        RunFour(c, s, primary, pass, r3, r4);
        RegisterSteps(c, s, Next(c, s1, pass), u);
      }
  }
}
