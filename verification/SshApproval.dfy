/** Approval of SSH challenges: challenge/challenge.go and the handlers of uhandlers/ssh.go.

    A handler reads the challenge into a copy and answers it later with an update that applies only while the stored
    state is still empty. Requests therefore come in two steps, one that loads and one that finishes, and any number
    of them may be under way at once with copies of any age. */
module SshApproval {
  import opened Wrappers
  import opened Secondary

  type ChallengeId = nat
  type CertificateId = nat

  datatype Answer = Pending | Approved | Unavailable | Denied

  datatype Document = Document(state: Answer, certificate: Option<CertificateId>, pubKey: string, made: int)

  datatype Certificate = Certificate(user: UserId, pubKey: string, count: nat, made: int)

  /** One access policy of a user's authorities. */
  datatype Policy = Policy(disabled: bool, device: bool, provider: Option<nat>, smartCard: bool)

  /** What the smart card lookup finds for the challenge's key. */
  datatype Card = NotACard | Unregistered | Mismatched | Matched

  /** How far the presenter has come: first call, after a device response, after a provider factor. The last two
      name the user the token was made for. */
  datatype Basis = Direct | ByDevice(owner: UserId) | BySecondary(owner: UserId)

  datatype Call = Approving(basis: Basis) | Denying

  /** A request under way: who makes it, on which challenge, with which copy. */
  datatype Flight = Flight(user: UserId, challenge: ChallengeId, copy: Document, call: Call)

  /** Answers of the foreign calls: policy validation, smart card, certificates issued, devices of the user, and
      whether the request breaks off before its last token is made. */
  datatype Env = Env(denied: bool, card: Card, issued: nat, hasDevice: bool, stopped: bool)

  datatype Event =
    | DeviceShown(challenge: ChallengeId, owner: UserId)
    | ProviderPassed(challenge: ChallengeId, owner: UserId)
    | Borrowed(challenge: ChallengeId, owner: UserId, presenter: UserId)  // the owner's token, presented by another
    | Answered(challenge: ChallengeId, user: UserId, state: Answer, card: Card)

  type Log = seq<Event>

  datatype State = State(
    now: int,
    next: nat,
    tokens: map<TokenId, Token>,
    challenges: map<ChallengeId, Document>,
    certificates: map<CertificateId, Certificate>,
    flights: map<nat, Flight>,
    log: Log)

  datatype Config = Config(policies: UserId -> seq<Policy>, expire: nat, keyLimit: nat)

  /** Ages in seconds at which the stores' indexes may remove a challenge and a certificate. */
  const CHALLENGE_LIFE: int := 6 * 60
  const CERTIFICATE_LIFE: int := 168 * 3600

  // ---- What the policies ask for

  predicate DeviceRequired(ps: seq<Policy>) {
    exists i :: 0 <= i < |ps| && !ps[i].disabled && ps[i].device
  }

  predicate SmartCardRequired(ps: seq<Policy>) {
    exists i :: 0 <= i < |ps| && !ps[i].disabled && ps[i].smartCard
  }

  /** The provider of the first enabled policy that names one. */
  function FirstProvider(ps: seq<Policy>): Option<nat> {
    if ps == [] then None
    else if !ps[0].disabled && ps[0].provider.Some? then ps[0].provider
    else FirstProvider(ps[1..])
  }

  lemma {:induction false} FirstProviderIsSome(ps: seq<Policy>)
    ensures FirstProvider(ps).Some? <==> exists i :: 0 <= i < |ps| && !ps[i].disabled && ps[i].provider.Some?
  {
    if ps != [] {
      FirstProviderIsSome(ps[1..]);
      if i :| 0 <= i < |ps| && !ps[i].disabled && ps[i].provider.Some? && i > 0 {
        assert ps[1..][i - 1] == ps[i];
      }
      if i :| 0 <= i < |ps[1..]| && !ps[1..][i].disabled && ps[1..][i].provider.Some? {
        assert ps[i + 1] == ps[1..][i];
      }
    }
  }

  // ---- Specification

  /** The factors still missing for this basis. */
  predicate Gated(ps: seq<Policy>, basis: Basis) {
    && !basis.BySecondary?
    && ((DeviceRequired(ps) && basis.Direct?) || FirstProvider(ps).Some?)
  }

  predicate CardRefused(ps: seq<Policy>, card: Card) {
    card in {Unregistered, Mismatched} || (SmartCardRequired(ps) && card == NotACard)
  }

  /** Which answer a call tries to write: none when it is refused because the copy is answered, or when factors are
      missing. */
  function Attempted(ps: seq<Policy>, call: Call, copy: Document, env: Env): Answer {
    if call.Approving? && !env.denied && Gated(ps, call.basis) then Pending
    else if copy.state != Pending then Pending
    else if call.Denying? || env.denied || CardRefused(ps, env.card) then Denied
    else if env.issued == 0 then Unavailable
    else Approved
  }

  /** The conditional update: nothing happens unless the stored state is still empty. */
  function Settle(s: State, f: Flight, answer: Answer, env: Env): State {
    var certificates :=
      if answer == Approved then s.certificates[s.next := Certificate(f.user, f.copy.pubKey, env.issued, s.now)]
      else s.certificates;
    var s1 := s.(certificates := certificates, next := s.next + 1);
    if answer == Pending then s
    else if f.challenge in s.challenges && s.challenges[f.challenge].state == Pending then
      s1.(challenges := s.challenges[f.challenge :=
            Document(answer, if answer == Approved then Some(s.next) else None, f.copy.pubKey, f.copy.made)],
          log := s.log + [Answered(f.challenge, f.user, answer, env.card)])
    else s1
  }

  function MintFor(s: State, u: UserId, kind: Kind, challenge: ChallengeId, provider: Provider): State {
    s.(next := s.next + 1, tokens := s.tokens[s.next := NewToken(u, kind, challenge, provider, s.now)])
  }

  /** The token asked for when factors are missing. */
  function Ask(c: Config, s: State, f: Flight, env: Env): State {
    var ps := c.policies(f.user);
    if env.stopped then s
    else if DeviceRequired(ps) && f.call.Approving? && f.call.basis.Direct? then
      if env.hasDevice then MintFor(s, f.user, AuthorityDevice, f.challenge, DeviceProvider) else s
    else if FirstProvider(ps).Some? then
      MintFor(s, f.user, Authority, f.challenge, External(FirstProvider(ps).value))
    else s
  }

  function Finished(c: Config, s: State, f: Flight, env: Env): State {
    var ps := c.policies(f.user);
    if f.call.Approving? && !env.denied && Gated(ps, f.call.basis) then Ask(c, s, f, env)
    else Settle(s, f, Attempted(ps, f.call, f.copy, env), env)
  }

  datatype Request =
    | NewChallenge(pubKey: string)
    | ValidatePut(user: UserId, challenge: ChallengeId)
    | ValidateDelete(user: UserId, challenge: ChallengeId)
    | SecondaryPut(token: TokenId, user: UserId, attempt: Attempt)
    | WanRequestGet(token: TokenId, begun: bool)
    | WanRespondPost(token: TokenId, user: UserId, denied: bool, accepted: bool)
    | Finish(flight: nat, env: Env)
    | ExpireChallenge(challenge: ChallengeId)      // the stores' own removals, free to run late
    | ExpireCertificate(certificate: CertificateId)
    | Tick(seconds: nat)

  function Load(s: State, u: UserId, challenge: ChallengeId, call: Call): State {
    if challenge !in s.challenges then s
    else s.(next := s.next + 1, flights := s.flights[s.next := Flight(u, challenge, s.challenges[challenge], call)])
  }

  function Note(s: State, e: Event): State {
    s.(log := s.log + [e])
  }

  /** Presenting a token made for somebody else is remembered. */
  function NoteBorrowed(s: State, t: Token, u: UserId): State {
    if t.user == u then s else Note(s, Borrowed(t.challenge, t.user, u))
  }

  predicate Present(c: Config, s: State, k: TokenId, kind: Kind) {
    k in s.tokens && Usable(s.tokens[k], kind, s.now, c.expire)
  }

  function Next(c: Config, s: State, r: Request): State {
    match r
    case NewChallenge(pubKey) =>
      if |pubKey| > c.keyLimit then s
      else s.(next := s.next + 1, challenges := s.challenges[s.next := Document(Pending, None, pubKey, s.now)])
    case ValidatePut(u, id) => Load(s, u, id, Approving(Direct))
    case ValidateDelete(u, id) => Load(s, u, id, Denying)
    case SecondaryPut(k, u, a) =>
      if !Present(c, s, k, Authority) then s
      else
        var t := s.tokens[k];
        var s1 := s.(tokens := s.tokens[k := Marked(t, a)]);
        if Verdict(t, a) != Passed then s1
        else Load(NoteBorrowed(Note(s1, ProviderPassed(t.challenge, t.user)), t, u), u, t.challenge,
                  Approving(BySecondary(t.user)))
    case WanRequestGet(k, begun) =>
      if Present(c, s, k, AuthorityDevice) && CanBegin(s.tokens[k]) && begun
      then s.(tokens := s.tokens[k := s.tokens[k].(requested := true)]) else s
    case WanRespondPost(k, u, denied, accepted) =>
      if !Present(c, s, k, AuthorityDevice) || denied || !CanFinish(s.tokens[k]) || !accepted then s
      else
        var t := s.tokens[k];
        Load(NoteBorrowed(Note(s, DeviceShown(t.challenge, t.user)), t, u), u, t.challenge, Approving(ByDevice(t.user)))
    case Finish(n, env) =>
      if n !in s.flights then s
      else Finished(c, s.(flights := s.flights - {n}), s.flights[n], env)
    case ExpireChallenge(id) =>
      if id in s.challenges && s.now - s.challenges[id].made >= CHALLENGE_LIFE then
        s.(challenges := s.challenges - {id})
      else s
    case ExpireCertificate(k) =>
      if k in s.certificates && s.now - s.certificates[k].made >= CERTIFICATE_LIFE then
        s.(certificates := s.certificates - {k})
      else s
    case Tick(d) => s.(now := s.now + d)
  }

  datatype Reply = NotFound | Issued(certificate: Certificate) | NoCertificates | Unauthorized | Waiting

  function Poll(s: State, id: ChallengeId): Reply {
    if id !in s.challenges then NotFound
    else
      var d := s.challenges[id];
      match d.state
      case Approved =>
        if d.certificate.Some? && d.certificate.value in s.certificates then Issued(s.certificates[d.certificate.value])
        else NotFound
      case Unavailable => NoCertificates
      case Denied => Unauthorized
      case Pending => Waiting
  }

  function Run(c: Config, s: State, requests: seq<Request>): State {
    if requests == [] then s
    else Next(c, Run(c, s, requests[..|requests| - 1]), requests[|requests| - 1])
  }

  predicate Initial(s: State) {
    s.tokens == map[] && s.challenges == map[] && s.certificates == map[] && s.flights == map[] && s.log == []
  }

  // ---- The challenge object and the handlers

  class Console {
    const config: Config
    var now: int
    var next: nat
    var tokens: map<TokenId, Token>
    var challenges: map<ChallengeId, Document>
    var certificates: map<CertificateId, Certificate>
    var flights: map<nat, Flight>
    var log: Log

    constructor (config: Config, now: int)
      ensures this.config == config && this.now == now && Initial(View())
    {
      this.config, this.now, next := config, now, 0;
      tokens, challenges, certificates, flights, log := map[], map[], map[], map[], [];
    }

    function View(): State
      reads this
    {
      State(now, next, tokens, challenges, certificates, flights, log)
    }

    /** The loop over the policies: what the enabled ones ask for. */
    method PolicyFactors(ps: seq<Policy>) returns (deviceAuth: bool, provider: Option<nat>, smartCard: bool)
      ensures deviceAuth == DeviceRequired(ps) && provider == FirstProvider(ps) && smartCard == SmartCardRequired(ps)
    {
      deviceAuth, provider, smartCard := false, None, false;
      var i := 0;
      while i < |ps|
        invariant 0 <= i <= |ps|
        invariant deviceAuth <==> exists k :: 0 <= k < i && !ps[k].disabled && ps[k].device
        invariant smartCard <==> exists k :: 0 <= k < i && !ps[k].disabled && ps[k].smartCard
        invariant FirstProvider(ps) == if provider.Some? then provider else FirstProvider(ps[i..])
      {
        var policy := ps[i];
        if !policy.disabled {
          if policy.device {
            deviceAuth := true;
          }
          if policy.provider.Some? && provider.None? {
            provider := policy.provider;
          }
          if policy.smartCard {
            smartCard := true;
          }
        }
        i := i + 1;
      }
    }

    /** The update with filter `state: ""`. */
    method UpdateIfPending(f: Flight, copy: Document, card: Card)
      modifies this`challenges, this`log
      ensures var fits := f.challenge in old(challenges) && old(challenges)[f.challenge].state == Pending;
        && challenges == (if fits then old(challenges)[f.challenge := copy] else old(challenges))
        && log == (if fits then old(log) + [Answered(f.challenge, f.user, copy.state, card)] else old(log))
    {
      if f.challenge in challenges && challenges[f.challenge].state == Pending {
        challenges := challenges[f.challenge := copy];
        log := log + [Answered(f.challenge, f.user, copy.state, card)];
      }
    }

    method Deny(f: Flight, env: Env)
      modifies this
      ensures View() == Settle(old(View()), f, if f.copy.state == Pending then Denied else Pending, env)
    {
      if f.copy.state != Pending {
        return;
      }
      UpdateIfPending(f, Document(Denied, None, f.copy.pubKey, f.copy.made), env.card);
      next := next + 1;
    }

    /** Approve, on the copy the request loaded; returns the factors still to be asked for. */
    method Approve(f: Flight, env: Env) returns (deviceAuth: bool, provider: Option<nat>, missing: bool)
      requires f.call.Approving?
      modifies this
      ensures var ps := config.policies(f.user);
        && missing == (!env.denied && Gated(ps, f.call.basis))
        && View() == Settle(old(View()), f, Attempted(ps, f.call, f.copy, env), env)
        && (missing ==> deviceAuth == DeviceRequired(ps) && provider == FirstProvider(ps))
    {
      deviceAuth, provider, missing := false, None, false;
      if env.denied {
        Deny(f, env);
        return;
      }
      var requireSmartCard;
      deviceAuth, provider, requireSmartCard := PolicyFactors(config.policies(f.user));
      var deviceSec, secondary := f.call.basis.ByDevice?, f.call.basis.BySecondary?;
      if (deviceAuth && !deviceSec && !secondary) || (provider.Some? && !secondary) {
        missing := true;
        return;
      }
      if f.copy.state != Pending {
        return;
      }
      if env.card == Unregistered {
        Deny(f, env);
        return;
      }
      if requireSmartCard && env.card == NotACard {
        Deny(f, env);
        return;
      }
      if env.card == Mismatched {
        Deny(f, env);
        return;
      }
      if env.issued == 0 {
        UpdateIfPending(f, Document(Unavailable, None, f.copy.pubKey, f.copy.made), env.card);
      } else {
        certificates := certificates[next := Certificate(f.user, f.copy.pubKey, env.issued, now)];
        UpdateIfPending(f, Document(Approved, Some(next), f.copy.pubKey, f.copy.made), env.card);
      }
      next := next + 1;
    }

    method GetSecondary(k: TokenId, kind: Kind) returns (secd: SecondaryToken?)
      ensures secd != null <==> Present(config, View(), k, kind)
      ensures secd != null <==> k in tokens && tokens[k].kind == kind && now - tokens[k].minted <= config.expire
      ensures secd != null ==> fresh(secd) && k in tokens && secd.token == tokens[k]
    {
      secd := null;
      if k in tokens && tokens[k].kind == kind && tokens[k].minted >= now - config.expire {
        secd := new SecondaryToken(tokens[k]);
      }
    }

    method GetChallenge(u: UserId, id: ChallengeId, call: Call)
      modifies this
      ensures View() == Load(old(View()), u, id, call)
    {
      if id in challenges {
        flights := flights[next := Flight(u, id, challenges[id], call)];
        next := next + 1;
      }
    }

    /** sshChallengePost, given the key with its surrounding space trimmed. */
    method SshChallengePost(pubKey: string) returns (id: Option<ChallengeId>)
      modifies this
      ensures View() == Next(config, old(View()), NewChallenge(pubKey))
      ensures id.Some? <==> |pubKey| <= config.keyLimit
      ensures id.Some? ==> id.value in challenges && challenges[id.value] == Document(Pending, None, pubKey, now)
    {
      if |pubKey| > config.keyLimit {
        return None;
      }
      challenges := challenges[next := Document(Pending, None, pubKey, now)];
      id := Some(next);
      next := next + 1;
    }

    /** sshValidatePut and sshValidateDelete up to loading the challenge. */
    method SshValidate(u: UserId, id: ChallengeId, approve: bool)
      modifies this
      ensures View() == Next(config, old(View()), if approve then ValidatePut(u, id) else ValidateDelete(u, id))
      ensures id in challenges ==> (
        && old(next) in flights
        && flights[old(next)] == Flight(u, id, challenges[id], if approve then Approving(Direct) else Denying))
      ensures challenges == old(challenges) && certificates == old(certificates) && tokens == old(tokens)
    {
      GetChallenge(u, id, if approve then Approving(Direct) else Denying);
    }

    method SshWanRequestGet(k: TokenId, begun: bool)
      modifies this
      ensures View() == Next(config, old(View()), WanRequestGet(k, begun))
    {
      var secd := GetSecondary(k, AuthorityDevice);
      if secd == null {
        return;
      }
      var outcome := secd.DeviceBegin(begun);
      if outcome == Passed {
        tokens := tokens[k := secd.token];
      }
    }

    /** sshSecondaryPut up to loading the challenge. */
    method SshSecondaryPut(k: TokenId, u: UserId, a: Attempt)
      modifies this
      ensures View() == Next(config, old(View()), SecondaryPut(k, u, a))
    {
      var secd := GetSecondary(k, Authority);
      if secd == null {
        return;
      }
      var outcome := secd.Handle(a);
      tokens := tokens[k := secd.token];
      if outcome != Passed {
        return;
      }
      log := log + [ProviderPassed(secd.token.challenge, secd.token.user)];
      if secd.token.user != u {
        log := log + [Borrowed(secd.token.challenge, secd.token.user, u)];
      }
      GetChallenge(u, secd.token.challenge, Approving(BySecondary(secd.token.user)));
    }

    /** sshWanRespondPost up to loading the challenge. */
    method SshWanRespondPost(k: TokenId, u: UserId, denied: bool, accepted: bool)
      modifies this
      ensures View() == Next(config, old(View()), WanRespondPost(k, u, denied, accepted))
    {
      var secd := GetSecondary(k, AuthorityDevice);
      if secd == null || denied {
        return;
      }
      var outcome := secd.DeviceFinish(accepted);
      if outcome != Passed {
        return;
      }
      log := log + [DeviceShown(secd.token.challenge, secd.token.user)];
      if secd.token.user != u {
        log := log + [Borrowed(secd.token.challenge, secd.token.user, u)];
      }
      GetChallenge(u, secd.token.challenge, Approving(ByDevice(secd.token.user)));
    }

    /** The update closure of sshChallengePut: the answer for a waiting client, read from the stored challenge. */
    method SshChallengeUpdate(id: ChallengeId) returns (reply: Reply)
      ensures reply == Poll(View(), id)
      ensures reply.Issued? <==>
        && id in challenges && challenges[id].state == Approved
        && challenges[id].certificate.Some? && challenges[id].certificate.value in certificates
      ensures reply.Issued? ==> reply.certificate == certificates[challenges[id].certificate.value]
      ensures reply == NoCertificates <==> id in challenges && challenges[id].state == Unavailable
      ensures reply == Unauthorized <==> id in challenges && challenges[id].state == Denied
      ensures reply == Waiting <==> id in challenges && challenges[id].state == Pending
    {
      if id !in challenges {
        return NotFound;
      }
      var chal := challenges[id];
      match chal.state {
        case Approved =>
          if chal.certificate.None? || chal.certificate.value !in certificates {
            return NotFound;
          }
          return Issued(certificates[chal.certificate.value]);
        case Unavailable => return NoCertificates;
        case Denied => return Unauthorized;
        case Pending => return Waiting;
      }
    }

    method NewSecondary(u: UserId, kind: Kind, challenge: ChallengeId, provider: Provider)
      modifies this`tokens, this`next
      ensures View() == MintFor(old(View()), u, kind, challenge, provider)
    {
      tokens := tokens[next := NewToken(u, kind, challenge, provider, now)];
      next := next + 1;
    }

    /** The second half of the four answering handlers. */
    method SshFinish(n: nat, env: Env)
      modifies this
      ensures View() == Next(config, old(View()), Finish(n, env))
    {
      if n !in flights {
        return;
      }
      var f := flights[n];
      flights := flights - {n};
      if f.call.Denying? {
        Deny(f, env);
        return;
      }
      var deviceAuth, provider, missing := Approve(f, env);
      if !missing || env.stopped {
        return;
      }
      if f.call.basis.Direct? && deviceAuth {
        if !env.hasDevice {
          return;
        }
        NewSecondary(f.user, AuthorityDevice, f.challenge, DeviceProvider);
      } else if provider.Some? {
        NewSecondary(f.user, Authority, f.challenge, External(provider.value));
      }
    }
  }

  // ---- Safety

  /** A token made for `u` carries `v`, when `v` presents it, past a factor that `v` owes. */
  predicate Lends(c: Config, u: UserId, v: UserId) {
    var ps, qs := c.policies(u), c.policies(v);
    || (FirstProvider(ps).Some? && (FirstProvider(qs).Some? || DeviceRequired(qs)))
    || (DeviceRequired(ps) && DeviceRequired(qs))
  }

  /** For this challenge `v` presented a token of somebody who lends. */
  ghost predicate Excused(c: Config, log: Log, id: ChallengeId, v: UserId) {
    exists u :: Borrowed(id, u, v) in log && Lends(c, u, v)
  }

  /** What must stand in the log before an approval by `u`. */
  ghost predicate Justified(c: Config, log: Log, id: ChallengeId, u: UserId, card: Card) {
    var ps := c.policies(u);
    && (SmartCardRequired(ps) ==> card == Matched)
    && (DeviceRequired(ps) ==> DeviceShown(id, u) in log || Excused(c, log, id, u))
    && (FirstProvider(ps).Some? ==> ProviderPassed(id, u) in log || Excused(c, log, id, u))
  }

  ghost predicate Safe(c: Config, log: Log) {
    forall i | 0 <= i < |log| && log[i].Answered? && log[i].state == Approved ::
      Justified(c, log[..i], log[i].challenge, log[i].user, log[i].card)
  }

  ghost predicate TokenBacked(c: Config, log: Log, t: Token) {
    var ps := c.policies(t.user);
    && (t.kind == AuthorityDevice ==> DeviceRequired(ps))
    && (t.kind == Authority ==>
         && FirstProvider(ps).Some?
         && (DeviceRequired(ps) ==> DeviceShown(t.challenge, t.user) in log || Excused(c, log, t.challenge, t.user)))
  }

  /** Presented by its owner, or borrowed. */
  predicate Own(log: Log, id: ChallengeId, owner: UserId, u: UserId) {
    owner == u || Borrowed(id, owner, u) in log
  }

  ghost predicate BasisBacked(c: Config, log: Log, id: ChallengeId, u: UserId, basis: Basis) {
    match basis
    case Direct => true
    case ByDevice(o) => DeviceRequired(c.policies(o)) && DeviceShown(id, o) in log && Own(log, id, o, u)
    case BySecondary(o) =>
      && FirstProvider(c.policies(o)).Some? && ProviderPassed(id, o) in log && Own(log, id, o, u)
      && (DeviceRequired(c.policies(o)) ==> DeviceShown(id, o) in log || Excused(c, log, id, o))
  }

  ghost predicate FlightBacked(c: Config, s: State, f: Flight) {
    && f.challenge < s.next && f.copy.made <= s.now
    && (f.challenge in s.challenges ==>
         f.copy.pubKey == s.challenges[f.challenge].pubKey && f.copy.made == s.challenges[f.challenge].made)
    && (f.call.Approving? ==> BasisBacked(c, s.log, f.challenge, f.user, f.call.basis))
  }

  ghost predicate Backed(c: Config, s: State) {
    && Safe(c, s.log)
    && (forall k | k in s.tokens :: TokenBacked(c, s.log, s.tokens[k]))
    && (forall n | n in s.flights :: FlightBacked(c, s, s.flights[n]))
  }

  /** Stores agree: an approved challenge points at a certificate for its key, made no earlier than itself, that is
      missing only when it has outlived its own life; and identifiers are below the counter. */
  ghost predicate Consistent(s: State) {
    && (forall id | id in s.challenges :: id < s.next && s.challenges[id].made <= s.now)
    && (forall k | k in s.certificates :: k < s.next)
    && (forall id | id in s.challenges && s.challenges[id].state == Approved ::
         Certified(s.certificates, s.challenges[id], s.now, s.next))
  }

  predicate Certified(certificates: map<CertificateId, Certificate>, d: Document, now: int, next: nat) {
    && d.certificate.Some? && d.certificate.value < next
    && if d.certificate.value in certificates then
         var k := certificates[d.certificate.value];
         k.pubKey == d.pubKey && k.count > 0 && k.made >= d.made
       else now - d.made >= CERTIFICATE_LIFE
  }

  lemma SafeGrows(c: Config, log: Log, e: Event)
    requires Safe(c, log)
    requires e.Answered? && e.state == Approved ==> Justified(c, log, e.challenge, e.user, e.card)
    ensures Safe(c, log + [e])
  {
    hide Justified;
    forall i | 0 <= i < |log + [e]| && (log + [e])[i].Answered? && (log + [e])[i].state == Approved
      ensures var x := (log + [e])[i]; Justified(c, (log + [e])[..i], x.challenge, x.user, x.card)
    {
      assert (log + [e])[..i] == log[..i];
      assert i == |log| ==> log[..i] == log;
    }
  }

  lemma ExcusedGrows(c: Config, log: Log, more: Log, id: ChallengeId, v: UserId)
    requires log <= more && Excused(c, log, id, v)
    ensures Excused(c, more, id, v)
  {
    hide Lends;
    var u :| Borrowed(id, u, v) in log && Lends(c, u, v);
    assert Borrowed(id, u, v) in more;
  }

  lemma TokenBackedGrows(c: Config, log: Log, more: Log, t: Token)
    requires log <= more && TokenBacked(c, log, t)
    ensures TokenBacked(c, more, t)
  {
    hide Excused, DeviceRequired, FirstProvider;
    if Excused(c, log, t.challenge, t.user) {
      ExcusedGrows(c, log, more, t.challenge, t.user);
    }
  }

  lemma BasisBackedGrows(c: Config, log: Log, more: Log, id: ChallengeId, u: UserId, basis: Basis)
    requires log <= more && BasisBacked(c, log, id, u, basis)
    ensures BasisBacked(c, more, id, u, basis)
  {
    hide Excused, DeviceRequired, FirstProvider;
    if basis.BySecondary? && Excused(c, log, id, basis.owner) {
      ExcusedGrows(c, log, more, id, basis.owner);
    }
  }

  /** What most steps do: the log grows by a tail, tokens and flights are old ones or backed, challenges are old ones
      with their keys, or gone. */
  lemma GrowthKeeps(c: Config, s: State, s': State)
    requires Backed(c, s) && s.log <= s'.log && s.next <= s'.next && s.now <= s'.now && Safe(c, s'.log)
    requires forall k | k in s'.tokens ::
      (k in s.tokens && s'.tokens[k].user == s.tokens[k].user && s'.tokens[k].kind == s.tokens[k].kind &&
       s'.tokens[k].challenge == s.tokens[k].challenge) || TokenBacked(c, s'.log, s'.tokens[k])
    requires forall n | n in s'.flights ::
      (n in s.flights && s'.flights[n] == s.flights[n]) || FlightBacked(c, s', s'.flights[n])
    requires forall id | id in s'.challenges && id < s.next ::
      id in s.challenges && s'.challenges[id].(state := Pending, certificate := None) ==
        s.challenges[id].(state := Pending, certificate := None)
    ensures Backed(c, s')
  {
    hide Safe;
    forall k | k in s'.tokens
      ensures TokenBacked(c, s'.log, s'.tokens[k])
    {
      hide DeviceRequired, FirstProvider, Excused;
      if !TokenBacked(c, s'.log, s'.tokens[k]) {
        TokenBackedGrows(c, s.log, s'.log, s.tokens[k]);
      }
    }
    forall n | n in s'.flights
      ensures FlightBacked(c, s', s'.flights[n])
    {
      hide TokenBacked, BasisBacked;
      if !FlightBacked(c, s', s'.flights[n]) {
        var f := s.flights[n];
        assert FlightBacked(c, s, f);
        if f.call.Approving? {
          BasisBackedGrows(c, s.log, s'.log, f.challenge, f.user, f.call.basis);
        }
      }
    }
  }

  lemma NoteKeeps(c: Config, s: State, e: Event)
    requires Backed(c, s) && !e.Answered?
    ensures Backed(c, Note(s, e))
  {
    hide Safe, TokenBacked, FlightBacked;
    SafeGrows(c, s.log, e);
    GrowthKeeps(c, s, Note(s, e));
  }

  lemma LoadKeeps(c: Config, s: State, u: UserId, id: ChallengeId, call: Call)
    requires Backed(c, s) && Consistent(s)
    requires call.Approving? ==> BasisBacked(c, s.log, id, u, call.basis)
    ensures Backed(c, Load(s, u, id, call)) && Consistent(Load(s, u, id, call))
  {
    hide Safe, TokenBacked, BasisBacked;
    GrowthKeeps(c, s, Load(s, u, id, call));
  }

  /** Presenting a token: the factor is noted, and the borrowing if there is one, and the challenge is loaded. */
  lemma PresentKeeps(c: Config, s: State, t: Token, e: Event, u: UserId, basis: Basis)
    requires Backed(c, s) && Consistent(s) && !e.Answered?
    requires BasisBacked(c, s.log + [e], t.challenge, t.user, basis) && !basis.Direct? && basis.owner == t.user
    ensures Backed(c, Load(NoteBorrowed(Note(s, e), t, u), u, t.challenge, Approving(basis)))
  {
    hide Safe, Lends, DeviceRequired, FirstProvider;
    var s2 := Note(s, e);
    NoteKeeps(c, s, e);
    NoteKeeps(c, s2, Borrowed(t.challenge, t.user, u));
    var s3 := NoteBorrowed(s2, t, u);
    BasisBackedGrows(c, s2.log, s3.log, t.challenge, t.user, basis);
    hide TokenBacked, FlightBacked, Excused;
    LoadKeeps(c, s3, u, t.challenge, Approving(basis));
  }

  lemma SecondaryPutKeeps(c: Config, s: State, k: TokenId, u: UserId, a: Attempt)
    requires Backed(c, s) && Consistent(s)
    ensures Backed(c, Next(c, s, SecondaryPut(k, u, a)))
  {
    hide Safe, FlightBacked, DeviceRequired, FirstProvider, Lends, Verdict;
    if Present(c, s, k, Authority) {
      var t := s.tokens[k];
      assert TokenBacked(c, s.log, t);
      var s1 := s.(tokens := s.tokens[k := Marked(t, a)]);
      GrowthKeeps(c, s, s1);
      var e := ProviderPassed(t.challenge, t.user);
      TokenBackedGrows(c, s.log, s.log + [e], t);
      assert BasisBacked(c, s.log + [e], t.challenge, t.user, BySecondary(t.user));
      hide TokenBacked, BasisBacked;
      PresentKeeps(c, s1, t, e, u, BySecondary(t.user));
    }
  }

  lemma WanRespondPostKeeps(c: Config, s: State, k: TokenId, u: UserId, denied: bool, accepted: bool)
    requires Backed(c, s) && Consistent(s)
    ensures Backed(c, Next(c, s, WanRespondPost(k, u, denied, accepted)))
  {
    hide Safe, FlightBacked, DeviceRequired, FirstProvider;
    if Present(c, s, k, AuthorityDevice) {
      var t := s.tokens[k];
      assert TokenBacked(c, s.log, t);
      PresentKeeps(c, s, t, DeviceShown(t.challenge, t.user), u, ByDevice(t.user));
    }
  }

  /** A call that tries to approve has all its factors behind it, or presented the token of somebody who lends. */
  lemma ApprovingIsJustified(c: Config, s: State, f: Flight, env: Env)
    requires FlightBacked(c, s, f)
    requires Attempted(c.policies(f.user), f.call, f.copy, env) == Approved
    ensures Justified(c, s.log, f.challenge, f.user, env.card)
  {
    hide DeviceRequired, SmartCardRequired, FirstProvider;
    var basis := f.call.basis;
    if !basis.Direct? && basis.owner != f.user && Lends(c, basis.owner, f.user) {
      assert Borrowed(f.challenge, basis.owner, f.user) in s.log;
      assert Excused(c, s.log, f.challenge, f.user);
    }
  }

  lemma SettleKeeps(c: Config, s: State, f: Flight, answer: Answer, env: Env)
    requires Backed(c, s) && FlightBacked(c, s, f)
    requires answer == Approved ==> Justified(c, s.log, f.challenge, f.user, env.card)
    ensures Backed(c, Settle(s, f, answer, env))
  {
    hide Safe, Justified, TokenBacked, BasisBacked;
    SafeGrows(c, s.log, Answered(f.challenge, f.user, answer, env.card));
    GrowthKeeps(c, s, Settle(s, f, answer, env));
  }

  lemma AskKeeps(c: Config, s: State, f: Flight, env: Env)
    requires Backed(c, s) && FlightBacked(c, s, f) && f.call.Approving? && Gated(c.policies(f.user), f.call.basis)
    ensures Backed(c, Ask(c, s, f, env))
  {
    hide Safe, DeviceRequired, FirstProvider;
    var basis := f.call.basis;
    if basis.ByDevice? && basis.owner != f.user && DeviceRequired(c.policies(f.user)) {
      assert Borrowed(f.challenge, basis.owner, f.user) in s.log && Lends(c, basis.owner, f.user);
      assert Excused(c, s.log, f.challenge, f.user);
    }
    hide FlightBacked, Excused;
    GrowthKeeps(c, s, Ask(c, s, f, env));
  }

  lemma FinishKeeps(c: Config, s: State, n: nat, env: Env)
    requires Backed(c, s)
    ensures Backed(c, Next(c, s, Finish(n, env)))
  {
    if n in s.flights {
      var f := s.flights[n];
      hide Safe, TokenBacked, BasisBacked, Ask, Settle, Attempted, Gated, Justified;
      var s1 := s.(flights := s.flights - {n});
      assert FlightBacked(c, s, f) && FlightBacked(c, s1, f);
      hide FlightBacked;
      GrowthKeeps(c, s, s1);
      if f.call.Approving? && !env.denied && Gated(c.policies(f.user), f.call.basis) {
        AskKeeps(c, s1, f, env);
      } else {
        var answer := Attempted(c.policies(f.user), f.call, f.copy, env);
        if answer == Approved {
          ApprovingIsJustified(c, s1, f, env);
        }
        SettleKeeps(c, s1, f, answer, env);
      }
    }
  }

  // ---- One answer per challenge

  ghost predicate HasAnswer(log: Log, id: ChallengeId) {
    exists i :: 0 <= i < |log| && log[i].Answered? && log[i].challenge == id
  }

  /** The log and the stored states tell the same story: a challenge is answered in the log at most once, and while it
      is stored, exactly when its stored state is set, and to that state. */
  ghost predicate Recorded(s: State) {
    && (forall i | 0 <= i < |s.log| && s.log[i].Answered? ::
         (var e := s.log[i];
          && e.challenge < s.next && e.state != Pending
          && (e.challenge in s.challenges ==> s.challenges[e.challenge].state == e.state)))
    && (forall i, j | 0 <= i < j < |s.log| && s.log[i].Answered? && s.log[j].Answered? ::
         s.log[i].challenge != s.log[j].challenge)
    && (forall id | id in s.challenges && s.challenges[id].state != Pending :: HasAnswer(s.log, id))
  }

  lemma RecordedNote(s: State, s': State, e: Event)
    requires Recorded(s) && s'.log == s.log + [e] && s'.challenges == s.challenges && s'.next == s.next && !e.Answered?
    ensures Recorded(s')
  {
    forall id | id in s'.challenges && s'.challenges[id].state != Pending
      ensures HasAnswer(s'.log, id)
    {
      var i :| 0 <= i < |s.log| && s.log[i].Answered? && s.log[i].challenge == id;
      assert s'.log[i] == s.log[i];
    }
  }

  lemma LoadConsistent(s: State, u: UserId, id: ChallengeId, call: Call)
    requires Consistent(s) && Recorded(s)
    ensures Consistent(Load(s, u, id, call)) && Recorded(Load(s, u, id, call))
  {
  }

  lemma PresentConsistent(s: State, s1: State, t: Token, e: Event, u: UserId, call: Call)
    requires Consistent(s) && Recorded(s) && !e.Answered?
    requires s1.challenges == s.challenges && s1.certificates == s.certificates && s1.next == s.next && s1.log == s.log
    requires s1.now == s.now
    ensures var s' := Load(NoteBorrowed(Note(s1, e), t, u), u, t.challenge, call); Consistent(s') && Recorded(s')
  {
    hide Recorded;
    var s2 := Note(s1, e);
    RecordedNote(s, s2, e);
    RecordedNote(s2, Note(s2, Borrowed(t.challenge, t.user, u)), Borrowed(t.challenge, t.user, u));
    LoadConsistent(NoteBorrowed(s2, t, u), u, t.challenge, call);
  }

  lemma SettleConsistent(s: State, f: Flight, answer: Answer, env: Env)
    requires Consistent(s) && Recorded(s) && (answer == Approved ==> env.issued > 0) && f.copy.made <= s.now
    ensures Consistent(Settle(s, f, answer, env)) && Recorded(Settle(s, f, answer, env))
  {
    SettleRecorded(s, f, answer, env);
    hide Recorded;
  }

  lemma SettleRecorded(s: State, f: Flight, answer: Answer, env: Env)
    requires Recorded(s) && (f.challenge in s.challenges ==> f.challenge < s.next)
    ensures Recorded(Settle(s, f, answer, env))
  {
    hide Recorded;
    var s', id := Settle(s, f, answer, env), f.challenge;
    if answer != Pending && id in s.challenges && s.challenges[id].state == Pending {
      AnswerRecorded(s, s', id, s'.challenges[id], Answered(id, f.user, answer, env.card));
    } else {
      SameRecorded(s, s');
    }
  }

  lemma SameRecorded(s: State, s': State)
    requires Recorded(s) && s'.log == s.log && s'.challenges == s.challenges && s'.next >= s.next
    ensures Recorded(s')
  {
  }

  /** An open challenge is answered in the store and in the log. */
  lemma AnswerRecorded(s: State, s': State, id: ChallengeId, d: Document, e: Event)
    requires Recorded(s) && id in s.challenges && id < s.next && s.challenges[id].state == Pending
    requires e.Answered? && e.challenge == id && e.state == d.state != Pending
    requires s'.log == s.log + [e] && s'.challenges == s.challenges[id := d] && s'.next >= s.next
    ensures Recorded(s')
  {
    assert !HasAnswer(s.log, id);
    assert s'.log[|s.log|] == e;
    forall k | k in s'.challenges && s'.challenges[k].state != Pending
      ensures HasAnswer(s'.log, k)
    {
      if k != id {
        var i :| 0 <= i < |s.log| && s.log[i].Answered? && s.log[i].challenge == k;
        assert s'.log[i] == s.log[i];
      }
    }
  }

  lemma NewChallengeConsistent(c: Config, s: State, pubKey: string)
    requires Consistent(s) && Recorded(s)
    ensures Consistent(Next(c, s, NewChallenge(pubKey))) && Recorded(Next(c, s, NewChallenge(pubKey)))
  {
    hide HasAnswer, Certified;
    var s' := Next(c, s, NewChallenge(pubKey));
    forall d: Document | Certified(s.certificates, d, s.now, s.next)
      ensures Certified(s'.certificates, d, s'.now, s'.next)
    {
      CertifiedStays(s.certificates, d, s.now, s.next, s'.next);
    }
  }

  lemma CertifiedStays(certificates: map<CertificateId, Certificate>, d: Document, now: int, next: nat, next': nat)
    requires Certified(certificates, d, now, next) && next <= next'
    ensures Certified(certificates, d, now, next')
  {
  }

  /** Removals and time take away only what has had its life. */
  lemma ExpireConsistent(c: Config, s: State, r: Request)
    requires Consistent(s) && Recorded(s) && (r.ExpireChallenge? || r.ExpireCertificate? || r.Tick?)
    ensures Consistent(Next(c, s, r)) && Recorded(Next(c, s, r))
  {
    hide HasAnswer, Finished, Load, Note, NoteBorrowed, Marked, Verdict, Present;
  }

  /** A step that leaves the stores, the log and the clock as they are. */
  lemma TokenConsistent(s: State, s': State)
    requires Consistent(s) && Recorded(s) && s' == s.(tokens := s'.tokens)
    ensures Consistent(s') && Recorded(s')
  {
  }

  lemma NextConsistent(c: Config, s: State, r: Request)
    requires Consistent(s) && Recorded(s) && forall n | n in s.flights :: s.flights[n].copy.made <= s.now
    ensures Consistent(Next(c, s, r)) && Recorded(Next(c, s, r))
  {
    hide Consistent, Recorded, Load, Note, NoteBorrowed, Finished, Marked, Verdict, CanBegin, CanFinish;
    match r {
      case NewChallenge(pubKey) => NewChallengeConsistent(c, s, pubKey);
      case ValidatePut(u, id) => LoadConsistent(s, u, id, Approving(Direct));
      case ValidateDelete(u, id) => LoadConsistent(s, u, id, Denying);
      case SecondaryPut(k, u, a) =>
        if k in s.tokens {
          var t := s.tokens[k];
          var s1 := s.(tokens := s.tokens[k := Marked(t, a)]);
          TokenConsistent(s, s1);
          PresentConsistent(s, s1, t, ProviderPassed(t.challenge, t.user), u, Approving(BySecondary(t.user)));
        }
      case WanRequestGet(k, begun) => TokenConsistent(s, Next(c, s, r));
      case WanRespondPost(k, u, denied, accepted) =>
        if k in s.tokens {
          var t := s.tokens[k];
          PresentConsistent(s, s, t, DeviceShown(t.challenge, t.user), u, Approving(ByDevice(t.user)));
        }
      case Finish(n, env) => FinishConsistent(c, s, n, env);
      case _ => ExpireConsistent(c, s, r);
    }
  }

  lemma FinishConsistent(c: Config, s: State, n: nat, env: Env)
    requires Consistent(s) && Recorded(s) && (n in s.flights ==> s.flights[n].copy.made <= s.now)
    ensures Consistent(Next(c, s, Finish(n, env))) && Recorded(Next(c, s, Finish(n, env)))
  {
    hide Settle, Gated, Ask, Attempted, Consistent, Recorded;
    if n in s.flights {
      var f, s1 := s.flights[n], s.(flights := s.flights - {n});
      LandingConsistent(s, s1);
      if f.call.Approving? && !env.denied && Gated(c.policies(f.user), f.call.basis) {
        AskConsistent(c, s1, f, env);
      } else {
        ApprovedIssues(c.policies(f.user), f.call, f.copy, env);
        SettleConsistent(s1, f, Attempted(c.policies(f.user), f.call, f.copy, env), env);
      }
    }
  }

  lemma LandingConsistent(s: State, s': State)
    requires Consistent(s) && Recorded(s) && s' == s.(flights := s'.flights)
    ensures Consistent(s') && Recorded(s')
  {
  }

  lemma ApprovedIssues(ps: seq<Policy>, call: Call, copy: Document, env: Env)
    ensures Attempted(ps, call, copy, env) == Approved ==> env.issued > 0
  {
  }

  lemma AskConsistent(c: Config, s: State, f: Flight, env: Env)
    requires Consistent(s) && Recorded(s)
    ensures Consistent(Ask(c, s, f, env)) && Recorded(Ask(c, s, f, env))
  {
    hide HasAnswer, DeviceRequired, FirstProvider;
  }

  /** The steps that neither load nor finish a call. */
  lemma QuietKeeps(c: Config, s: State, r: Request)
    requires Backed(c, s) && Consistent(s)
    requires r.NewChallenge? || r.WanRequestGet? || r.ExpireChallenge? || r.ExpireCertificate? || r.Tick?
    ensures Backed(c, Next(c, s, r))
  {
    hide Safe, TokenBacked, FlightBacked, Finished, Load, Note, NoteBorrowed, Marked, Verdict, CanFinish, Certified;
    GrowthKeeps(c, s, Next(c, s, r));
  }

  lemma NextKeeps(c: Config, s: State, r: Request)
    requires Backed(c, s) && Consistent(s)
    ensures Backed(c, Next(c, s, r))
  {
    hide Backed, Consistent, Finished, Load, Note, NoteBorrowed, Marked, Verdict, CanFinish, Present;
    match r {
      case ValidatePut(u, id) => LoadKeeps(c, s, u, id, Approving(Direct));
      case ValidateDelete(u, id) => LoadKeeps(c, s, u, id, Denying);
      case SecondaryPut(k, u, a) => SecondaryPutKeeps(c, s, k, u, a);
      case WanRespondPost(k, u, denied, accepted) => WanRespondPostKeeps(c, s, k, u, denied, accepted);
      case Finish(n, env) => FinishKeeps(c, s, n, env);
      case _ => QuietKeeps(c, s, r);
    }
  }

  /** In every interleaving of requests: approvals are justified, every challenge is answered at most once and keeps
      the state it was answered with, and an approved one points at a certificate for its own key. */
  lemma {:induction false} EveryRun(c: Config, s: State, requests: seq<Request>)
    requires Initial(s)
    ensures Backed(c, Run(c, s, requests)) && Consistent(Run(c, s, requests)) && Recorded(Run(c, s, requests))
  {
    hide Next;
    if requests != [] {
      var last := |requests| - 1;
      EveryRun(c, s, requests[..last]);
      NextKeeps(c, Run(c, s, requests[..last]), requests[last]);
      NextConsistent(c, Run(c, s, requests[..last]), requests[last]);
    }
  }

  /** A stored approval means its approver gave, for this very challenge, every factor the policies ask of that user,
      unless that user presented for it a token of somebody who lends. */
  lemma ApprovedHasAllFactors(c: Config, s: State, requests: seq<Request>, id: ChallengeId)
    returns (u: UserId, card: Card)
    requires Initial(s)
    requires var r := Run(c, s, requests); id in r.challenges && r.challenges[id].state == Approved
    ensures var log, ps := Run(c, s, requests).log, c.policies(u);
      && Answered(id, u, Approved, card) in log
      && (SmartCardRequired(ps) ==> card == Matched)
      && (Excused(c, log, id, u) ||
          ((DeviceRequired(ps) ==> DeviceShown(id, u) in log) &&
           (FirstProvider(ps).Some? ==> ProviderPassed(id, u) in log)))
  {
    hide Run, DeviceRequired, FirstProvider, SmartCardRequired, Excused;
    EveryRun(c, s, requests);
    var log := Run(c, s, requests).log;
    assert HasAnswer(log, id);
    var i :| 0 <= i < |log| && log[i].Answered? && log[i].challenge == id;
    u, card := log[i].user, log[i].card;
    assert log[i] == Answered(id, u, Approved, card);
    assert Justified(c, log[..i], id, u, card);
    if Excused(c, log[..i], id, u) {
      ExcusedGrows(c, log[..i], log, id, u);
    }
    assert DeviceShown(id, u) in log[..i] ==> DeviceShown(id, u) in log;
    assert ProviderPassed(id, u) in log[..i] ==> ProviderPassed(id, u) in log;
  }

  // ---- Answers are final

  lemma SettleFinal(s: State, f: Flight, answer: Answer, env: Env, id: ChallengeId)
    requires Consistent(s) && id in s.challenges && s.challenges[id].state != Pending
    ensures var s' := Settle(s, f, answer, env); id in s'.challenges && s'.challenges[id] == s.challenges[id]
    ensures Poll(Settle(s, f, answer, env), id) == Poll(s, id) && Settle(s, f, answer, env).now == s.now
  {
  }

  /** Once a challenge has been answered, no request changes it; it leaves the store only by age. What a waiting client
      is told does not change either while the challenge is younger than a certificate's life, and for an approved one
      that is its certificate. */
  lemma AnswerIsFinal(c: Config, s: State, r: Request, id: ChallengeId)
    requires Consistent(s) && id in s.challenges && s.challenges[id].state != Pending
    ensures var s' := Next(c, s, r);
      && (id in s'.challenges ==> s'.challenges[id] == s.challenges[id])
      && (id !in s'.challenges ==> r == ExpireChallenge(id) && s.now - s.challenges[id].made >= CHALLENGE_LIFE)
      && (id in s'.challenges && s'.now - s.challenges[id].made < CERTIFICATE_LIFE ==> Poll(s', id) == Poll(s, id))
    ensures s.challenges[id].state == Approved && s.now - s.challenges[id].made < CERTIFICATE_LIFE ==>
      Poll(s, id).Issued? && Poll(s, id).certificate.pubKey == s.challenges[id].pubKey
  {
    hide Marked, Verdict, Usable, CanBegin, CanFinish, Finished, Load, Note, NoteBorrowed;
    match r {
      case ValidatePut(u, k) => LoadFinal(s, u, k, Approving(Direct));
      case ValidateDelete(u, k) => LoadFinal(s, u, k, Denying);
      case SecondaryPut(k, u, a) =>
        if k in s.tokens {
          var t := s.tokens[k];
          PresentFinal(s.(tokens := s.tokens[k := Marked(t, a)]), t, ProviderPassed(t.challenge, t.user), u,
                       Approving(BySecondary(t.user)));
        }
      case WanRespondPost(k, u, denied, accepted) =>
        if k in s.tokens {
          var t := s.tokens[k];
          PresentFinal(s, t, DeviceShown(t.challenge, t.user), u, Approving(ByDevice(t.user)));
        }
      case Finish(n, env) =>
        if n in s.flights {
          FinishedFinal(c, s.(flights := s.flights - {n}), s.flights[n], env, id);
        }
      case _ =>
    }
  }

  predicate SameStores(s: State, s': State) {
    s'.challenges == s.challenges && s'.certificates == s.certificates && s'.now == s.now
  }

  lemma LoadFinal(s: State, u: UserId, k: ChallengeId, call: Call)
    ensures SameStores(s, Load(s, u, k, call))
  {
  }

  lemma PresentFinal(s: State, t: Token, e: Event, u: UserId, call: Call)
    ensures SameStores(s, Load(NoteBorrowed(Note(s, e), t, u), u, t.challenge, call))
  {
  }

  lemma FinishedFinal(c: Config, s: State, f: Flight, env: Env, id: ChallengeId)
    requires Consistent(s) && id in s.challenges && s.challenges[id].state != Pending
    ensures var s' := Finished(c, s, f, env);
      id in s'.challenges && s'.challenges[id] == s.challenges[id] && Poll(s', id) == Poll(s, id) && s'.now == s.now
  {
    hide Attempted, Gated, Settle, DeviceRequired, FirstProvider, Certified;
    SettleFinal(s, f, Attempted(c.policies(f.user), f.call, f.copy, env), env, id);
  }

  // ---- The factors suffice

  function Granting(): Env {
    Env(false, Matched, 1, true, false)
  }

  predicate Open(s: State, id: ChallengeId) {
    id in s.challenges && s.challenges[id].state == Pending
  }

  predicate Closed(s: State, id: ChallengeId) {
    id in s.challenges && s.challenges[id].state == Approved
  }

  /** The events of presenting another user's token. */
  function Lending(id: ChallengeId, owner: UserId, u: UserId): Log {
    if owner == u then [] else [Borrowed(id, owner, u)]
  }

  /** Nothing but the newest token, made for `u`, and the log since has changed. */
  predicate Holds(s: State, s': State, u: UserId, kind: Kind, id: ChallengeId, provider: Provider, tail: Log) {
    && s'.now == s.now && s'.challenges == s.challenges && s'.next == s.next + 2 && s'.log == s.log + tail
    && s.next + 1 in s'.tokens && s'.tokens[s.next + 1] == NewToken(u, kind, id, provider, s.now)
  }

  /** The second half of a call with all its factors approves, of one without asks for the next. */
  lemma FinishCall(c: Config, s: State, n: nat) returns (s': State)
    requires n in s.flights && s.flights[n].call.Approving?
    requires Open(s, s.flights[n].challenge) && s.flights[n].copy == s.challenges[s.flights[n].challenge]
    ensures s' == Next(c, s, Finish(n, Granting()))
    ensures var f := s.flights[n];
      var ps := c.policies(f.user);
      if !Gated(ps, f.call.basis) then
        Closed(s', f.challenge) && s'.log == s.log + [Answered(f.challenge, f.user, Approved, Matched)]
      else
        var device := DeviceRequired(ps) && f.call.basis.Direct?;
        && s'.now == s.now && s'.challenges == s.challenges && s'.log == s.log && s'.next == s.next + 1
        && s.next in s'.tokens
        && s'.tokens[s.next] == NewToken(f.user, if device then AuthorityDevice else Authority, f.challenge,
             if device then DeviceProvider else External(FirstProvider(ps).value), s.now)
  {
    hide DeviceRequired, FirstProvider, SmartCardRequired;
    s' := Next(c, s, Finish(n, Granting()));
  }

  /** First call: the token of the first missing factor, or the approval. */
  lemma FirstCall(c: Config, s: State, u: UserId, id: ChallengeId) returns (s': State)
    requires Open(s, id)
    ensures s' == Run(c, s, [ValidatePut(u, id), Finish(s.next, Granting())])
    ensures var ps := c.policies(u);
      if DeviceRequired(ps) then Holds(s, s', u, AuthorityDevice, id, DeviceProvider, [])
      else if FirstProvider(ps).Some? then Holds(s, s', u, Authority, id, External(FirstProvider(ps).value), [])
      else Closed(s', id)
  {
    hide DeviceRequired, FirstProvider, SmartCardRequired, Finished;
    RunThree(c, s, ValidatePut(u, id), Finish(s.next, Granting()), Finish(s.next, Granting()));
    hide Run;
    var s1 := Next(c, s, ValidatePut(u, id));
    s' := FinishCall(c, s1, s.next);
    assert s.log + [] == s.log;
  }

  /** The device of `o` answers, presented by `u`: the token of the provider that `u` owes, or the approval. */
  lemma DeviceCall(c: Config, s: State, o: UserId, u: UserId, id: ChallengeId, k: TokenId) returns (s': State)
    requires Open(s, id) && k < s.next
    requires k in s.tokens && s.tokens[k] == NewToken(o, AuthorityDevice, id, DeviceProvider, s.now)
    ensures s' == Run(c, s, [WanRequestGet(k, true), WanRespondPost(k, u, false, true), Finish(s.next, Granting())])
    ensures var ps, tail := c.policies(u), [DeviceShown(id, o)] + Lending(id, o, u);
      if FirstProvider(ps).Some? then Holds(s, s', u, Authority, id, External(FirstProvider(ps).value), tail)
      else Closed(s', id) && s'.log == s.log + tail + [Answered(id, u, Approved, Matched)]
  {
    hide DeviceRequired, FirstProvider, SmartCardRequired, Finished;
    RunThree(c, s, WanRequestGet(k, true), WanRespondPost(k, u, false, true), Finish(s.next, Granting()));
    hide Run;
    var s1 := Next(c, s, WanRequestGet(k, true));
    assert s1 == s.(tokens := s.tokens[k := s.tokens[k].(requested := true)]);
    var s2 := Next(c, s1, WanRespondPost(k, u, false, true));
    assert s2.flights[s.next] == Flight(u, id, s.challenges[id], Approving(ByDevice(o)));
    assert s2.log == s.log + ([DeviceShown(id, o)] + Lending(id, o, u));
    s' := FinishCall(c, s2, s.next);
  }

  /** The provider of `o` answers, presented by `u`: the challenge is approved in the name of `u`. */
  lemma ProviderCall(c: Config, s: State, o: UserId, u: UserId, id: ChallengeId, k: TokenId, provider: nat)
    returns (s': State)
    requires Open(s, id) && k < s.next
    requires k in s.tokens && s.tokens[k] == NewToken(o, Authority, id, External(provider), s.now)
    ensures s' == Run(c, s, [SecondaryPut(k, u, Passing()), Finish(s.next, Granting())])
    ensures Closed(s', id)
    ensures s'.log == s.log + ([ProviderPassed(id, o)] + Lending(id, o, u)) + [Answered(id, u, Approved, Matched)]
  {
    hide DeviceRequired, FirstProvider, SmartCardRequired, Finished;
    RunThree(c, s, SecondaryPut(k, u, Passing()), Finish(s.next, Granting()), Finish(s.next, Granting()));
    hide Run;
    var s1 := Next(c, s, SecondaryPut(k, u, Passing()));
    assert Present(c, s, k, Authority) && Verdict(s.tokens[k], Passing()) == Passed;
    hide Present, Verdict, Marked;
    assert s1.log == s.log + ([ProviderPassed(id, o)] + Lending(id, o, u));
    assert s1.flights[s.next] == Flight(u, id, s.challenges[id], Approving(BySecondary(o)));
    s' := FinishCall(c, s1, s.next);
  }

  lemma {:induction false} RunAppend(c: Config, s: State, a: seq<Request>, b: seq<Request>)
    ensures Run(c, s, a + b) == Run(c, Run(c, s, a), b)
  {
    hide Next;
    if b == [] {
      assert a + b == a;
    } else {
      var n := |b| - 1;
      RunAppend(c, s, a, b[..n]);
      assert (a + b)[..|a| + n] == a + b[..n] && (a + b)[|a| + n] == b[n];
    }
  }

  lemma RunThree(c: Config, s: State, r1: Request, r2: Request, r3: Request)
    ensures Run(c, s, [r1]) == Next(c, s, r1)
    ensures Run(c, s, [r1, r2]) == Next(c, Next(c, s, r1), r2)
    ensures Run(c, s, [r1, r2, r3]) == Next(c, Next(c, Next(c, s, r1), r2), r3)
  {
    hide Next;
    assert [r1, r2, r3][..2] == [r1, r2] && [r1, r2][..1] == [r1] && [r1][..0] == [];
    assert Run(c, s, []) == s;
    assert Run(c, s, [r1]) == Next(c, s, r1);
    assert Run(c, s, [r1, r2]) == Next(c, Run(c, s, [r1]), r2);
  }

  /** The requests of a user who answers everything that is asked, from a store whose next identifier is `n`. */
  function Calls(ps: seq<Policy>, u: UserId, id: ChallengeId, n: nat): seq<Request> {
    var k := if DeviceRequired(ps) then n + 3 else n + 1;
    [ValidatePut(u, id), Finish(n, Granting())]
    + (if DeviceRequired(ps) then DeviceRequests(n + 1, u) else [])
    + (if FirstProvider(ps).Some? then ProviderRequests(k, u) else [])
  }

  function DeviceRequests(k: TokenId, u: UserId): seq<Request> {
    [WanRequestGet(k, true), WanRespondPost(k, u, false, true), Finish(k + 1, Granting())]
  }

  function ProviderRequests(k: TokenId, u: UserId): seq<Request> {
    [SecondaryPut(k, u, Passing()), Finish(k + 1, Granting())]
  }

  /** Whatever the policies, such a user takes an open challenge to approval. */
  lemma AnsweringApproves(c: Config, s: State, u: UserId, id: ChallengeId)
    requires Open(s, id)
    ensures Closed(Run(c, s, Calls(c.policies(u), u, id, s.next)), id)
  {
    hide Run, Next, DeviceRequired, FirstProvider, Passing, Granting;
    var ps, n := c.policies(u), s.next;
    var first := [ValidatePut(u, id), Finish(n, Granting())];
    var s1 := FirstCall(c, s, u, id);
    if DeviceRequired(ps) {
      var device := DeviceRequests(n + 1, u);
      var s2 := DeviceCall(c, s1, u, u, id, n + 1);
      RunAppend(c, s, first, device);
      if FirstProvider(ps).Some? {
        var s3 := ProviderCall(c, s2, u, u, id, n + 3, FirstProvider(ps).value);
        RunAppend(c, s, first + device, ProviderRequests(n + 3, u));
      } else {
        assert first + device + [] == first + device;
      }
    } else if FirstProvider(ps).Some? {
      var s2 := ProviderCall(c, s1, u, u, id, n + 1, FirstProvider(ps).value);
      RunAppend(c, s, first, ProviderRequests(n + 1, u));
      assert first + [] == first;
    } else {
      assert first + [] + [] == first;
    }
  }

  // ---- Borrowed tokens

  /** Every approval has behind it the device and the provider its approver owes, given by the approver. */
  ghost predicate FactorsGiven(c: Config, log: Log) {
    forall i | 0 <= i < |log| && log[i].Answered? && log[i].state == Approved ::
      var ps := c.policies(log[i].user);
      && (DeviceRequired(ps) ==> DeviceShown(log[i].challenge, log[i].user) in log[..i])
      && (FirstProvider(ps).Some? ==> ProviderPassed(log[i].challenge, log[i].user) in log[..i])
  }

  function Empty(): State {
    State(0, 0, map[], map[], map[], map[], [])
  }

  /** An empty console takes a new challenge. */
  lemma Opened(c: Config) returns (s: State)
    ensures s == Run(c, Empty(), [NewChallenge("")])
    ensures Open(s, 0) && s.next == 1 && s.log == []
  {
    RunThree(c, Empty(), NewChallenge(""), NewChallenge(""), NewChallenge(""));
    s := Next(c, Empty(), NewChallenge(""));
  }

  /** The one who lends has a challenge checked, with its first factor still to come. */
  lemma LenderCalls(c: Config, u: UserId) returns (first: seq<Request>, s0: State, s: State)
    ensures s == Run(c, Empty(), first) && Open(s0, 0) && s0.next == 1 && s0.log == []
    ensures var ps := c.policies(u);
      if DeviceRequired(ps) then Holds(s0, s, u, AuthorityDevice, 0, DeviceProvider, [])
      else if FirstProvider(ps).Some? then Holds(s0, s, u, Authority, 0, External(FirstProvider(ps).value), [])
      else Closed(s, 0)
  {
    hide Run, Next, DeviceRequired, FirstProvider, Empty;
    s0 := Opened(c);
    s := FirstCall(c, s0, u, 0);
    first := [NewChallenge("")] + [ValidatePut(u, 0), Finish(1, Granting())];
    RunAppend(c, Empty(), [NewChallenge("")], [ValidatePut(u, 0), Finish(1, Granting())]);
  }

  /** From an empty console: `v` presents the token of somebody who lends, and is approved without a factor owed. */
  lemma LendingApproves(c: Config, u: UserId, v: UserId) returns (requests: seq<Request>)
    requires u != v && Lends(c, u, v)
    ensures !FactorsGiven(c, Run(c, Empty(), requests).log)
  {
    hide Run, DeviceRequired, FirstProvider, FactorsGiven;
    var ps, qs := c.policies(u), c.policies(v);
    if FirstProvider(ps).Some? && (FirstProvider(qs).Some? || DeviceRequired(qs)) {
      requests := ProviderLent(c, u, v);
    } else {
      requests := DeviceLent(c, u, v);
    }
  }

  lemma ProviderLent(c: Config, u: UserId, v: UserId) returns (requests: seq<Request>)
    requires u != v && FirstProvider(c.policies(u)).Some?
    requires FirstProvider(c.policies(v)).Some? || DeviceRequired(c.policies(v))
    ensures !FactorsGiven(c, Run(c, Empty(), requests).log)
  {
    hide Run, Next, DeviceRequired, FirstProvider, Passing, Granting, Empty, FactorsGiven;
    var ps := c.policies(u);
    var first, s0, s1 := LenderCalls(c, u);
    var k, before, s2 := 2, first, s1;
    if DeviceRequired(ps) {
      s2 := DeviceCall(c, s1, u, u, 0, 2);
      k, before := 4, first + DeviceRequests(2, u);
      RunAppend(c, Empty(), first, DeviceRequests(2, u));
    }
    var s3 := ProviderCall(c, s2, u, v, 0, k, FirstProvider(ps).value);
    requests := before + ProviderRequests(k, v);
    RunAppend(c, Empty(), before, ProviderRequests(k, v));
    LastApprovalLacks(c, s3.log, v);
  }

  lemma DeviceLent(c: Config, u: UserId, v: UserId) returns (requests: seq<Request>)
    requires u != v && DeviceRequired(c.policies(u)) && DeviceRequired(c.policies(v))
    ensures !FactorsGiven(c, Run(c, Empty(), requests).log)
  {
    hide Run, Next, DeviceRequired, FirstProvider, Passing, Granting, Empty, FactorsGiven;
    var qs := c.policies(v);
    var first, s0, s1 := LenderCalls(c, u);
    var s2 := DeviceCall(c, s1, u, v, 0, 2);
    requests := first + DeviceRequests(2, v);
    RunAppend(c, Empty(), first, DeviceRequests(2, v));
    if FirstProvider(qs).Some? {
      var s3 := ProviderCall(c, s2, v, v, 0, 4, FirstProvider(qs).value);
      RunAppend(c, Empty(), requests, ProviderRequests(4, v));
      requests := requests + ProviderRequests(4, v);
      LastApprovalLacks(c, s3.log, v);
    } else {
      LastApprovalLacks(c, s2.log, v);
    }
  }

  lemma LastApprovalLacks(c: Config, log: Log, v: UserId)
    requires log != [] && log[|log| - 1] == Answered(0, v, Approved, Matched)
    requires var ps := c.policies(v);
      || (DeviceRequired(ps) && DeviceShown(0, v) !in log)
      || (FirstProvider(ps).Some? && ProviderPassed(0, v) !in log)
    ensures !FactorsGiven(c, log)
  {
    hide DeviceRequired, FirstProvider;
    var i := |log| - 1;
    assert log[i].Answered? && log[i].state == Approved;
    assert DeviceShown(0, v) in log[..i] ==> DeviceShown(0, v) in log;
    assert ProviderPassed(0, v) in log[..i] ==> ProviderPassed(0, v) in log;
  }

  /** In every run, whoever presents the tokens, approvals have their approver's factors, exactly when no user's token
      carries another user past a factor that user owes: a condition on the policies alone. */
  lemma FactorsGivenIffNoneLend(c: Config)
    ensures (forall s, requests | Initial(s) :: FactorsGiven(c, Run(c, s, requests).log))
       <==> (forall u, v :: u != v ==> !Lends(c, u, v))
  {
    hide Run, Lends, DeviceRequired, FirstProvider;
    if u, v :| u != v && Lends(c, u, v) {
      var requests := LendingApproves(c, u, v);
      assert Initial(Empty());
    } else {
      forall s, requests | Initial(s)
        ensures FactorsGiven(c, Run(c, s, requests).log)
      {
        EveryRun(c, s, requests);
        var log := Run(c, s, requests).log;
        BorrowedByOthers(c, s, requests);
        forall i | 0 <= i < |log| && log[i].Answered? && log[i].state == Approved
          ensures !Excused(c, log[..i], log[i].challenge, log[i].user)
        {
          assert forall e | e in log[..i] :: e in log;
        }
      }
    }
  }

  /** A token counts as borrowed only when presenter and owner differ. */
  lemma {:induction false} BorrowedByOthers(c: Config, s: State, requests: seq<Request>)
    requires Initial(s)
    ensures forall e | e in Run(c, s, requests).log && e.Borrowed? :: e.owner != e.presenter
  {
    hide Settle, Attempted, Gated, Ask, Verdict, Marked;
    if requests != [] {
      var before, r := Run(c, s, requests[..|requests| - 1]), requests[|requests| - 1];
      BorrowedByOthers(c, s, requests[..|requests| - 1]);
      NextBorrows(c, before, r);
    }
  }

  lemma NextBorrows(c: Config, s: State, r: Request)
    requires forall e | e in s.log && e.Borrowed? :: e.owner != e.presenter
    ensures forall e | e in Next(c, s, r).log && e.Borrowed? :: e.owner != e.presenter
  {
    hide Finished, Verdict, Marked, CanBegin, CanFinish;
    if r.Finish? && r.flight in s.flights {
      FinishedWrites(c, s.(flights := s.flights - {r.flight}), s.flights[r.flight], r.env);
    }
  }

  lemma FinishedWrites(c: Config, s: State, f: Flight, env: Env)
    ensures forall e | e in Finished(c, s, f, env).log :: e in s.log || e.Answered?
  {
    hide Attempted, Gated, DeviceRequired, FirstProvider;
  }
}
