/** What one request does to the SSH approval of challenge/challenge.go and uhandlers/ssh.go, said over the policies and
    the documents themselves, and that every event of a run has such a request behind it. */
module SshAnswers {
  import opened Wrappers
  import opened Secondary
  import opened SshApproval

  // ---- The answer

  /** A first call, and an enabled policy asks for a device. */
  predicate MissesDevice(ps: seq<Policy>, basis: Basis) {
    basis.Direct? && exists i :: 0 <= i < |ps| && !ps[i].disabled && ps[i].device
  }

  /** No provider has answered yet, and an enabled policy names one. */
  predicate MissesProvider(ps: seq<Policy>, basis: Basis) {
    !basis.BySecondary? && exists i :: 0 <= i < |ps| && !ps[i].disabled && ps[i].provider.Some?
  }

  /** The key is on the matching registered card, or on none while no enabled policy asks for one. */
  predicate CardFits(ps: seq<Policy>, card: Card) {
    card == Matched || (card == NotACard && forall i | 0 <= i < |ps| :: ps[i].disabled || !ps[i].smartCard)
  }

  /** Nothing refuses the call and nothing is missing. */
  predicate Clear(ps: seq<Policy>, f: Flight, env: Env) {
    && f.call.Approving? && !env.denied
    && !MissesDevice(ps, f.call.basis) && !MissesProvider(ps, f.call.basis) && CardFits(ps, env.card)
  }

  /** The call refuses: the user denies, a policy does, or the card does once nothing else is missing. */
  predicate Refuses(ps: seq<Policy>, f: Flight, env: Env) {
    || f.call.Denying? || env.denied
    || (!MissesDevice(ps, f.call.basis) && !MissesProvider(ps, f.call.basis) && !CardFits(ps, env.card))
  }

  /** Neither the stored challenge nor the copy of the call is answered. */
  predicate Undecided(s: State, f: Flight) {
    f.challenge in s.challenges && s.challenges[f.challenge].state == Pending && f.copy.state == Pending
  }

  lemma MissingIsGated(ps: seq<Policy>, basis: Basis)
    ensures Gated(ps, basis) <==> MissesDevice(ps, basis) || MissesProvider(ps, basis)
  {
    FirstProviderIsSome(ps);
  }

  lemma CardFitsIff(ps: seq<Policy>, card: Card)
    ensures CardFits(ps, card) <==> !CardRefused(ps, card)
  {
  }

  /** The state a finished call leaves on a challenge that was open, in its copy and in the store, and the certificate
      it issues: none unless it approves. */
  lemma AnswerTable(c: Config, s: State, n: nat, env: Env)
    requires n in s.flights && Undecided(s, s.flights[n])
    ensures var f, s' := s.flights[n], Next(c, s, Finish(n, env));
      var ps, id := c.policies(f.user), f.challenge;
      && s'.challenges.Keys == s.challenges.Keys && s'.challenges - {id} == s.challenges - {id}
      && (s'.challenges[id].state == Denied <==> Refuses(ps, f, env))
      && (s'.challenges[id].state == Approved <==> Clear(ps, f, env) && env.issued > 0)
      && (s'.challenges[id].state == Unavailable <==> Clear(ps, f, env) && env.issued == 0)
      && (s'.challenges[id].state == Pending ==> s'.challenges == s.challenges)
      && (s'.challenges[id].state != Pending ==>
           s'.challenges[id].pubKey == f.copy.pubKey && s'.challenges[id].made == f.copy.made)
      && (s'.challenges[id].state == Approved ==>
           && s'.challenges[id].certificate == Some(s.next)
           && s'.certificates == s.certificates[s.next := Certificate(f.user, f.copy.pubKey, env.issued, s.now)])
      && (s'.challenges[id].state != Approved ==> s'.certificates == s.certificates)
  {
    var f := s.flights[n];
    var ps := c.policies(f.user);
    if f.call.Approving? {
      MissingIsGated(ps, f.call.basis);
      CardFitsIff(ps, env.card);
    }
    hide DeviceRequired, SmartCardRequired, FirstProvider, MissesDevice, MissesProvider, CardFits, CardRefused, Gated;
  }

  /** A call that a policy refuses is denied: no factor, card or certificate comes into it. */
  lemma RefusedIsDenied(c: Config, s: State, n: nat, env: Env)
    requires n in s.flights && Undecided(s, s.flights[n]) && env.denied
    ensures var s' := Next(c, s, Finish(n, env));
      && s'.challenges[s.flights[n].challenge].state == Denied
      && s'.certificates == s.certificates && s'.tokens == s.tokens
  {
    AnswerTable(c, s, n, env);
    hide DeviceRequired, SmartCardRequired, FirstProvider, CardRefused, Gated;
  }

  /** Once the challenge is answered, in the store or in the copy, a call leaves it and all others alone. */
  lemma AnsweredIsLeft(c: Config, s: State, n: nat, env: Env)
    requires n in s.flights && !Undecided(s, s.flights[n])
    ensures Next(c, s, Finish(n, env)).challenges == s.challenges
  {
    hide DeviceRequired, SmartCardRequired, FirstProvider, CardRefused, Gated;
  }

  // ---- The next factor

  /** The provider asked for is that of the first enabled policy that names one. */
  lemma {:induction false} FirstProviderMeans(ps: seq<Policy>, q: nat)
    ensures FirstProvider(ps) == Some(q) <==> exists i :: FirstNamed(ps, q, i)
  {
    if ps != [] {
      FirstProviderMeans(ps[1..], q);
      if i :| FirstNamed(ps, q, i) && i > 0 {
        assert FirstNamed(ps[1..], q, i - 1) by {
          assert forall j | 0 <= j < |ps| - 1 :: ps[1..][j] == ps[j + 1];
        }
      }
      if i :| FirstNamed(ps[1..], q, i) && (ps[0].disabled || ps[0].provider.None?) {
        assert FirstNamed(ps, q, i + 1) by {
          assert forall j | 0 < j < |ps| :: ps[j] == ps[1..][j - 1];
        }
      }
      if FirstProvider(ps) == Some(q) && !ps[0].disabled && ps[0].provider.Some? {
        assert FirstNamed(ps, q, 0);
      }
    }
  }

  ghost predicate FirstNamed(ps: seq<Policy>, q: nat, i: int) {
    && 0 <= i < |ps| && !ps[i].disabled && ps[i].provider == Some(q)
    && forall j | 0 <= j < i :: ps[j].disabled || ps[j].provider.None?
  }

  ghost predicate TokenFor(s: State, s': State, u: UserId, kind: Kind, id: ChallengeId, provider: Provider) {
    s'.next == s.next + 1 && s'.tokens == s.tokens[s.next := NewToken(u, kind, id, provider, s.now)]
  }

  /** A call that misses a factor, and is neither refused nor broken off, makes one token: for a device while that is
      missing, else for the provider. Any other call makes none. */
  lemma AskTable(c: Config, s: State, n: nat, env: Env)
    requires n in s.flights
    ensures var f, s' := s.flights[n], Next(c, s, Finish(n, env));
      var ps, id := c.policies(f.user), f.challenge;
      var asks := f.call.Approving? && !env.denied && !env.stopped;
      var device := asks && MissesDevice(ps, f.call.basis);
      && (device && env.hasDevice ==> TokenFor(s, s', f.user, AuthorityDevice, id, DeviceProvider))
      && (device && !env.hasDevice ==> s'.tokens == s.tokens)
      && (asks && !device && MissesProvider(ps, f.call.basis) ==>
           exists i, q: nat :: FirstNamed(ps, q, i) && TokenFor(s, s', f.user, Authority, id, External(q)))
      && (!asks || (!device && !MissesProvider(ps, f.call.basis)) ==> s'.tokens == s.tokens)
  {
    var f := s.flights[n];
    var ps := c.policies(f.user);
    FirstProviderIsSome(ps);
    if FirstProvider(ps).Some? {
      FirstProviderMeans(ps, FirstProvider(ps).value);
      var i :| FirstNamed(ps, FirstProvider(ps).value, i);
    }
    hide SmartCardRequired, FirstProvider, CardRefused, Attempted, FirstNamed;
  }

  // ---- Calls that are loaded

  /** A new call carries the challenge as it is stored, the user who made the request, and how far that user has come:
      nothing yet, or the factor just given on a token for the same challenge. */
  lemma NewFlight(c: Config, s: State, r: Request, n: nat)
    requires n in Next(c, s, r).flights && (n !in s.flights || Next(c, s, r).flights[n] != s.flights[n])
    ensures var f := Next(c, s, r).flights[n];
      && f.challenge in s.challenges && f.copy == s.challenges[f.challenge]
      && match r
         case ValidatePut(u, id) => f.user == u && f.challenge == id && f.call == Approving(Direct)
         case ValidateDelete(u, id) => f.user == u && f.challenge == id && f.call == Denying
         case SecondaryPut(k, u, a) =>
           && f.user == u && Present(c, s, k, Authority) && Verdict(s.tokens[k], a) == Passed
           && f.challenge == s.tokens[k].challenge && f.call == Approving(BySecondary(s.tokens[k].user))
         case WanRespondPost(k, u, denied, accepted) =>
           && f.user == u && Present(c, s, k, AuthorityDevice) && CanFinish(s.tokens[k]) && !denied && accepted
           && f.challenge == s.tokens[k].challenge && f.call == Approving(ByDevice(s.tokens[k].user))
         case _ => false
  {
    hide Verdict, Marked, Usable, CanBegin, CanFinish, Attempted, Gated;
    if r.Finish? {
      FinishLoads(c, s, r.flight, r.env, n);
    }
    hide Finished;
  }

  lemma FinishLoads(c: Config, s: State, k: nat, env: Env, n: nat)
    requires n in Next(c, s, Finish(k, env)).flights
    ensures n in s.flights && Next(c, s, Finish(k, env)).flights[n] == s.flights[n]
  {
    hide Attempted, Gated, DeviceRequired, FirstProvider;
  }

  lemma FinishMints(c: Config, s: State, n: nat, env: Env, k: TokenId)
    requires k in s.tokens && k < s.next
    ensures k in Next(c, s, Finish(n, env)).tokens && Next(c, s, Finish(n, env)).tokens[k] == s.tokens[k]
  {
    hide Attempted, Gated, DeviceRequired, FirstProvider;
  }

  /** A stored token changes only by a request that names it: by an attempt, to what the attempt leaves, and by the
      beginning of a ceremony. */
  lemma TokenAfter(c: Config, s: State, r: Request, k: TokenId)
    requires k in s.tokens && k < s.next
    ensures k in Next(c, s, r).tokens
    ensures var t := s.tokens[k];
      Next(c, s, r).tokens[k] == match r
        case SecondaryPut(j, _, a) => if j == k && Present(c, s, k, Authority) then Marked(t, a) else t
        case WanRequestGet(j, begun) =>
          if j == k && begun && Present(c, s, k, AuthorityDevice) && CanBegin(t) then t.(requested := true) else t
        case _ => t
  {
    if r.Finish? {
      FinishMints(c, s, r.flight, r.env, k);
    }
    hide Verdict, Marked, Usable, CanBegin, CanFinish, Finished;
  }

  // ---- Every event of a run has its request

  /** The request, made in `s`, by which such an event is written. */
  ghost predicate Caused(c: Config, s: State, r: Request, e: Event) {
    match e
    case DeviceShown(id, owner) =>
      && r.WanRespondPost? && !r.denied && r.accepted && Present(c, s, r.token, AuthorityDevice)
      && s.tokens[r.token].requested && s.tokens[r.token].user == owner && s.tokens[r.token].challenge == id
    case ProviderPassed(id, owner) =>
      && r.SecondaryPut? && r.attempt.answer == Some(true) && Present(c, s, r.token, Authority)
      && !s.tokens[r.token].disabled && s.tokens[r.token].user == owner && s.tokens[r.token].challenge == id
    case Borrowed(id, owner, presenter) =>
      && (r.WanRespondPost? || r.SecondaryPut?) && r.user == presenter != owner && r.token in s.tokens
      && s.tokens[r.token].user == owner && s.tokens[r.token].challenge == id
    case Answered(id, user, state, card) =>
      && r.Finish? && r.flight in s.flights && r.env.card == card && Undecided(s, s.flights[r.flight])
      && s.flights[r.flight].user == user && s.flights[r.flight].challenge == id
      && match state
         case Denied => Refuses(c.policies(user), s.flights[r.flight], r.env)
         case Approved => Clear(c.policies(user), s.flights[r.flight], r.env) && r.env.issued > 0
         case Unavailable => Clear(c.policies(user), s.flights[r.flight], r.env) && r.env.issued == 0
         case Pending => false
  }

  lemma LogGrows(c: Config, s: State, r: Request)
    ensures s.log <= Next(c, s, r).log
  {
    hide Verdict, Marked, Usable, CanBegin, CanFinish, Attempted, Gated, DeviceRequired, FirstProvider;
  }

  lemma EventIsCaused(c: Config, s: State, r: Request, i: nat)
    requires |s.log| <= i < |Next(c, s, r).log|
    ensures Caused(c, s, r, Next(c, s, r).log[i])
  {
    if r.Finish? {
      AnswerIsCaused(c, s, r.flight, r.env, i);
    } else {
      if r.SecondaryPut? && r.token in s.tokens {
        PassedIff(s.tokens[r.token], r.attempt);
      }
      hide Verdict, Marked, Usable, Finished, Clear, Refuses, Undecided;
    }
  }

  lemma AnswerIsCaused(c: Config, s: State, n: nat, env: Env, i: nat)
    requires |s.log| <= i < |Next(c, s, Finish(n, env)).log|
    ensures Caused(c, s, Finish(n, env), Next(c, s, Finish(n, env)).log[i])
  {
    AnswerIsWritten(c, s, n, env);
    AnswerTable(c, s, n, env);
    hide Next, Clear, Refuses, Undecided;
  }

  /** A call writes an answer exactly when it changes its challenge, and then the state that it leaves there. */
  lemma AnswerIsWritten(c: Config, s: State, n: nat, env: Env)
    ensures var s' := Next(c, s, Finish(n, env));
      if n in s.flights && s'.challenges != s.challenges then
        var f := s.flights[n];
        && Undecided(s, f) && f.challenge in s'.challenges && s'.challenges[f.challenge].state != Pending
        && s'.log == s.log + [Answered(f.challenge, f.user, s'.challenges[f.challenge].state, env.card)]
      else s'.log == s.log
  {
    hide Gated, CardRefused, DeviceRequired, FirstProvider;
  }

  /** In every interleaving, each event in the log was written by one of the requests, at a moment when that request had
      what the event says: a passed provider an answer of yes, a device an accepted response to a ceremony that had
      begun, and an approval a call that no policy refused and that missed nothing. */
  lemma {:induction false} EveryEventIsCaused(c: Config, s: State, requests: seq<Request>, i: nat) returns (j: nat)
    requires Initial(s) && i < |Run(c, s, requests).log|
    ensures j < |requests|
    ensures |Run(c, s, requests[..j]).log| <= i < |Run(c, s, requests[..j + 1]).log|
    ensures Caused(c, Run(c, s, requests[..j]), requests[j], Run(c, s, requests).log[i])
  {
    hide Next, Caused;
    var n := |requests| - 1;
    var before := Run(c, s, requests[..n]);
    LogGrows(c, before, requests[n]);
    assert requests[..n + 1] == requests;
    if i < |before.log| {
      j := EveryEventIsCaused(c, s, requests[..n], i);
      assert requests[..n][..j] == requests[..j] && requests[..n][..j + 1] == requests[..j + 1];
    } else {
      j := n;
      EventIsCaused(c, before, requests[n], i);
    }
  }

  lemma RequestedStays(c: Config, s: State, r: Request, k: TokenId)
    requires k in Next(c, s, r).tokens && Next(c, s, r).tokens[k].requested
    ensures (k in s.tokens && s.tokens[k].requested) || r == WanRequestGet(k, true)
  {
    hide Verdict, Usable, CanBegin, CanFinish, Attempted, Gated, DeviceRequired, FirstProvider;
  }

  lemma {:induction false} RequestedWasBegun(c: Config, s: State, requests: seq<Request>, k: TokenId) returns (j: nat)
    requires Initial(s)
    requires k in Run(c, s, requests).tokens && Run(c, s, requests).tokens[k].requested
    ensures j < |requests| && requests[j] == WanRequestGet(k, true)
  {
    hide Next;
    var n := |requests| - 1;
    RequestedStays(c, Run(c, s, requests[..n]), requests[n], k);
    if requests[n] == WanRequestGet(k, true) {
      j := n;
    } else {
      j := RequestedWasBegun(c, s, requests[..n], k);
    }
  }

  /** Every device in the log was shown in a ceremony that an earlier request had begun on the same token. */
  lemma CeremonyWasBegun(c: Config, s: State, requests: seq<Request>, i: nat) returns (b: nat, e: nat)
    requires Initial(s) && i < |Run(c, s, requests).log| && Run(c, s, requests).log[i].DeviceShown?
    ensures b < e < |requests| && requests[e].WanRespondPost? && requests[e].accepted && !requests[e].denied
    ensures requests[b] == WanRequestGet(requests[e].token, true)
  {
    hide Run, Usable;
    e := EveryEventIsCaused(c, s, requests, i);
    b := RequestedWasBegun(c, s, requests[..e], requests[e].token);
  }
}
