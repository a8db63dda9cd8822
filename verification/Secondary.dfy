/** Secondary tokens and the factor checks made on them: secondary/secondary.go and secondary/utils.go. */
module Secondary {
  import opened Wrappers

  type UserId = nat
  type TokenId = nat

  datatype Kind = User | UserDevice | UserDeviceRegister | Authority | AuthorityDevice

  /** The built-in device provider, or a configured one. */
  datatype Provider = DeviceProvider | External(id: nat)

  datatype Token = Token(
    user: UserId,
    kind: Kind,
    challenge: nat,
    provider: Provider,
    minted: int,
    pushSent: bool,
    phoneSent: bool,
    smsSent: bool,
    disabled: bool,
    requested: bool)  // a WebAuthn session has been opened

  datatype Factor = Push | Phone | Passcode | Sms | OtherFactor

  datatype ProviderType = Duo | OneLogin | Okta | OtherType

  /** What the settings hold for the token's provider. */
  datatype ProviderConf = ProviderConf(kind: ProviderType, push: bool, phone: bool, passcode: bool, sms: bool)

  /** One use of a factor: the provider settings found, and the provider's own answer (None when the call failed). */
  datatype Attempt = Attempt(factor: Factor, conf: Option<ProviderConf>, answer: Option<bool>)

  /** A passcode that the provider accepts. */
  function Passing(): Attempt {
    Attempt(Passcode, Some(ProviderConf(Duo, false, false, true, false)), Some(true))
  }

  datatype Outcome = Passed | Refused | Failed | Incomplete

  function NewToken(user: UserId, kind: Kind, challenge: nat, provider: Provider, now: int): Token {
    Token(user, kind, challenge, provider, now, false, false, false, false, false)
  }

  /** The token filter of Get: right type, and minted within the last `expire` seconds. */
  predicate Usable(t: Token, kind: Kind, now: int, expire: nat) {
    t.kind == kind && t.minted >= now - expire
  }

  /** The provider can serve the factor at all: it is switched on there, and its type implements it. */
  predicate Offers(conf: ProviderConf, factor: Factor) {
    match factor
    case Push => conf.push && conf.kind != OtherType
    case Phone => conf.phone && conf.kind == Duo
    case Passcode => conf.passcode && conf.kind != OtherType
    case Sms => conf.sms && conf.kind == Duo
    case OtherFactor => false
  }

  /** The factor was already used on this token and is not offered twice. */
  predicate Spent(t: Token, factor: Factor) {
    match factor
    case Push => t.pushSent
    case Phone => t.phoneSent
    case Sms => t.smsSent
    case _ => false
  }

  /** The outcome of one attempt: four conditions in order, then the provider's answer. */
  function Verdict(t: Token, a: Attempt): Outcome {
    if a.factor == OtherFactor then Failed
    else if t.disabled then Refused
    else if Spent(t, a.factor) || a.conf.None? || !Offers(a.conf.value, a.factor) || a.answer.None? then Failed
    else if a.factor == Sms then Incomplete
    else if a.answer.value then Passed
    else Refused
  }

  /** What an attempt leaves on the token: a mark for each factor sent, and the end of the token once it has passed. */
  function Marked(t: Token, a: Attempt): Token {
    var tried := !t.disabled && !Spent(t, a.factor);
    t.(pushSent := t.pushSent || (a.factor == Push && tried),
       phoneSent := t.phoneSent || (a.factor == Phone && tried),
       smsSent := t.smsSent || Verdict(t, a) == Incomplete,
       disabled := t.disabled || Verdict(t, a) == Passed)
  }

  /** A loaded token. Every write is committed to the store at once, so the object is the stored document. */
  class SecondaryToken {
    var token: Token

    constructor (token: Token)
      ensures this.token == token
    {
      this.token := token;
    }

    method PushFactor(conf: Option<ProviderConf>, answer: Option<bool>) returns (outcome: Outcome)
      modifies this
      ensures outcome == Verdict(old(token), Attempt(Push, conf, answer))
      ensures outcome == Passed <==>
        && !old(token).disabled && !old(token).pushSent && answer == Some(true)
        && conf.Some? && conf.value.push && conf.value.kind in {Duo, OneLogin, Okta}
      ensures token == old(token).(pushSent := old(token).pushSent || !old(token).disabled)
    {
      if token.disabled {
        return Refused;
      }
      if token.pushSent {
        return Failed;
      }
      token := token.(pushSent := true);
      if conf.None? || !conf.value.push {
        return Failed;
      }
      match conf.value.kind {
        case Duo | OneLogin | Okta =>
          if answer.None? {
            return Failed;
          }
        case _ =>
          return Failed;
      }
      return if answer.value then Passed else Refused;
    }

    method PhoneFactor(conf: Option<ProviderConf>, answer: Option<bool>) returns (outcome: Outcome)
      modifies this
      ensures outcome == Verdict(old(token), Attempt(Phone, conf, answer))
      ensures outcome == Passed <==>
        && !old(token).disabled && !old(token).phoneSent && answer == Some(true)
        && conf.Some? && conf.value.phone && conf.value.kind == Duo
      ensures token == old(token).(phoneSent := old(token).phoneSent || !old(token).disabled)
    {
      if token.disabled {
        return Refused;
      }
      if token.phoneSent {
        return Failed;
      }
      token := token.(phoneSent := true);
      if conf.None? || !conf.value.phone {
        return Failed;
      }
      match conf.value.kind {
        case Duo =>
          if answer.None? {
            return Failed;
          }
        case _ =>
          return Failed;
      }
      return if answer.value then Passed else Refused;
    }

    method PasscodeFactor(conf: Option<ProviderConf>, answer: Option<bool>) returns (outcome: Outcome)
      ensures outcome == Verdict(token, Attempt(Passcode, conf, answer))
      ensures outcome == Passed <==>
        && !token.disabled && answer == Some(true)
        && conf.Some? && conf.value.passcode && conf.value.kind in {Duo, OneLogin, Okta}
    {
      if token.disabled {
        return Refused;
      }
      if conf.None? || !conf.value.passcode {
        return Failed;
      }
      match conf.value.kind {
        case Duo | OneLogin | Okta =>
          if answer.None? {
            return Failed;
          }
        case _ =>
          return Failed;
      }
      return if answer.value then Passed else Refused;
    }

    method SmsFactor(conf: Option<ProviderConf>, answer: Option<bool>) returns (outcome: Outcome)
      modifies this
      ensures outcome == Verdict(old(token), Attempt(Sms, conf, answer)) && outcome != Passed
      ensures outcome == Incomplete <==>
        && !old(token).disabled && !old(token).smsSent && answer.Some?
        && conf.Some? && conf.value.sms && conf.value.kind == Duo
      ensures token == old(token).(smsSent := old(token).smsSent || outcome == Incomplete)
    {
      if token.disabled {
        return Refused;
      }
      if token.smsSent || conf.None? || !conf.value.sms {
        return Failed;
      }
      match conf.value.kind {
        case Duo =>
          if answer.None? {
            return Failed;
          }
        case _ =>
          return Failed;
      }
      token := token.(smsSent := true);
      return Incomplete;
    }

    method Complete() returns (outcome: Outcome)
      modifies this
      ensures outcome == if old(token).disabled then Refused else Passed
      ensures token == old(token).(disabled := true)
    {
      if token.disabled {
        return Refused;
      }
      token := token.(disabled := true);
      return Passed;
    }

    method Handle(a: Attempt) returns (outcome: Outcome)
      modifies this
      ensures outcome == Verdict(old(token), a)
      ensures token == Marked(old(token), a)
      ensures token.disabled <==> old(token).disabled || outcome == Passed
    {
      match a.factor {
        case Push => outcome := PushFactor(a.conf, a.answer);
        case Phone => outcome := PhoneFactor(a.conf, a.answer);
        case Passcode => outcome := PasscodeFactor(a.conf, a.answer);
        case Sms => outcome := SmsFactor(a.conf, a.answer);
        case OtherFactor => outcome := Failed;
      }
      if outcome == Passed && a.factor != Sms {
        outcome := Complete();
      }
    }

    /** Opening a WebAuthn ceremony, for registration and for login alike; `begun` is the library's answer. */
    method DeviceBegin(begun: bool) returns (outcome: Outcome)
      modifies this
      ensures outcome == Passed <==> CanBegin(old(token)) && begun
      ensures outcome == Passed <==>
        !old(token).disabled && old(token).provider == DeviceProvider && !old(token).requested && begun
      ensures token == old(token).(requested := old(token).requested || outcome == Passed)
    {
      if token.disabled {
        return Refused;
      }
      if token.provider != DeviceProvider || token.requested || !begun {
        return Failed;
      }
      token := token.(requested := true);
      return Passed;
    }

    /** Closing it; `accepted` says whether the response verified and named a usable device. */
    method DeviceFinish(accepted: bool) returns (outcome: Outcome)
      ensures outcome == Passed <==> CanFinish(token) && accepted
      ensures outcome == Passed <==>
        !token.disabled && token.provider == DeviceProvider && token.requested && accepted
    {
      if token.disabled {
        return Refused;
      }
      if token.provider != DeviceProvider || !token.requested {
        return Failed;
      }
      return if accepted then Passed else Refused;
    }
  }

  predicate CanBegin(t: Token) {
    !t.disabled && t.provider == DeviceProvider && !t.requested
  }

  predicate CanFinish(t: Token) {
    !t.disabled && t.provider == DeviceProvider && t.requested
  }

  // ---- What an attempt needs

  /** An attempt passes exactly when the token is still good, the provider said yes, and the factor is one that this
      provider serves and, but for passcodes, that was not used before. */
  lemma PassedIff(t: Token, a: Attempt)
    ensures Verdict(t, a) == Passed <==>
      && !t.disabled && a.answer == Some(true) && a.conf.Some?
      && var conf := a.conf.value;
         match a.factor
         case Push => !t.pushSent && conf.push && conf.kind in {Duo, OneLogin, Okta}
         case Phone => !t.phoneSent && conf.phone && conf.kind == Duo
         case Passcode => conf.passcode && conf.kind in {Duo, OneLogin, Okta}
         case _ => false
  {
  }

  /** A text message is the one factor that ends incomplete: sent, but not answered here. */
  lemma IncompleteIff(t: Token, a: Attempt)
    ensures Verdict(t, a) == Incomplete <==>
      && a.factor == Sms && !t.disabled && !t.smsSent && a.answer.Some?
      && a.conf.Some? && a.conf.value.sms && a.conf.value.kind == Duo
  {
  }

  /** An attempt leaves the token's owner, kind and provider, and ends it exactly by passing; a push or a call is marked
      as soon as it is made, whatever comes of it, and a passcode leaves no mark. */
  lemma MarkedMeans(t: Token, a: Attempt)
    ensures var m := Marked(t, a);
      && m.(pushSent := t.pushSent, phoneSent := t.phoneSent, smsSent := t.smsSent, disabled := t.disabled) == t
      && (m.disabled <==> t.disabled || Verdict(t, a) == Passed)
      && (m.pushSent <==> t.pushSent || (a.factor == Push && !t.disabled))
      && (m.phoneSent <==> t.phoneSent || (a.factor == Phone && !t.disabled))
      && (m.smsSent <==> t.smsSent || Verdict(t, a) == Incomplete)
  {
  }

  // ---- What a token can do in its life

  /** The token after a sequence of attempts. */
  function After(t: Token, attempts: seq<Attempt>): Token {
    if attempts == [] then t else Marked(After(t, attempts[..|attempts| - 1]), attempts[|attempts| - 1])
  }

  function OutcomeAt(t: Token, attempts: seq<Attempt>, i: nat): Outcome
    requires i < |attempts|
  {
    Verdict(After(t, attempts[..i]), attempts[i])
  }

  lemma {:induction false} MarksStay(t: Token, attempts: seq<Attempt>, i: nat, j: nat)
    requires i <= j <= |attempts|
    ensures After(t, attempts[..i]).disabled ==> After(t, attempts[..j]).disabled
    ensures forall f :: Spent(After(t, attempts[..i]), f) ==> Spent(After(t, attempts[..j]), f)
    decreases j - i
  {
    if i < j {
      MarksStay(t, attempts, i, j - 1);
      assert attempts[..j][..j - 1] == attempts[..j - 1];
    }
  }

  lemma AfterOne(t: Token, attempts: seq<Attempt>, i: nat)
    requires i < |attempts|
    ensures After(t, attempts[..i + 1]) == Marked(After(t, attempts[..i]), attempts[i])
  {
    assert attempts[..i + 1][..i] == attempts[..i];
  }

  /** A token passes at most once, and once it has passed every later attempt is refused or fails. */
  lemma PassesOnce(t: Token, attempts: seq<Attempt>, i: nat, j: nat)
    requires i < j < |attempts| && OutcomeAt(t, attempts, i) == Passed
    ensures OutcomeAt(t, attempts, j) in {Refused, Failed}
  {
    AfterOne(t, attempts, i);
    MarksStay(t, attempts, i + 1, j);
  }

  /** Push and phone calls are each put to the provider at most once for a token, text messages sent at most once. */
  lemma AskedOnce(t: Token, attempts: seq<Attempt>, i: nat, j: nat)
    requires i < j < |attempts| && attempts[i].factor == attempts[j].factor
    requires attempts[i].factor in {Push, Phone} || OutcomeAt(t, attempts, i) == Incomplete
    ensures OutcomeAt(t, attempts, j) in {Refused, Failed}
  {
    AfterOne(t, attempts, i);
    MarksStay(t, attempts, i + 1, j);
    var f := attempts[i].factor;
    assert Spent(After(t, attempts[..i + 1]), f) || After(t, attempts[..i + 1]).disabled;
    assert Spent(After(t, attempts[..i + 1]), f) ==> Spent(After(t, attempts[..j]), f);
  }
}
