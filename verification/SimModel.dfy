/** The SIM card and its subscription identity, as a transition function over both objects. */
module SimModel {
  import opened Common

  datatype CardState = ABSENT | PRESENT | ERROR | RESTRICTED | CARD_UNKNOWN

  datatype AppState = READY | ILLEGAL | APP_UNKNOWN

  datatype Identity = Identity(iccid: string, imsi: string)

  const NoIdentity := Identity("", "")

  datatype Message =
    | CardStateInd(card: CardState, app: AppState)
    | SubInfoChanged(identity: Identity)
    | SetPowerRsp
    | IccidRsp(iccid: string)
    | ImsiRsp(imsi: string)
    | SubsysReady(ofCard: bool)
    | WrongSlot(slot: int)

  datatype Sim = Sim(
    slot: int,                                                        // the one slot that is simulated
    installed: bool, card: CardState, app: AppState, powerOn: bool,   // card object
    identity: Identity, available: bool, lastPublished: Option<Identity>, hotswapping: bool, // subscription object
    log: seq<Message>)

  datatype Op =
    | ForceCardState(newCard: Option<CardState>, newApp: Option<AppState>)
    | ForcePower(on: bool)
    | SetPower(slot: int, on: bool)
    | Hotswap(newIdentity: Identity)
    | Resubscribe
    | GetIccid(slot: int)
    | GetImsi(slot: int)

  // Card object.

  predicate IdentityAvailable(card: CardState, app: AppState) { card == PRESENT && app == READY }

  function Say(s: Sim, m: Message): Sim { s.(log := s.log + [m]) }

  function Power(s: Sim, on: bool): Sim {
    s.(powerOn := on,
       card := if s.installed then PRESENT else ABSENT,
       app := if s.installed && on then READY else APP_UNKNOWN)
  }

  function PublishCardState(s: Sim): Sim {
    SetCardAvailable(Say(s, CardStateInd(s.card, s.app)), IdentityAvailable(s.card, s.app))
  }

  function SetCardApp(s: Sim, card: CardState, app: AppState): Sim {
    PublishCardState(s.(card := card, app := app))
  }

  // Subscription object.

  /** The identity as the modem would report it: empty while the card is unreadable. */
  function Visible(s: Sim): Identity { if s.available then s.identity else NoIdentity }

  function PublishIdentity(s: Sim, id: Identity): Sim {
    if s.lastPublished == Some(id) then s
    else Say(s.(lastPublished := Some(id)), SubInfoChanged(id))
  }

  function SetCardAvailable(s: Sim, available: bool): Sim {
    var s' := s.(available := available);
    if s.hotswapping then s' else PublishIdentity(s', Visible(s'))
  }

  // Start-up and operations.

  function Created(slot: int, identity: Identity): Sim {
    var installed := identity.iccid != "" || identity.imsi != "";
    Sim(slot, installed, if installed then PRESENT else ABSENT, if installed then READY else APP_UNKNOWN, true,
        identity, true, None, false, [])
  }

  /** The card starts, then the subscription; only then is the card's state passed on. */
  function StartUp(s: Sim): Sim {
    var s1 := Say(Say(s, CardStateInd(s.card, s.app)), SubsysReady(true));
    var s2 := Say(PublishIdentity(s1, Visible(s1)), SubsysReady(false));
    SetCardAvailable(s2, IdentityAvailable(s.card, s.app))
  }

  function Started(slot: int, identity: Identity): Sim { StartUp(Created(slot, identity)) }

  /** The card is taken out, detected again and made ready, with identity indications held back. */
  function Reseated(s: Sim): Sim {
    var s1 := SetCardApp(s.(hotswapping := true, installed := false), ABSENT, APP_UNKNOWN);
    var s2 := SetCardApp(s1.(installed := true, powerOn := true), PRESENT, APP_UNKNOWN);
    SetCardApp(s2, PRESENT, READY).(hotswapping := false)
  }

  /** The new identity is recorded and announced, whatever was announced before. */
  function OnHotswap(s: Sim, id: Identity): Sim {
    PublishIdentity(Reseated(s).(identity := id, lastPublished := None), id)
  }

  function OnResubscribe(s: Sim): Sim {
    var s1 := Say(PublishCardState(s), SubsysReady(true)).(lastPublished := None);
    Say(PublishIdentity(s1, Visible(s1)), SubsysReady(false))
  }

  function Step(s: Sim, op: Op): Sim {
    match op
    case ForceCardState(card, app) =>
      var s1 := s.(card := if card.Some? then card.value else s.card, app := if app.Some? then app.value else s.app);
      PublishCardState(if IdentityAvailable(s1.card, s1.app) then s1.(powerOn := true) else s1)
    case ForcePower(on) => PublishCardState(Power(s, on))
    case SetPower(slot, on) =>
      if slot != s.slot then Say(s, WrongSlot(slot)) else PublishCardState(Say(Power(s, on), SetPowerRsp))
    case Hotswap(id) => OnHotswap(s, id)
    case Resubscribe => OnResubscribe(s)
    case GetIccid(slot) => Say(s, if slot != s.slot then WrongSlot(slot) else IccidRsp(Visible(s).iccid))
    case GetImsi(slot) => Say(s, if slot != s.slot then WrongSlot(slot) else ImsiRsp(Visible(s).imsi))
  }

  function Run(s: Sim, ops: seq<Op>): Sim {
    if ops == [] then s else Step(Run(s, ops[..|ops| - 1]), ops[|ops| - 1])
  }

  // ---------------------------------------------------------------------------------------------
  // The event-fed identity agrees with the queried one
  // ---------------------------------------------------------------------------------------------

  /** The last identity indication in a log. */
  function LastIdentity(log: seq<Message>): Option<Identity> {
    if log == [] then None
    else if log[|log| - 1].SubInfoChanged? then Some(log[|log| - 1].identity)
    else LastIdentity(log[..|log| - 1])
  }

  /** The deduplication record is the last identity indication actually sent, or cleared. */
  predicate Recorded(s: Sim) {
    s.lastPublished.Some? ==> s.lastPublished == LastIdentity(s.log)
  }

  ghost predicate Inv(s: Sim) {
    && Recorded(s) && !s.hotswapping
    && (s.available <==> IdentityAvailable(s.card, s.app))
    && s.lastPublished == Some(Visible(s))
  }

  lemma SayLast(s: Sim, m: Message)
    ensures LastIdentity(Say(s, m).log) == if m.SubInfoChanged? then Some(m.identity) else LastIdentity(s.log)
  {
    assert (s.log + [m])[..|s.log|] == s.log;
  }

  lemma PublishIdentityRecords(s: Sim, id: Identity)
    requires Recorded(s)
    ensures var s' := PublishIdentity(s, id);
            Recorded(s') && s' == s.(lastPublished := Some(id), log := s'.log)
  {
    SayLast(s.(lastPublished := Some(id)), SubInfoChanged(id));
  }

  /** Publishing the card state re-establishes agreement, whatever changed before it. */
  lemma PublishCardStateAgrees(s: Sim)
    requires Recorded(s) && !s.hotswapping
    ensures Inv(PublishCardState(s))
  {
    var s1 := Say(s, CardStateInd(s.card, s.app));
    SayLast(s, CardStateInd(s.card, s.app));
    var s2 := s1.(available := IdentityAvailable(s.card, s.app));
    PublishIdentityRecords(s2, Visible(s2));
  }

  /** A hotswap emits exactly three card states and then one identity, the new one, last. */
  lemma HotswapSequence(s: Sim, id: Identity)
    ensures var s' := Step(s, Hotswap(id));
            && s'.log == s.log + [CardStateInd(ABSENT, APP_UNKNOWN), CardStateInd(PRESENT, APP_UNKNOWN),
                                  CardStateInd(PRESENT, READY), SubInfoChanged(id)]
            && s'.identity == id && s'.available && s'.lastPublished == Some(id)
            && s'.card == PRESENT && s'.app == READY && s'.installed && s'.powerOn && !s'.hotswapping
  {}

  lemma ResubscribeAgrees(s: Sim)
    requires Inv(s)
    ensures Inv(OnResubscribe(s))
    ensures SubInfoChanged(Visible(s)) in OnResubscribe(s).log[|s.log|..]
  {
    PublishCardStateAgrees(s);
    var s0 := PublishCardState(s);
    var s1 := Say(s0, SubsysReady(true)).(lastPublished := None);
    SayLast(s0, SubsysReady(true));
    var s2 := PublishIdentity(s1, Visible(s1));
    PublishIdentityRecords(s1, Visible(s1));
    SayLast(s2, SubsysReady(false));
    assert s2.log == s1.log + [SubInfoChanged(Visible(s))];
    assert s.log <= s1.log;
    assert OnResubscribe(s).log[|s1.log|] == SubInfoChanged(Visible(s));
  }

  lemma SaidInv(s: Sim, m: Message)
    requires Inv(s) && !m.SubInfoChanged?
    ensures Inv(Say(s, m))
  {
    SayLast(s, m);
  }

  lemma SetPowerInv(s: Sim, slot: int, on: bool)
    requires Inv(s)
    ensures Inv(Step(s, SetPower(slot, on)))
  {
    if slot != s.slot {
      SaidInv(s, WrongSlot(slot));
    } else {
      SayLast(Power(s, on), SetPowerRsp);
      PublishCardStateAgrees(Say(Power(s, on), SetPowerRsp));
    }
  }

  lemma HotswapInv(s: Sim, id: Identity)
    ensures Inv(Step(s, Hotswap(id)))
  {
    HotswapSequence(s, id);
    assert Step(s, Hotswap(id)).log[|Step(s, Hotswap(id)).log| - 1] == SubInfoChanged(id);
  }

  lemma ForcedInv(s: Sim, card: Option<CardState>, app: Option<AppState>)
    requires Inv(s)
    ensures Inv(Step(s, ForceCardState(card, app)))
  {
    var s1 := s.(card := if card.Some? then card.value else s.card, app := if app.Some? then app.value else s.app);
    PublishCardStateAgrees(if IdentityAvailable(s1.card, s1.app) then s1.(powerOn := true) else s1);
  }

  lemma StepInv(s: Sim, op: Op)
    requires Inv(s)
    ensures Inv(Step(s, op))
  {
    match op
    case ForceCardState(card, app) => ForcedInv(s, card, app);
    case ForcePower(on) => PublishCardStateAgrees(Power(s, on));
    case SetPower(slot, on) => SetPowerInv(s, slot, on);
    case Hotswap(id) => HotswapInv(s, id);
    case Resubscribe => ResubscribeAgrees(s);
    case GetIccid(slot) => SaidInv(s, if slot != s.slot then WrongSlot(slot) else IccidRsp(Visible(s).iccid));
    case GetImsi(slot) => SaidInv(s, if slot != s.slot then WrongSlot(slot) else ImsiRsp(Visible(s).imsi));
  }

  lemma StepSlot(s: Sim, op: Op)
    ensures Step(s, op).slot == s.slot
  {
    match op
    case ForceCardState(_, _) =>
    case ForcePower(_) =>
    case SetPower(_, _) =>
    case Hotswap(_) => assert Reseated(s).slot == s.slot;
    case Resubscribe => assert PublishCardState(s).slot == s.slot;
    case GetIccid(_) =>
    case GetImsi(_) =>
  }

  lemma StartedInv(slot: int, identity: Identity)
    ensures Inv(Started(slot, identity))
  {
    var s0 := Created(slot, identity);
    var s1 := Say(Say(s0, CardStateInd(s0.card, s0.app)), SubsysReady(true));
    PublishIdentityRecords(s1, identity);
    var s2 := PublishIdentity(s1, identity);
    SayLast(s2, SubsysReady(false));
    var s3 := Say(s2, SubsysReady(false)).(available := s0.installed);
    PublishIdentityRecords(s3, Visible(s3));
  }

  lemma {:induction false} RunInv(slot: int, identity: Identity, ops: seq<Op>)
    ensures Inv(Run(Started(slot, identity), ops)) && Run(Started(slot, identity), ops).slot == slot
    decreases |ops|
  {
    if ops == [] {
      StartedInv(slot, identity);
    } else {
      var s := Run(Started(slot, identity), ops[..|ops| - 1]);
      RunInv(slot, identity, ops[..|ops| - 1]);
      StepInv(s, ops[|ops| - 1]);
      StepSlot(s, ops[|ops| - 1]);
    }
  }

  /**
    After any operations since start-up, the last identity event sent is what the identity queries
    return: the provisioned identity while the card is PRESENT and READY, the empty one otherwise.
   */
  lemma EventsAgreeWithQueries(slot: int, identity: Identity, ops: seq<Op>)
    ensures var s := Run(Started(slot, identity), ops);
            && Inv(s)
            && LastIdentity(s.log) == Some(if s.card == PRESENT && s.app == READY then s.identity else NoIdentity)
            && Step(s, GetIccid(slot)).log == s.log + [IccidRsp(LastIdentity(s.log).value.iccid)]
            && Step(s, GetImsi(slot)).log == s.log + [ImsiRsp(LastIdentity(s.log).value.imsi)]
  {
    RunInv(slot, identity, ops);
  }

  // ---------------------------------------------------------------------------------------------
  // What each operation makes of the card
  // ---------------------------------------------------------------------------------------------

  /** The card as presence and power determine it, and the identity visible then. */
  ghost predicate Powered(s: Sim, s': Sim, on: bool) {
    && s'.installed == s.installed && s'.powerOn == on && s'.identity == s.identity
    && s'.card == (if s.installed then PRESENT else ABSENT)
    && s'.app == (if s.installed && on then READY else APP_UNKNOWN)
    && (s'.available <==> s.installed && on)
  }

  /** The identity indication that follows a change of visibility from `s` to `s'`, none if nothing changed. */
  function IdentityNews(s: Sim, s': Sim): seq<Message> {
    var old', new' := if s.available then s.identity else NoIdentity, if s'.available then s'.identity else NoIdentity;
    if old' == new' then [] else [SubInfoChanged(new')]
  }

  /** Powering makes an inserted card PRESENT, READY only if on, and an absent one stay ABSENT. */
  lemma PowerEffects(s: Sim, on: bool)
    requires Inv(s)
    ensures var s' := Step(s, ForcePower(on));
            Powered(s, s', on) && s'.log == s.log + ([CardStateInd(s'.card, s'.app)] + IdentityNews(s, s'))
  {}

  /** A power request does the same after its answer; one for another slot is refused and does nothing. */
  lemma SetPowerEffects(s: Sim, slot: int, on: bool)
    requires Inv(s)
    ensures var s' := Step(s, SetPower(slot, on));
            if slot != s.slot then s' == s.(log := s.log + [WrongSlot(slot)])
            else Powered(s, s', on)
                 && s'.log == s.log + ([SetPowerRsp, CardStateInd(s'.card, s'.app)] + IdentityNews(s, s'))
  {}

  /** A forced card or application state is taken as given, the other kept; PRESENT and READY means powered. */
  lemma ForcedEffects(s: Sim, card: Option<CardState>, app: Option<AppState>)
    requires Inv(s)
    ensures var s' := Step(s, ForceCardState(card, app));
            && s'.card == (match card case Some(x) => x case None => s.card)
            && s'.app == (match app case Some(x) => x case None => s.app)
            && s'.installed == s.installed && s'.identity == s.identity
            && (s'.powerOn <==> s.powerOn || (s'.card == PRESENT && s'.app == READY))
            && s'.log == s.log + ([CardStateInd(s'.card, s'.app)] + IdentityNews(s, s'))
  {}

  /** At start-up the card is inserted iff there is an identity, and both objects announce what they show. */
  lemma StartedEffects(slot: int, identity: Identity)
    ensures var s, some := Started(slot, identity), identity.iccid != "" || identity.imsi != "";
            && s.slot == slot && s.identity == identity && s.powerOn && (s.installed <==> some) && (s.available <==> some)
            && s.card == (if some then PRESENT else ABSENT) && s.app == (if some then READY else APP_UNKNOWN)
            && s.log == [CardStateInd(s.card, s.app), SubsysReady(true), SubInfoChanged(identity), SubsysReady(false)]
  {}

  /** A reconnect shows the card, then the identity once more, each before its readiness. */
  lemma ResubscribeEffects(s: Sim)
    requires Inv(s)
    ensures Step(s, Resubscribe)
            == s.(log := s.log + [CardStateInd(s.card, s.app), SubsysReady(true),
                                  SubInfoChanged(if s.card == PRESENT && s.app == READY then s.identity else NoIdentity),
                                  SubsysReady(false)])
  {}

  /** A query for another slot is refused. */
  lemma OtherSlotRefused(s: Sim, slot: int)
    requires slot != s.slot
    ensures Step(s, GetIccid(slot)) == s.(log := s.log + [WrongSlot(slot)])
    ensures Step(s, GetImsi(slot)) == s.(log := s.log + [WrongSlot(slot)])
  {}
}
