/**
  SimCardAO, SubscriptionAO and the hotswap of SimActionDispatcher: two objects that publish on one
  bus, the card calling the subscription back whenever its state is published.
 */
module SimSubsystem {
  import opened Common
  import M = SimModel

  class Bus {
    var log: seq<M.Message>

    constructor ()
      ensures log == []
    {
      log := [];
    }

    method Publish(m: M.Message)
      modifies this
      ensures log == old(log) + [m]
    {
      log := log + [m];
    }
  }

  class Subscription {
    const bus: Bus
    var identity: M.Identity
    var available: bool
    var lastPublished: Option<M.Identity>
    var hotswapActive: bool

    constructor (bus: Bus, identity: M.Identity)
      ensures this.bus == bus && this.identity == identity
      ensures available && lastPublished == None && !hotswapActive
    {
      this.bus, this.identity := bus, identity;
      available, lastPublished, hotswapActive := true, None, false;
    }

    function VisibleIdentity(): M.Identity
      reads this
    {
      if available then identity else M.NoIdentity
    }

    /** Deduplicated by the value actually sent. */
    method PublishIdentity(id: M.Identity)
      modifies this`lastPublished, bus
      ensures lastPublished == Some(id)
      ensures bus.log == old(bus.log) + (if old(lastPublished) == Some(id) then [] else [M.SubInfoChanged(id)])
    {
      if lastPublished == Some(id) {
        return;
      }
      lastPublished := Some(id);
      bus.Publish(M.SubInfoChanged(id));
    }

    method SetCardAvailable(on: bool)
      modifies this`available, this`lastPublished, bus
      ensures available == on
      ensures hotswapActive ==> lastPublished == old(lastPublished) && bus.log == old(bus.log)
      ensures !hotswapActive ==>
                && lastPublished == Some(VisibleIdentity())
                && bus.log == old(bus.log) + (if old(lastPublished) == Some(VisibleIdentity()) then []
                                              else [M.SubInfoChanged(VisibleIdentity())])
    {
      available := on;
      if !hotswapActive {
        PublishIdentity(VisibleIdentity());
      }
    }
  }

  class Sim {
    const slot: int
    const bus: Bus
    const sub: Subscription
    // Fields of the card object.
    var installed: bool
    var card: M.CardState
    var app: M.AppState
    var powerOn: bool

    ghost function Model(): M.Sim
      reads this, sub, bus
    {
      M.Sim(slot, installed, card, app, powerOn, sub.identity, sub.available, sub.lastPublished, sub.hotswapActive, bus.log)
    }

    /** The objects are wired together. */
    ghost predicate Wired()
      reads this
    {
      sub.bus == bus
    }

    ghost predicate Valid()
      reads this, sub, bus
    {
      Wired() && M.Inv(Model())
    }

    /** Creates both objects, starts the card, then the subscription, then connects the callback. */
    constructor (slot: int, identity: M.Identity)
      ensures Valid() && Model() == M.Started(slot, identity)
    {
      var b := new Bus();
      var s := new Subscription(b, identity);
      var present := identity.iccid != "" || identity.imsi != "";
      this.slot := slot;
      bus, sub, installed := b, s, present;
      card := if present then M.PRESENT else M.ABSENT;
      app := if present then M.READY else M.APP_UNKNOWN;
      powerOn := true;
      new;
      assert Model() == M.Created(slot, identity);
      Start();
      M.StartedInv(slot, identity);
    }

    method Start()
      requires Wired()
      modifies sub`available, sub`lastPublished, bus
      ensures Model() == M.StartUp(old(Model()))
    {
      bus.Publish(M.CardStateInd(card, app));
      bus.Publish(M.SubsysReady(true));
      ghost var s1 := M.Say(M.Say(old(Model()), M.CardStateInd(card, app)), M.SubsysReady(true));
      assert Model() == s1;
      sub.PublishIdentity(sub.VisibleIdentity());
      bus.Publish(M.SubsysReady(false));
      assert Model() == M.Say(M.PublishIdentity(s1, M.Visible(s1)), M.SubsysReady(false));
      sub.SetCardAvailable(card == M.PRESENT && app == M.READY);
    }

    method PublishCardState()
      requires Wired()
      modifies sub`available, sub`lastPublished, bus
      ensures Model() == M.PublishCardState(old(Model()))
    {
      bus.Publish(M.CardStateInd(card, app));
      sub.SetCardAvailable(card == M.PRESENT && app == M.READY);
    }

    method ApplyPowerState(on: bool)
      modifies this
      ensures Model() == M.Power(old(Model()), on)
    {
      powerOn := on;
      if !installed {
        card, app := M.ABSENT, M.APP_UNKNOWN;
      } else if on {
        card, app := M.PRESENT, M.READY;
      } else {
        card, app := M.PRESENT, M.APP_UNKNOWN;
      }
    }

    method ForceCardState(newCard: Option<M.CardState>, newApp: Option<M.AppState>)
      requires Valid()
      modifies this, sub, bus
      ensures Valid() && Model() == M.Step(old(Model()), M.ForceCardState(newCard, newApp))
    {
      M.StepInv(Model(), M.ForceCardState(newCard, newApp));
      if newCard.Some? { card := newCard.value; }
      if newApp.Some? { app := newApp.value; }
      if app == M.READY && card == M.PRESENT { powerOn := true; }
      PublishCardState();
    }

    method ForcePower(on: bool)
      requires Valid()
      modifies this, sub, bus
      ensures Valid() && Model() == M.Step(old(Model()), M.ForcePower(on))
    {
      M.StepInv(Model(), M.ForcePower(on));
      ApplyPowerState(on);
      PublishCardState();
    }

    method HandleSetPower(reqSlot: int, on: bool)
      requires Valid()
      modifies this, sub, bus
      ensures Valid() && Model() == M.Step(old(Model()), M.SetPower(reqSlot, on))
    {
      M.StepInv(Model(), M.SetPower(reqSlot, on));
      if reqSlot != slot {
        bus.Publish(M.WrongSlot(reqSlot));
        return;
      }
      ApplyPowerState(on);
      bus.Publish(M.SetPowerRsp);
      PublishCardState();
    }

    method SetCardAppState(newCard: M.CardState, newApp: M.AppState)
      requires Wired()
      modifies this`card, this`app, sub`available, sub`lastPublished, bus
      ensures Model() == M.SetCardApp(old(Model()), newCard, newApp)
    {
      card, app := newCard, newApp;
      PublishCardState();
    }

    method ReseatCard()
      requires Wired()
      modifies this, sub`hotswapActive, sub`available, sub`lastPublished, bus
      ensures Model() == M.Reseated(old(Model()))
    {
      sub.hotswapActive := true;
      installed := false;
      SetCardAppState(M.ABSENT, M.APP_UNKNOWN);
      installed, powerOn := true, true;
      SetCardAppState(M.PRESENT, M.APP_UNKNOWN);
      SetCardAppState(M.PRESENT, M.READY);
      sub.hotswapActive := false;
    }

    /** Remove, detect, ready; the new identity comes last, as the only identity indication. */
    method Hotswap(id: M.Identity)
      requires Valid()
      modifies this, sub, bus
      ensures Valid() && Model() == M.Step(old(Model()), M.Hotswap(id))
    {
      M.StepInv(Model(), M.Hotswap(id));
      ReseatCard();
      sub.identity := id;
      sub.lastPublished := None;
      sub.PublishIdentity(id);
    }

    method Resubscribe()
      requires Valid()
      modifies this, sub, bus
      ensures Valid() && Model() == M.Step(old(Model()), M.Resubscribe)
    {
      M.StepInv(Model(), M.Resubscribe);
      PublishCardState();
      bus.Publish(M.SubsysReady(true));
      sub.lastPublished := None;
      sub.PublishIdentity(sub.VisibleIdentity());
      bus.Publish(M.SubsysReady(false));
    }

    method HandleGetIccid(reqSlot: int)
      requires Valid()
      modifies bus
      ensures Valid() && Model() == M.Step(old(Model()), M.GetIccid(reqSlot))
    {
      M.StepInv(Model(), M.GetIccid(reqSlot));
      if reqSlot != slot {
        bus.Publish(M.WrongSlot(reqSlot));
        return;
      }
      bus.Publish(M.IccidRsp(sub.VisibleIdentity().iccid));
    }

    method HandleGetImsi(reqSlot: int)
      requires Valid()
      modifies bus
      ensures Valid() && Model() == M.Step(old(Model()), M.GetImsi(reqSlot))
    {
      M.StepInv(Model(), M.GetImsi(reqSlot));
      if reqSlot != slot {
        bus.Publish(M.WrongSlot(reqSlot));
        return;
      }
      bus.Publish(M.ImsiRsp(sub.VisibleIdentity().imsi));
    }
  }
}
