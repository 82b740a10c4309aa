/**
  The EcallSession object: one method per state entry and per event, as in the implementation, each
  proved to perform the corresponding transition of EcallModel. The callbacks into the owning manager
  are appended to `sent`; the manager acts on them in order.
 */
module EcallSession {
  import opened Common
  import opened EcallModel

  class Session {
    const index: nat
    const number: string
    const c: Config
    var state: State
    var pulled: bool
    var attempt: nat
    var updating: bool
    var sent: seq<Callback>
    ghost var port: Port

    ghost function Model(): EcallModel.Session
      reads this
    {
      EcallModel.Session(state, pulled, attempt, updating)
    }

    ghost function Now(): Move
      reads this
    {
      Move(Model(), port)
    }

    ghost predicate Synced()
      reads this
    {
      WellFormed(c) && port.out == sent
    }

    ghost predicate Valid()
      reads this
    {
      Synced() && Sound(c, Model())
    }

    constructor (callIndex: nat, remotePartyNumber: string, config: Config)
      requires WellFormed(config)
      ensures Valid() && Now() == Move(Fresh, Silent)
      ensures index == callIndex && number == remotePartyNumber && c == config
    {
      index, number, c := callIndex, remotePartyNumber, config;
      state, pulled, attempt, updating := CallConnect, false, 0, false;
      sent, port := [], Silent;
    }

    method Call(cb: Callback)
      requires Synced()
      modifies this`sent, this`port
      ensures Synced() && port == Emit(old(port), cb)
    {
      sent := sent + [cb];
      port := Emit(port, cb);
    }

    method CallIf(on: bool, cb: Callback)
      requires Synced()
      modifies this`sent, this`port
      ensures Synced() && port == EmitIf(old(port), on, cb)
    {
      if on { Call(cb); }
    }

    // Events.

    method Start()
      requires Valid()
      modifies this
      ensures Valid() && Now() == Step(c, old(Model()), old(port), Event.Start)
    {
      StepSound(c, Model(), port, Event.Start);
      state := CallConnect;
      EnterConnect();
    }

    method Hangup()
      requires Valid()
      modifies this
      ensures Valid() && Now() == Step(c, old(Model()), old(port), Event.Hangup)
    {
      if state == CallConnect || InCall(state) {
        Call(ChangeCallState(ENDED));
        CallIf(!c.custom, SendEvent(T2, false));
        EnterPsap();
      } else if state == Redialing {
        Call(ChangeCallState(ENDED));
        EnterPsap();
      }
    }

    method MsdPullRequest()
      requires Valid()
      modifies this
      ensures Valid() && Now() == Step(c, old(Model()), old(port), MsdPull)
    {
      StepSound(c, Model(), port, MsdPull);
      pulled := true;
      if state == CallConversation {
        updating := true;
        if c.ng {
          CallIf(!c.custom, Msd(OUTBAND_MSD_TRANSMISSION_STARTED));
          Call(Msd(OUTBAND_MSD_TRANSMISSION_SUCCESS));
          updating := false;
        } else {
          EnterDecodeSend();
        }
      }
    }

    method NetworkDeregistrationRequest()
      requires Valid()
      modifies this
      ensures Valid() && Now() == Step(c, old(Model()), old(port), Deregister)
    {
      CallIf(state == PSAPCallback && !c.custom, SendEvent(T10, false));
    }

    method OnHlapTimerExpiry(timer: Timer, ecallOnly: bool)
      requires Valid()
      modifies this
      ensures Valid() && Now() == Step(c, old(Model()), old(port), HlapExpiry(timer, ecallOnly))
    {
      StepSound(c, Model(), port, HlapExpiry(timer, ecallOnly));
      port := Delivered(port, timer);
      if state == DecodeSendMSD && timer == T5 && T5 in c.failed {
        MsdFailure(T5);
      } else if state == CRCCheckonMSD && timer == T7 {
        MsdFailure(T7);
      } else if state == DecodeMSD && timer == T6 && !c.custom && !c.ng {
        MsdFailure(T6);
      } else if state == CallConversation && timer == T2 && !c.custom {
        Call(ExpiryTimer(T2));
        Call(ChangeCallState(ENDED));
        if c.mode == Some(CALLDROP) {
          EnterRedial();
        } else {
          EnterPsap();
        }
      } else if state == PSAPCallback && timer == T9 {
        if !c.custom {
          Call(ExpiryTimer(T9));
          if !ecallOnly {
            state := Terminal;
            Call(OnTerminal);
          } else {
            Call(StartTimer(T10));
          }
        }
      } else if state == PSAPCallback && timer == T10 {
        Call(ExpiryTimer(T10));
      }
    }

    method OnRedialTimerExpiry()
      requires Valid()
      modifies this
      ensures Valid() && Now() == Step(c, old(Model()), old(port), RedialExpiry)
    {
      StepSound(c, Model(), port, RedialExpiry);
      if state != Redialing {
        return;
      }
      Call(ChangeCallState(DIALING));
      if c.succeedAt == Some(attempt) {
        Call(ChangeCallState(ACTIVE));
        Call(OnRedial(false, CALL_CONNECTED));
        EnterDecodeSend();
        return;
      }
      RedialFailed();
    }

    /** The attempt failed: wait for the next one, or give up after the last. */
    method RedialFailed()
      requires Synced() && 1 <= attempt <= |c.gaps|
      modifies this
      ensures Synced() && Now() == AttemptFailed(c, old(Model()), old(port))
    {
      Call(ChangeCallState(ENDED));
      if attempt < |c.gaps| {
        Call(OnRedial(true, FailureReason(c)));
        attempt := attempt + 1;
        Call(StartRedialTimer(c.gaps[attempt - 1]));
      } else {
        Call(OnRedial(false, MAX_REDIAL_ATTEMPTED));
        EnterPsap();
      }
    }

    // State entries.

    method MsdFailure(timer: Timer)
      requires Synced()
      modifies this
      ensures Synced() && Now() == MsdFailed(old(Model()), old(port), timer)
    {
      Call(ExpiryTimer(timer));
      Call(Msd(MSD_TRANSMISSION_FAILURE));
      state := CallConversation;
    }

    method EnterConnect()
      requires Synced()
      modifies this
      ensures Synced() && Now() == EnterCallConnect(c, old(Model()), old(port))
    {
      Call(ChangeCallState(DIALING));
      if c.mode == Some(CALLORIG) {
        Call(ChangeCallState(ENDED));
        EnterRedial();
        return;
      }
      Call(ChangeCallState(ALERTING));
      CallIf(!c.custom, StartTimer(T2));
      CallIf(!c.custom && !c.ng && c.msd, if T5 in c.failed then StartTimer(T5) else SendEvent(T5, true));
      EnterDecodeSend();
    }

    method EnterDecodeSend()
      requires Synced()
      modifies this
      ensures Synced() && Now() == EnterDecodeSendMsd(c, old(Model()), old(port))
    {
      state := DecodeSendMSD;
      if !c.ng {
        if c.msd {
          if pulled {
            CallIf(!c.custom, Msd(START_RECEIVED));
            Call(Msd(MSD_TRANSMISSION_STARTED));
            EnterCrc();
          } else {
            Call(Msd(MSD_TRANSMISSION_STARTED));
            Call(ChangeCallState(ACTIVE));
            CallIf(!c.custom, Msd(START_RECEIVED));
            if c.custom || T5 !in c.failed {
              CallIf(!c.custom, SendEvent(T5, false));
              EnterCrc();
            }
          }
        } else {
          CallIf(!c.custom && pulled, Msd(MSD_TRANSMISSION_STARTED));
          Call(ChangeCallState(ACTIVE));
          state := CallConversation;
        }
      } else if c.msd {
        CallIf(!c.custom, Msd(OUTBAND_MSD_TRANSMISSION_STARTED));
        Call(ChangeCallState(ACTIVE));
        EnterDecode();
      } else {
        state := CallConversation;
      }
    }

    method EnterCrc()
      requires Synced()
      modifies this
      ensures Synced() && Now() == EnterCrcCheck(c, old(Model()), old(port))
    {
      state := CRCCheckonMSD;
      if T7 !in c.failed {
        CallIf(!c.custom, SendEvent(T7, true));
        EnterDecode();
        CallIf(!c.custom, SendEvent(T7, false));
        CallIf(!c.custom, Msd(LL_ACK_RECEIVED));
      } else {
        Call(StartTimer(T7));
      }
    }

    method EnterDecode()
      requires Synced()
      modifies this
      ensures Synced() && Now() == EnterDecodeMsd(c, old(Model()), old(port))
    {
      state := DecodeMSD;
      if !c.ng {
        if T6 !in c.failed {
          CallIf(!c.custom, SendEvent(T6, true));
          Call(Msd(MSD_TRANSMISSION_SUCCESS));
          CallIf(!c.custom, SendEvent(T6, false));
          if pulled { updating := false; }
          state := CallConversation;
        } else {
          CallIf(!c.custom, StartTimer(T6));
        }
      } else {
        Call(Msd(OUTBAND_MSD_TRANSMISSION_SUCCESS));
        if pulled { updating := false; }
        state := CallConversation;
      }
    }

    method EnterPsap()
      requires Synced()
      modifies this
      ensures Synced() && Now() == EnterPsapCallback(c, old(Model()), old(port))
    {
      state := PSAPCallback;
      CallIf(!c.custom, StartTimer(T9));
    }

    method EnterRedial()
      requires Synced() && c.gaps != []
      modifies this
      ensures Synced() && Now() == EnterRedialing(c, old(Model()), old(port))
    {
      state := Redialing;
      attempt := 1;
      Call(StartRedialTimer(c.gaps[0]));
    }
  }
}
