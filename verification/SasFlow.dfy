/** The flow object of `src/encryption/DeviceVerificationFlow.cpp` with its fields updated in place.
    Every slot is proved to be the step of `Sas`; `outbox` collects what it sends. */
module SasFlow {
  import opened Wrappers
  import opened Sas
  import opened SasResults

  class DeviceVerificationFlow {
    const self: Self
    var deviceId: string
    var deviceIds: seq<string>
    var sender: bool
    var state: State
    var error: Error
    var shownAs: Method
    var commitment: Commitment
    var canonical: Option<StartMsg>
    var theirKey: Option<PublicKey>
    var sas: Option<ShortString>
    var isMacVerified: bool
    var keySent: bool
    var macSent: bool
    var acceptSent: bool
    var startSent: bool
    var outbox: seq<Message>

    constructor (self: Self, deviceIds: seq<string>, sender: bool)
      ensures this.self == self && Untouched(View()) && outbox == [] && Valid()
      ensures View().sender == sender && View().deviceIds == deviceIds
      ensures View().deviceId == if |deviceIds| == 1 then deviceIds[0] else ""
    {
      this.self, this.deviceIds, this.sender := self, deviceIds, sender;
      deviceId := if |deviceIds| == 1 then deviceIds[0] else "";
      state, error, shownAs, commitment := PromptStartVerification, UnknownMethod, Emoji, NoCommitment;
      canonical, theirKey, sas := None, None, None;
      isMacVerified, keySent, macSent, acceptSent, startSent := false, false, false, false, false;
      outbox := [];
    }

    function View(): Flow
      reads this
    {
      Flow(self, deviceId, deviceIds, sender, state, error, shownAs, commitment, canonical, theirKey, sas,
           isMacVerified, keySent, macSent, acceptSent, startSent)
    }

    /** The flags agree with what has been sent. */
    ghost predicate Valid()
      reads this
    {
      Tallied(View(), outbox)
    }

    /** The object did what the step says. */
    twostate predicate Did(o: Out)
      reads this
    {
      View() == o.flow && outbox == old(outbox) + o.sent
    }

    method Send(m: Message)
      modifies this`outbox
      ensures outbox == old(outbox) + [m]
    {
      outbox := outbox + [m];
    }

    method CancelVerification(code: Error)
      modifies this
      ensures Did(CancelWith(old(View()), code))
    {
      if state == Success || state == Failed {
        return;
      }
      error := code;
      state := Failed;
      Send(Cancel(code));
    }

    method SendVerificationKey()
      modifies this
      ensures Did(SendKey(old(View())))
    {
      if keySent {
        return;
      }
      keySent := true;
      Send(Key(self.publicKey));
    }

    method AcceptVerificationRequest()
      modifies this
      ensures Did(SendAccept(old(View())))
    {
      if acceptSent {
        return;
      }
      acceptSent := true;
      Send(Accept(true, Hash(self.publicKey, canonical), shownAs == Emoji));
      state := WaitingForKeys;
    }

    method StartVerificationRequest()
      modifies this
      ensures Did(SendStart(old(View())))
    {
      if startSent {
        return;
      }
      startSent := true;
      var req := StartMsg(self.me.device, true, true, true, true);
      canonical := Some(req);
      Send(Start(req));
      state := WaitingForOtherToAccept;
    }

    method FinishDevice()
      modifies this
      ensures Did(AcceptDevice(old(View())))
    {
      if !isMacVerified {
        state := WaitingForMac;
      } else if state == WaitingForMac {
        Send(Done);
        state := Success;
      }
    }

    method SendVerificationMac()
      modifies this
      ensures Did(SendMac(old(View())))
    {
      hide AcceptDevice, MacFor;
      if macSent {
        return;
      }
      macSent := true;
      if theirKey.None? {
        return;
      }
      var mac := VerificationMac(self.me, Party(self.peerUser, deviceId), self.ourKeys);
      Send(mac);
      state := WaitingForMac;
      FinishDevice();
    }

    /** `key_verification_mac`: one MAC for each key, in order, and one over the ids. */
    method VerificationMac(from: Party, to: Party, keys: map<KeyId, string>) returns (m: Message)
      ensures m == MacFor(View().Secret(), from, to, self.txn, keys)
    {
      var secret := {self.publicKey} + if theirKey.Some? then {theirKey.value} else {};
      var macs: map<KeyId, MacValue> := map[];
      var listed := {};
      var todo := keys.Keys;
      while todo != {}
        invariant todo <= keys.Keys && listed == keys.Keys - todo
        invariant macs == map id | id in listed :: MacValue(secret, from, to, self.txn, KeyOf(id, keys[id]))
        decreases todo
      {
        var id :| id in todo;
        macs := macs[id := MacValue(secret, from, to, self.txn, KeyOf(id, keys[id]))];
        listed := listed + {id};
        todo := todo - {id};
      }
      assert listed == keys.Keys;
      return Mac(macs, MacValue(secret, from, to, self.txn, KeyIds(listed)));
    }

    method Continue()
      modifies this
      ensures Did(Next(old(View())))
    {
      if sender {
        match state
        case PromptStartVerification =>
          Send(Request);
          state := WaitingForOtherToAccept;
        case CompareEmoji => SendVerificationMac();
        case CompareNumber => SendVerificationMac();
        case _ =>
      } else {
        match state
        case PromptStartVerification =>
          if canonical.None? {
            Send(Ready(self.me.device));
            state := WaitingForKeys;
          } else {
            AcceptVerificationRequest();
          }
        case CompareEmoji => SendVerificationMac();
        case CompareNumber => SendVerificationMac();
        case _ =>
      }
    }

    method HandleStartMessage(address: Address, m: StartMsg)
      modifies this
      ensures Did(Receive(old(View()), address, Start(m)))
    {
      hide SendAccept, CancelWith, Taken, HandleAccept, HandleKey, HandleMac, HandleReady;
      if address == OtherTxn || address == OtherEvent || address == Nowhere {
        return;
      }
      if m.supported {
        if !m.emoji && !m.decimal {
          CancelVerification(UnknownMethod);
          return;
        }
        var wasSender := sender;
        TakeStart(m);
        if wasSender && !m.sasV1 {
          CancelVerification(UnknownMethod);
          return;
        }
        if state != PromptStartVerification && !sender {
          AcceptVerificationRequest();
        }
      } else {
        CancelVerification(UnknownMethod);
      }
    }

    /** The short string to use, and the resolution of glare. */
    method TakeStart(m: StartMsg)
      modifies this
      ensures Did(Out(Taken(old(View()), m), []))
    {
      hide PartyLess;
      shownAs := if m.emoji then Emoji else Decimal;
      if !sender {
        canonical := Some(m);
      } else if PartyLess(Party(self.peerUser, deviceId), self.me) {
        canonical := Some(m);
        sender := false;
      }
    }

    method ReceivedAccept(address: Address, supported: bool, commitment: Commitment, emoji: bool)
      modifies this
      ensures Did(Receive(old(View()), address, Accept(supported, commitment, emoji)))
    {
      hide CancelWith, SendKey, HandleStart, HandleKey, HandleMac, HandleReady;
      if address == OtherTxn || address == OtherEvent {
        return;
      }
      if supported {
        this.commitment := commitment;
        shownAs := if emoji then Emoji else Decimal;
        SendVerificationKey();
      } else {
        CancelVerification(UnknownMethod);
      }
    }

    method ReceivedCancel(address: Address, code: Error)
      modifies this
      ensures Did(Receive(old(View()), address, Cancel(code)))
    {
      if address == OtherTxn || address == OtherEvent {
        return;
      }
      error := ByUser;
      state := Failed;
    }

    method ReceivedKey(address: Address, key: PublicKey)
      modifies this
      ensures Did(Receive(old(View()), address, Key(key)))
    {
      hide CancelWith, TakeKey, HandleStart, HandleAccept, HandleMac, HandleReady;
      if address == OtherTxn || address == OtherEvent {
        return;
      }
      if sender {
        if state != WaitingForOtherToAccept && state != WaitingForKeys {
          CancelVerification(OutOfOrder);
          return;
        }
      } else {
        if state != WaitingForKeys {
          CancelVerification(OutOfOrder);
          return;
        }
      }
      TakeTheirKey(key);
    }

    /** The rest of the slot, once the key is not out of order. */
    method TakeTheirKey(key: PublicKey)
      modifies this
      ensures Did(TakeKey(old(View()), key))
    {
      hide CancelWith;
      theirKey := Some(key);
      var peer := Party(self.peerUser, deviceId);
      var info := if sender then Info(self.me, self.publicKey, peer, key, self.txn)
                  else Info(peer, key, self.me, self.publicKey, self.txn);
      if !sender {
        SendVerificationKey();
      } else {
        if commitment != Hash(key, canonical) {
          CancelVerification(MismatchedCommitment);
          return;
        }
      }
      sas := Some(ShortString({self.publicKey} + {key}, info, shownAs));
      state := if shownAs == Emoji then CompareEmoji else CompareNumber;
    }

    /** The MACs of the keys we know for the other side, one by one, and the one over their ids. */
    method CheckMacs(macs: map<KeyId, MacValue>, keys: MacValue) returns (ok: bool)
      ensures ok == MacMatches(View(), macs, keys)
    {
      var keyList := map id | id in macs && id in self.theirKeys :: self.theirKeys[id];
      assert keyList.Keys == macs.Keys * self.theirKeys.Keys;
      var expected := VerificationMac(Party(self.peerUser, deviceId), self.me, keyList);
      var todo := keyList.Keys;
      while todo != {}
        invariant todo <= keyList.Keys && forall id :: id in keyList && id !in todo ==> expected.macs[id] == macs[id]
        decreases todo
      {
        var id :| id in todo;
        if expected.macs[id] != macs[id] {
          return false;
        }
        todo := todo - {id};
      }
      return keys == expected.keys;
    }

    method ReceivedMac(address: Address, macs: map<KeyId, MacValue>, keys: MacValue)
      modifies this
      ensures Did(Receive(old(View()), address, Mac(macs, keys)))
    {
      hide CancelWith, AcceptDevice, MacMatches, HandleStart, HandleAccept, HandleKey, HandleReady;
      if address == OtherTxn || address == OtherEvent {
        return;
      }
      if theirKey.None? {
        return;
      }
      var ok := CheckMacs(macs, keys);
      if ok {
        isMacVerified := true;
        FinishDevice();
      } else {
        CancelVerification(KeyMismatch);
      }
    }

    method ReceivedReady(address: Address, fromDevice: string)
      modifies this
      ensures Did(Receive(old(View()), address, Ready(fromDevice)))
    {
      hide SendStart, HandleStart, HandleAccept, HandleKey, HandleMac;
      if !sender {
        if fromDevice != self.me.device {
          error := ByUser;
          state := Failed;
        }
        return;
      }
      match address {
        case ThisTxn =>
          if deviceId == "" && |deviceIds| > 1 && fromDevice in deviceIds {
            deviceId := fromDevice;
            deviceIds := [fromDevice];
          }
        case ThisEvent => deviceId := fromDevice;
        case _ => return;
      }
      StartVerificationRequest();
    }

    method Timeout()
      modifies this
      ensures Did(CancelWith(old(View()), TimedOut))
    {
      if state != Success && state != Failed {
        CancelVerification(TimedOut);
      }
    }

    /** The signals connected to the slots. */
    method Dispatch(e: Event)
      modifies this
      ensures Did(Step(old(View()), e))
    {
      hide Next, Receive, CancelWith;
      match e
      case DoNext => Continue();
      case DoCancel => CancelVerification(ByUser);
      case DoTimeout => Timeout();
      case DoReceive(address, m) =>
        match m {
          case Start(start) => HandleStartMessage(address, start);
          case Accept(supported, commitment, emoji) => ReceivedAccept(address, supported, commitment, emoji);
          case Key(key) => ReceivedKey(address, key);
          case Mac(macs, keys) => ReceivedMac(address, macs, keys);
          case Cancel(code) => ReceivedCancel(address, code);
          case Ready(device) => ReceivedReady(address, device);
          case Request => NothingDone(View(), address, m);
          case Done => NothingDone(View(), address, m);
        }
    }

    static lemma NothingDone(f: Flow, address: Address, m: Message)
      requires m.Request? || m.Done?
      ensures Receive(f, address, m) == Out(f, [])
    {
    }

    /** The life of the object under any signals: it follows the flow, sends no kind of message twice, and
        succeeds only after its user confirmed while comparing and a received MAC message matched. */
    method Serve(events: seq<Event>)
      requires Valid()
      modifies this
      ensures Valid() && AtMostOnce(outbox)
      ensures View() == Run(old(View()), events) && outbox == old(outbox) + SasResults.Sent(old(View()), events)
      ensures old(Untouched(View())) && state == Success ==>
                Confirmed(old(View()), events) && Matched(old(View()), events)
    {
      hide Step, Tallied, Untouched;
      ghost var start, before := View(), outbox;
      for n := 0 to |events|
        invariant View() == Run(start, events[..n]) && outbox == before + SasResults.Sent(start, events[..n])
      {
        assert events[..n + 1][..n] == events[..n];
        Dispatch(events[n]);
      }
      assert events[..|events|] == events;
      RunTallies(start, before, events);
      TalliedOnce(View(), outbox);
      if Untouched(start) {
        SuccessIsEarned(start, events);
      }
    }
  }
}
