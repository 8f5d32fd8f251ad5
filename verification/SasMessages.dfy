/** What one flow says, and when: which event makes it send which message, with which contents, and what
    ends it. The other side is arbitrary. */
module SasMessages {
  import opened Wrappers
  import opened Order
  import opened Sas
  import opened SasResults

  /** The commitment a sender holds is not that to the key and its own start. */
  ghost predicate Mismatched(f: Flow, key: PublicKey) {
    f.sender && f.commitment != Hash(key, f.canonical)
  }

  /** The reason for which the event ends the flow with a cancel message, if it does. */
  ghost predicate Cancels(f: Flow, e: Event, code: Error) {
    !Final(f) &&
    match e
    case DoNext => false
    case DoCancel => code == ByUser
    case DoTimeout => code == TimedOut
    case DoReceive(address, m) =>
      NotElsewhere(address) &&
      match m
      case Start(start) =>
        && address != Nowhere && code == UnknownMethod
        && (!start.supported || (!start.emoji && !start.decimal) || (f.sender && !start.sasV1))
      case Accept(supported, _, _) => !supported && code == UnknownMethod
      case Key(key) => if Untimely(f) then code == OutOfOrder else Mismatched(f, key) && code == MismatchedCommitment
      case Mac(macs, keys) => f.theirKey.Some? && !MacMatches(f, macs, keys) && code == KeyMismatch
      case _ => false
  }

  ghost predicate Comes(e: Event) {
    e.DoReceive? && NotElsewhere(e.address)
  }

  /** The event makes the flow send the message. */
  ghost predicate Due(f: Flow, e: Event, m: Message) {
    match m
    case Request => e == DoNext && f.state == PromptStartVerification && f.sender
    case Ready(device) =>
      && e == DoNext && f.state == PromptStartVerification && !f.sender && f.canonical.None?
      && device == f.self.me.device
    case Start(start) =>
      && Comes(e) && e.address != Nowhere && e.message.Ready? && f.sender && !f.startSent
      && start == StartMsg(f.self.me.device, true, true, true, true)
    case Accept(supported, commitment, emoji) =>
      supported &&
      if e == DoNext then
        && f.state == PromptStartVerification && !f.sender && f.canonical.Some? && !f.acceptSent
        && commitment == Hash(f.self.publicKey, f.canonical) && emoji == (f.shownAs == Emoji)
      else
        && Comes(e) && e.address != Nowhere && e.message.Start? && f.state != PromptStartVerification
        && Answers(f, e.message.start)
        && commitment == Hash(f.self.publicKey, Some(e.message.start)) && emoji == e.message.start.emoji
    case Key(key) =>
      && key == f.self.publicKey && !f.keySent && Comes(e)
      && (if e.message.Accept? then e.message.supported
          else e.message.Key? && !f.sender && f.state == WaitingForKeys)
    case Mac(_, _) =>
      && e == DoNext && Comparing(f) && !f.macSent && f.theirKey.Some?
      && m == MacFor({f.self.publicKey, f.theirKey.value}, f.self.me, Party(f.self.peerUser, f.deviceId), f.self.txn,
                     f.self.ourKeys)
    case Done => Step(f, e).flow.state == Success && f.state != Success
    case Cancel(code) => Cancels(f, e, code)
  }

  // ----- Slot by slot -----

  lemma CancelSends(f: Flow, code: Error, m: Message)
    ensures m in CancelWith(f, code).sent <==> !Final(f) && m == Cancel(code)
  {
  }

  lemma ConfirmDue(f: Flow, m: Message)
    requires Comparing(f)
    ensures m in SendMac(f).sent <==> Due(f, DoNext, m)
  {
    assert f.theirKey.Some? ==> f.Secret() == {f.self.publicKey, f.theirKey.value};
    assert MacFor(f.Secret(), f.Me(), f.Peer(), f.self.txn, f.self.ourKeys).Mac?;
    NextEnters(f);
    hide MacFor;
    if f.macSent || f.theirKey.None? {
      hide AcceptDevice;
    } else if f.isMacVerified {
    } else {
    }
  }

  lemma NextDue(f: Flow, m: Message)
    ensures m in Next(f).sent <==> Due(f, DoNext, m)
  {
    if Comparing(f) {
      ConfirmDue(f, m);
      hide SendMac, Due;
    } else if f.state != PromptStartVerification {
    } else if f.sender {
    } else if f.canonical.None? {
    } else if f.acceptSent {
    } else {
    }
  }

  lemma TakenStart(f: Flow, m: StartMsg)
    ensures var g := Taken(f, m);
            && g.self == f.self && (!g.sender ==> g.canonical == Some(m))
            && g.shownAs == (if m.emoji then Emoji else Decimal) && Final(g) == Final(f)
  {
    hide PartyLess;
  }

  lemma StartDue(f: Flow, address: Address, start: StartMsg, m: Message)
    ensures m in Receive(f, address, Start(start)).sent <==> Due(f, DoReceive(address, Start(start)), m)
  {
    var g := Taken(f, start);
    TakenFlags(f, start);
    TakenStart(f, start);
    CancelSends(f, UnknownMethod, m);
    CancelSends(g, UnknownMethod, m);
    StartIsCalm(f, start);
    hide CancelWith, PartyLess, Taken;
    if Ours(address) {
      if Supports(start) && !(f.sender && !start.sasV1) && f.state != PromptStartVerification && !g.sender {
        if f.acceptSent {
        } else {
        }
      } else {
      }
    } else {
    }
  }

  lemma AcceptDue(f: Flow, address: Address, supported: bool, commitment: Commitment, emoji: bool, m: Message)
    ensures var a := Accept(supported, commitment, emoji);
            m in Receive(f, address, a).sent <==> Due(f, DoReceive(address, a), m)
  {
    CancelSends(f, UnknownMethod, m);
    AcceptIsCalm(f, supported, commitment, emoji);
    hide CancelWith;
    if NotElsewhere(address) && supported {
      if f.keySent {
      } else {
      }
    } else {
    }
  }

  lemma KeyDue(f: Flow, address: Address, key: PublicKey, m: Message)
    ensures m in Receive(f, address, Key(key)).sent <==> Due(f, DoReceive(address, Key(key)), m)
  {
    CancelSends(f, OutOfOrder, m);
    CancelSends(f.(theirKey := Some(key)), MismatchedCommitment, m);
    KeyIsCalm(f, key);
    hide CancelWith, InfoFor;
    if NotElsewhere(address) {
      if f.sender {
      } else if f.keySent {
      } else {
      }
    } else {
    }
  }

  lemma MacDue(f: Flow, address: Address, macs: map<KeyId, MacValue>, keys: MacValue, m: Message)
    ensures m in Receive(f, address, Mac(macs, keys)).sent <==> Due(f, DoReceive(address, Mac(macs, keys)), m)
  {
    CancelSends(f, KeyMismatch, m);
    hide CancelWith, MacMatches;
    if NotElsewhere(address) && f.theirKey.Some? {
      if MacMatches(f, macs, keys) {
      } else {
        CancelIsCalm(f, KeyMismatch);
      }
    } else {
    }
  }

  lemma ReadyDue(f: Flow, address: Address, device: string, m: Message)
    ensures m in Receive(f, address, Ready(device)).sent <==> Due(f, DoReceive(address, Ready(device)), m)
  {
    ReadyIsCalm(f, address, device);
    StartSends(f, m);
    StartSends(f.(deviceId := device), m);
    StartSends(f.(deviceId := device, deviceIds := [device]), m);
    hide SendStart;
  }

  lemma StartSends(f: Flow, m: Message)
    ensures m in SendStart(f).sent <==> !f.startSent && m == Start(StartMsg(f.self.me.device, true, true, true, true))
  {
  }

  // ----- What is sent -----

  /** A flow sends a message exactly when it is due, with exactly these contents. */
  lemma SentIff(f: Flow, e: Event, m: Message)
    ensures m in Step(f, e).sent <==> Due(f, e, m)
  {
    match e
    case DoNext => NextDue(f, m);
    case DoCancel =>
      CancelSends(f, ByUser, m);
      CancelIsCalm(f, ByUser);
      hide CancelWith;
    case DoTimeout =>
      CancelSends(f, TimedOut, m);
      CancelIsCalm(f, TimedOut);
      hide CancelWith;
    case DoReceive(address, received) =>
      hide Receive, Due;
      match received
      case Start(start) => StartDue(f, address, start, m);
      case Accept(supported, commitment, emoji) => AcceptDue(f, address, supported, commitment, emoji, m);
      case Key(key) => KeyDue(f, address, key, m);
      case Mac(macs, keys) => MacDue(f, address, macs, keys, m);
      case Ready(device) => ReadyDue(f, address, device, m);
      case _ => QuietDue(f, address, received, m);
  }

  lemma QuietDue(f: Flow, address: Address, received: Message, m: Message)
    requires received.Request? || received.Done? || received.Cancel?
    ensures m !in Receive(f, address, received).sent && !Due(f, DoReceive(address, received), m)
  {
  }

  // ----- What ends a flow -----

  /** The flow has failed with the error exactly if it says so in a cancel message. */
  predicate Tidy(o: Out, error: Error) {
    o.flow.state == Failed && o.flow.error == error <==> Cancel(error) in o.sent
  }

  lemma CancelIsTidy(f: Flow, code: Error, error: Error)
    requires f.state != Failed
    ensures Tidy(CancelWith(f, code), error)
  {
  }

  lemma SendersAreTidy(f: Flow, error: Error)
    requires f.state != Failed
    ensures Tidy(SendKey(f), error) && SendKey(f).flow.state == f.state
    ensures Tidy(SendAccept(f), error) && Tidy(SendStart(f), error) && Tidy(Out(f, []), error)
  {
  }

  lemma DeviceIsTidy(f: Flow, error: Error)
    requires f.state != Failed
    ensures Tidy(AcceptDevice(f), error) && AcceptDevice(f).flow.state != Failed
  {
    if !f.isMacVerified {
    } else if f.state == WaitingForMac {
    } else {
    }
  }

  lemma SendMacIsTidy(f: Flow, error: Error)
    requires f.state != Failed
    ensures Tidy(SendMac(f), error)
  {
    DeviceIsTidy(f.(macSent := true, state := WaitingForMac), error);
    hide AcceptDevice;
    assert MacFor(f.Secret(), f.Me(), f.Peer(), f.self.txn, f.self.ourKeys) != Cancel(error);
    hide MacFor;
    if f.macSent {
    } else if f.theirKey.None? {
    } else {
    }
  }

  lemma NextIsTidy(f: Flow, error: Error)
    requires f.state != Failed
    ensures Tidy(Next(f), error)
  {
    SendersAreTidy(f, error);
    SendMacIsTidy(f, error);
    hide SendMac, SendAccept;
    if Comparing(f) {
      hide Tidy;
    } else if f.state != PromptStartVerification {
    } else if f.sender {
    } else if f.canonical.None? {
    } else {
    }
  }

  lemma StartIsTidy(f: Flow, m: StartMsg, error: Error)
    requires f.state != Failed
    ensures Tidy(HandleStart(f, m), error)
  {
    TakenFlags(f, m);
    CancelIsTidy(f, UnknownMethod, error);
    CancelIsTidy(Taken(f, m), UnknownMethod, error);
    SendersAreTidy(Taken(f, m), error);
    hide Tidy, CancelWith, SendAccept, Taken;
  }

  lemma AcceptIsTidy(f: Flow, supported: bool, commitment: Commitment, emoji: bool, error: Error)
    requires f.state != Failed
    ensures Tidy(HandleAccept(f, supported, commitment, emoji), error)
  {
    CancelIsTidy(f, UnknownMethod, error);
    SendersAreTidy(f.(commitment := commitment, shownAs := if emoji then Emoji else Decimal), error);
    hide Tidy, CancelWith, SendKey;
  }

  lemma KeyIsTidy(f: Flow, key: PublicKey, error: Error)
    requires f.state != Failed
    ensures Tidy(HandleKey(f, key), error)
  {
    var g := f.(theirKey := Some(key));
    CancelIsTidy(f, OutOfOrder, error);
    CancelIsTidy(g, MismatchedCommitment, error);
    SendersAreTidy(g, error);
    hide CancelWith, SendKey, InfoFor;
    if Untimely(f) || Mismatched(f, key) {
      hide Tidy;
    } else if f.sender {
    } else {
    }
  }

  lemma MacIsTidy(f: Flow, macs: map<KeyId, MacValue>, keys: MacValue, error: Error)
    requires f.state != Failed
    ensures Tidy(HandleMac(f, macs, keys), error)
  {
    CancelIsTidy(f, KeyMismatch, error);
    DeviceIsTidy(f.(isMacVerified := true), error);
    SendersAreTidy(f, error);
    hide Tidy, CancelWith, AcceptDevice, MacMatches;
  }

  lemma ReadyEnds(f: Flow, address: Address, device: string, error: Error)
    requires f.state != Failed
    ensures var o := HandleReady(f, address, device);
            if !f.sender && device != f.self.me.device
            then o.flow.state == Failed && o.flow.error == ByUser && o.sent == []
            else Tidy(o, error)
  {
    SendersAreTidy(f, error);
    SendersAreTidy(f.(deviceId := device), error);
    SendersAreTidy(f.(deviceId := device, deviceIds := [device]), error);
    hide Tidy, SendStart;
  }

  /** The other side cancels, or another of our devices has answered the request. */
  ghost predicate Leaves(f: Flow, e: Event) {
    || (Comes(e) && e.message.Cancel?)
    || (e.DoReceive? && e.message.Ready? && !f.sender && e.message.fromDevice != f.self.me.device)
  }

  lemma ReceiveIsTidy(f: Flow, address: Address, m: Message, error: Error)
    requires f.state != Failed && !Leaves(f, DoReceive(address, m))
    ensures Tidy(Receive(f, address, m), error)
  {
    SendersAreTidy(f, error);
    hide Tidy, HandleStart, HandleAccept, HandleKey, HandleMac, HandleReady, SendKey, SendAccept, SendStart;
    if m.Ready? {
      ReadyEnds(f, address, m.fromDevice, error);
    } else if NotElsewhere(address) {
      match m
      case Start(start) => StartIsTidy(f, start, error);
      case Accept(supported, commitment, emoji) => AcceptIsTidy(f, supported, commitment, emoji, error);
      case Key(key) => KeyIsTidy(f, key, error);
      case Mac(macs, keys) => MacIsTidy(f, macs, keys, error);
      case _ =>
    }
  }

  lemma StepIsTidy(f: Flow, e: Event, error: Error)
    requires f.state != Failed && !Leaves(f, e)
    ensures Tidy(Step(f, e), error)
  {
    hide Tidy, Next, CancelWith, Receive;
    match e
    case DoNext => NextIsTidy(f, error);
    case DoCancel => CancelIsTidy(f, ByUser, error);
    case DoTimeout => CancelIsTidy(f, TimedOut, error);
    case DoReceive(address, m) => ReceiveIsTidy(f, address, m, error);
  }

  lemma LeavingFails(f: Flow, e: Event)
    requires Leaves(f, e)
    ensures Step(f, e).flow.state == Failed && Step(f, e).flow.error == ByUser
    ensures forall error :: !Cancels(f, e, error)
  {
  }

  /** A flow fails, and with which error, exactly when it sends a cancel message with that error, receives a
      cancel message, or was asked to verify and another of our devices answered. */
  lemma FailsIff(f: Flow, e: Event, error: Error)
    requires f.state != Failed
    ensures var f' := Step(f, e).flow;
            f'.state == Failed && f'.error == error <==> Cancels(f, e, error) || (Leaves(f, e) && error == ByUser)
  {
    hide Step, Cancels;
    if Leaves(f, e) {
      LeavingFails(f, e);
    } else {
      StepIsTidy(f, e, error);
      SentIff(f, e, Cancel(error));
    }
  }

  // ----- What a flow holds -----

  /** The event is a start message that the flow takes in. */
  ghost predicate TakesStart(e: Event) {
    && Comes(e) && e.address != Nowhere && e.message.Start?
    && e.message.start.supported && (e.message.start.emoji || e.message.start.decimal)
  }

  ghost predicate TakesAccept(e: Event) {
    Comes(e) && e.message.Accept? && e.message.supported
  }

  /** The other party has the smaller user id, or the same and the smaller device id. */
  ghost predicate PeerIsSmaller(f: Flow) {
    Less(f.self.peerUser, f.self.me.user) ||
    (f.self.peerUser == f.self.me.user && Less(f.deviceId, f.self.me.device))
  }

  /** What a step makes of what was agreed on: whose start counts, and the other side's commitment and key. */
  ghost predicate Holds(f: Flow, e: Event, f': Flow) {
    && f'.self == f.self
    && f'.sender == (f.sender && !(TakesStart(e) && PeerIsSmaller(f)))
    && f'.canonical == (if TakesStart(e) && (!f.sender || PeerIsSmaller(f)) then Some(e.message.start)
                        else if Starts(f, e) then Some(StartMsg(f.self.me.device, true, true, true, true))
                        else f.canonical)
    && f'.shownAs == (if TakesStart(e) then if e.message.start.emoji then Emoji else Decimal
                      else if TakesAccept(e) then if e.message.emoji then Emoji else Decimal
                      else f.shownAs)
    && f'.commitment == (if TakesAccept(e) then e.message.commitment else f.commitment)
    && f'.theirKey == (if Comes(e) && e.message.Key? && !Untimely(f) then Some(e.message.key) else f.theirKey)
    && f'.deviceId == (if Names(f, e) then e.message.fromDevice else f.deviceId)
    && f'.deviceIds == (if Names(f, e) && e.address == ThisTxn then [e.message.fromDevice] else f.deviceIds)
  }

  /** A ready message makes the flow send its start. */
  ghost predicate Starts(f: Flow, e: Event) {
    Comes(e) && e.address != Nowhere && e.message.Ready? && f.sender && !f.startSent
  }

  /** A ready message tells the sender which device it talks to: any in a room, otherwise one of the
      candidates while there are several. */
  ghost predicate Names(f: Flow, e: Event) {
    && e.DoReceive? && e.message.Ready? && f.sender
    && (e.address == ThisEvent ||
        (e.address == ThisTxn && f.deviceId == "" && |f.deviceIds| > 1 && e.message.fromDevice in f.deviceIds))
  }

  /** Nothing that was agreed on changes. */
  predicate Agrees(f: Flow, f': Flow) {
    && f'.self == f.self && f'.sender == f.sender && f'.canonical == f.canonical && f'.shownAs == f.shownAs
    && f'.commitment == f.commitment && f'.theirKey == f.theirKey
    && f'.deviceId == f.deviceId && f'.deviceIds == f.deviceIds
  }

  lemma SendersAgree(f: Flow)
    ensures forall code :: Agrees(f, CancelWith(f, code).flow)
    ensures Agrees(f, SendKey(f).flow) && Agrees(f, SendAccept(f).flow)
  {
  }

  lemma NextHolds(f: Flow)
    ensures Agrees(f, Next(f).flow)
  {
    SendersAgree(f);
    hide MacFor, SendAccept;
    if Comparing(f) {
      if f.macSent {
      } else if f.theirKey.None? {
      } else if f.isMacVerified {
      }
    } else if f.state != PromptStartVerification {
    } else if f.sender {
    } else if f.canonical.None? {
    } else {
    }
  }

  lemma TakenFields(f: Flow, m: StartMsg)
    ensures var g := Taken(f, m);
            && g.canonical == (if !f.sender || PartyLess(f.Peer(), f.Me()) then Some(m) else f.canonical)
            && g.self == f.self && g.commitment == f.commitment && g.theirKey == f.theirKey
            && g.deviceId == f.deviceId && g.deviceIds == f.deviceIds
  {
    hide PartyLess;
    if !f.sender || PartyLess(f.Peer(), f.Me()) {
    } else {
    }
  }

  lemma PeerIsSmallerIff(f: Flow)
    ensures PeerIsSmaller(f) <==> PartyLess(f.Peer(), f.Me())
  {
  }

  lemma TakenHolds(f: Flow, address: Address, start: StartMsg)
    requires Ours(address)
    ensures Holds(f, DoReceive(address, Start(start)), if Supports(start) then Taken(f, start) else f)
  {
    PeerIsSmallerIff(f);
    TakenFields(f, start);
    TakenFlags(f, start);
    TakenStart(f, start);
    hide Taken, PartyLess, PeerIsSmaller;
  }

  lemma HoldsThen(f: Flow, e: Event, g: Flow, f': Flow)
    requires Holds(f, e, g) && Agrees(g, f')
    ensures Holds(f, e, f')
  {
    hide PeerIsSmaller, TakesStart, TakesAccept, Starts, Names;
  }

  lemma StartHolds(f: Flow, address: Address, start: StartMsg)
    requires Ours(address)
    ensures Holds(f, DoReceive(address, Start(start)), HandleStart(f, start).flow)
  {
    var g := if Supports(start) then Taken(f, start) else f;
    TakenHolds(f, address, start);
    SendersAgree(g);
    assert Agrees(g, g);
    hide Holds, Agrees, CancelWith, SendAccept, Taken, Supports;
    HoldsThen(f, DoReceive(address, Start(start)), g, HandleStart(f, start).flow);
  }

  lemma AcceptHolds(f: Flow, address: Address, supported: bool, commitment: Commitment, emoji: bool)
    requires NotElsewhere(address)
    ensures Holds(f, DoReceive(address, Accept(supported, commitment, emoji)),
                  HandleAccept(f, supported, commitment, emoji).flow)
  {
    SendersAgree(f);
    SendersAgree(f.(commitment := commitment, shownAs := if emoji then Emoji else Decimal));
    hide CancelWith, SendKey, PeerIsSmaller;
  }

  lemma KeyHolds(f: Flow, address: Address, key: PublicKey)
    requires NotElsewhere(address)
    ensures Holds(f, DoReceive(address, Key(key)), HandleKey(f, key).flow)
  {
    SendersAgree(f);
    SendersAgree(f.(theirKey := Some(key)));
    hide CancelWith, SendKey, InfoFor, PeerIsSmaller;
    if Untimely(f) {
    } else if f.sender {
    } else {
    }
  }

  lemma MacHolds(f: Flow, macs: map<KeyId, MacValue>, keys: MacValue)
    ensures Agrees(f, HandleMac(f, macs, keys).flow)
  {
    SendersAgree(f);
    hide CancelWith, MacMatches;
    if f.theirKey.Some? && MacMatches(f, macs, keys) {
      if f.state == WaitingForMac {
      } else {
      }
    } else {
    }
  }

  lemma SendStartFields(f: Flow)
    ensures var g := SendStart(f).flow;
            && g.canonical == (if f.startSent then f.canonical
                               else Some(StartMsg(f.self.me.device, true, true, true, true)))
            && Agrees(f, g.(canonical := f.canonical))
  {
  }

  /** The flow once it knows the device. */
  ghost function Named(f: Flow, address: Address, device: string): Flow {
    if !Names(f, DoReceive(address, Ready(device))) then f
    else if address == ThisEvent then f.(deviceId := device)
    else f.(deviceId := device, deviceIds := [device])
  }

  lemma ReadyStarts(f: Flow, address: Address, device: string)
    requires f.sender && Ours(address)
    ensures HandleReady(f, address, device) == SendStart(Named(f, address, device))
  {
    hide SendStart;
    if address == ThisEvent {
    } else {
    }
  }

  lemma ReadyHolds(f: Flow, address: Address, device: string)
    ensures Holds(f, DoReceive(address, Ready(device)), HandleReady(f, address, device).flow)
  {
    hide PeerIsSmaller;
    if f.sender && Ours(address) {
      ReadyStarts(f, address, device);
      SendStartFields(Named(f, address, device));
      hide SendStart, HandleReady;
      if Names(f, DoReceive(address, Ready(device))) {
      } else {
      }
    } else {
      hide SendStart;
    }
  }

  /** Which start, method, commitment, key and device a flow holds after an event, exactly. */
  lemma HoldsAfter(f: Flow, e: Event)
    ensures Holds(f, e, Step(f, e).flow)
  {
    SendersAgree(f);
    hide Next, CancelWith, HandleStart, HandleAccept, HandleKey, HandleMac, HandleReady, SendKey, SendAccept;
    hide PeerIsSmaller;
    match e
    case DoNext => NextHolds(f);
    case DoCancel =>
    case DoTimeout =>
    case DoReceive(address, m) =>
      hide Holds;
      match m
      case Start(start) =>
        if Ours(address) {
          StartHolds(f, address, start);
        } else {
          ElsewhereHolds(f, address, m);
        }
      case Accept(supported, commitment, emoji) =>
        if NotElsewhere(address) {
          AcceptHolds(f, address, supported, commitment, emoji);
        } else {
          ElsewhereHolds(f, address, m);
        }
      case Key(key) =>
        if NotElsewhere(address) {
          KeyHolds(f, address, key);
        } else {
          ElsewhereHolds(f, address, m);
        }
      case Mac(macs, keys) =>
        MacHolds(f, macs, keys);
        AgreeingHolds(f, e, Receive(f, address, m).flow);
      case Ready(device) => ReadyHolds(f, address, device);
      case _ => AgreeingHolds(f, e, Receive(f, address, m).flow);
  }

  lemma AgreeingHolds(f: Flow, e: Event, f': Flow)
    requires Agrees(f, f') && e.DoReceive?
    requires !e.message.Start? && !e.message.Accept? && !e.message.Key? && !e.message.Ready?
    ensures Holds(f, e, f')
  {
  }

  lemma ElsewhereHolds(f: Flow, address: Address, m: Message)
    requires m.Start? || m.Accept? || m.Key?
    requires !NotElsewhere(address) || (m.Start? && address == Nowhere)
    ensures Holds(f, DoReceive(address, m), Receive(f, address, m).flow)
  {
    hide PeerIsSmaller;
  }

  /** The method of the last start or accept message that is taken in. */
  ghost function LastMethod(before: Method, events: seq<Event>): Method {
    if events == [] then before else
    var e := events[|events| - 1];
    if TakesStart(e) then if e.message.start.emoji then Emoji else Decimal
    else if TakesAccept(e) then if e.message.emoji then Emoji else Decimal
    else LastMethod(before, events[..|events| - 1])
  }

  ghost function LastCommitment(before: Commitment, events: seq<Event>): Commitment {
    if events == [] then before
    else if TakesAccept(events[|events| - 1]) then events[|events| - 1].message.commitment
    else LastCommitment(before, events[..|events| - 1])
  }

  /** Over every run a flow shows the short string as the last start or accept said, and holds the commitment
      of the last accept. */
  lemma {:induction false} LastCounts(f: Flow, events: seq<Event>)
    ensures Run(f, events).shownAs == LastMethod(f.shownAs, events)
    ensures Run(f, events).commitment == LastCommitment(f.commitment, events)
  {
    if events != [] {
      var front := events[..|events| - 1];
      LastCounts(f, front);
      HoldsAfter(Run(f, front), events[|events| - 1]);
      hide Step, PeerIsSmaller;
    }
  }
}
