/** Two honest flows verifying each other. The network may delay, reorder, repeat and lose messages,
    which covers first-in-first-out channels, but it does not forge them. Users may confirm or cancel
    and timers may fire at any time.

    The party whose start message counts is called `i`, the other `r`: the requester and the responder,
    or, when both have sent a start, the one with the smaller user id and device id and the other.
*/
module SasSystem {
  import opened Wrappers
  import opened Order
  import opened Sas
  import opened SasResults

  /** `toI` and `toR` hold every message ever sent to the party. The last two fields record whether
      the user confirmed while comparing. */
  datatype System = System(i: Flow, r: Flow, toI: set<Message>, toR: set<Message>, confirmedI: bool, confirmedR: bool)

  datatype Action = AtI(e: Event) | AtR(e: Event)

  function AddressOf(t: FlowType): Address {
    if t == ToDevice then ThisTxn else ThisEvent
  }

  predicate Enabled(s: System, a: Action) {
    a.e.DoReceive? ==>
      a.e.message in (if a.AtI? then s.toI else s.toR) && a.e.address == AddressOf(s.i.self.flowType)
  }

  function Move(s: System, a: Action): System {
    match a
    case AtI(e) =>
      var o := Step(s.i, e);
      s.(i := o.flow, toR := s.toR + (set m | m in o.sent), confirmedI := s.confirmedI
            || (e == DoNext && Comparing(s.i)))
    case AtR(e) =>
      var o := Step(s.r, e);
      s.(r := o.flow, toI := s.toI + (set m | m in o.sent), confirmedR := s.confirmedR
            || (e == DoNext && Comparing(s.r)))
  }

  // ----- Starting points -----

  predicate Partners(i: Flow, r: Flow) {
    && i.Me() != r.Me() && i.self.peerUser == r.Me().user && r.Peer() == i.Me()
    && i.self.txn == r.self.txn && i.self.flowType == r.self.flowType
  }

  /** A to-device flow knows the device it talks to, or several candidates. */
  predicate AimsAt(i: Flow, device: string) {
    i.self.flowType == ToDevice ==>
      i.deviceId == device || (i.deviceId == "" && |i.deviceIds| > 1 && device in i.deviceIds)
  }

  /** `i` has requested a verification and `r` knows of it. */
  predicate Requested(s: System) {
    && Partners(s.i, s.r) && AimsAt(s.i, s.r.Me().device)
    && s.i.sender && s.i.state == WaitingForOtherToAccept && Untouched(s.i.(state := PromptStartVerification))
    && !s.r.sender && Untouched(s.r)
    && s.toI == {} && s.toR == {} && !s.confirmedI && !s.confirmedR
  }

  predicate HasStarted(f: Flow) {
    && f.sender && f.startSent && f.canonical == Some(OwnStart(f)) && f.state == WaitingForOtherToAccept
    && Untouched(f.(state := PromptStartVerification, canonical := None, startSent := false))
  }

  /** Both have sent a start, and `i` is the smaller party. */
  predicate BothStarted(s: System) {
    && Partners(s.i, s.r) && s.i.Peer() == s.r.Me() && PartyLess(s.i.Me(), s.r.Me())
    && HasStarted(s.i) && HasStarted(s.r)
    && s.toI == {Start(OwnStart(s.r))} && s.toR == {Start(OwnStart(s.i))} && !s.confirmedI && !s.confirmedR
  }

  /** The system after the actions, in order. */
  function Play(s: System, actions: seq<Action>): System {
    if actions == [] then s else Move(Play(s, actions[..|actions| - 1]), actions[|actions| - 1])
  }

  predicate Playable(s: System, actions: seq<Action>) {
    actions == [] ||
    (Playable(s, actions[..|actions| - 1]) && Enabled(Play(s, actions[..|actions| - 1]), actions[|actions| - 1]))
  }

  /** `s` is reached by the actions from one of the starting points. */
  predicate IsRun(start: System, actions: seq<Action>, s: System) {
    (Requested(start) || BothStarted(start)) && Playable(start, actions) && s == Play(start, actions)
  }

  // ----- The invariant -----

  /** The one start message and the one short string of the run. */
  function TheStart(i: Flow): Option<StartMsg> {
    Some(OwnStart(i))
  }

  function TheString(i: Flow, r: Flow): ShortString {
    ShortString({i.self.publicKey, r.self.publicKey},
                Info(i.Me(), i.self.publicKey, r.Me(), r.self.publicKey, i.self.txn), Emoji)
  }

  /** What holds of either side: `f` against its partner `g`. */
  predicate SideInv(f: Flow, g: Flow, theString: ShortString, confirmed: bool) {
    && f.shownAs == Emoji && f.error != MismatchedCommitment && f.state != CompareNumber
    && (f.theirKey.Some? ==> f.theirKey.value == g.self.publicKey && g.keySent)
    && (f.sas.Some? ==> f.sas.value == theString)
    && (f.state == CompareEmoji ==> f.sas.Some?)
    && (f.macSent ==> confirmed)
    && (f.state == WaitingForMac ==> f.macSent)
    && (f.state == Success ==> f.macSent && f.isMacVerified)
    && (f.isMacVerified ==> g.macSent)
  }

  predicate InvI(i: Flow, r: Flow, confirmed: bool) {
    && SideInv(i, r, TheString(i, r), confirmed)
    && i.sender && !i.acceptSent && i.state != PromptStartVerification
    && AimsAt(i, r.Me().device)
    && (i.startSent ==> i.canonical == TheStart(i) && i.deviceId == r.Me().device)
    && (i.commitment != NoCommitment ==> i.commitment == Hash(r.self.publicKey, TheStart(i)) && r.acceptSent)
    && (i.keySent ==> i.commitment != NoCommitment)
  }

  predicate InvR(i: Flow, r: Flow, confirmed: bool) {
    && SideInv(r, i, TheString(i, r), confirmed)
    && (r.sender || r.startSent ==> PartyLess(i.Me(), r.Me()))
    && (r.sender ==> !r.acceptSent)
    && (!r.sender && r.canonical.Some? ==> r.canonical == TheStart(i) && i.startSent)
    && (r.acceptSent ==> r.canonical.Some?)
    && (r.keySent ==> i.keySent)
    && (!r.acceptSent ==>
          && !r.keySent && !r.macSent && r.theirKey.None? && !r.isMacVerified
          && !Comparing(r) && r.state != WaitingForMac && r.state != Success)
  }

  predicate FineForR(i: Flow, m: Message) {
    match m
    case Start(start) => start == OwnStart(i) && i.startSent
    case Key(key) => key == i.self.publicKey && i.keySent
    case Mac(_, _) => i.macSent
    case Cancel(code) => code != MismatchedCommitment
    case Ready(_) => false
    case Accept(_, _, _) => false
    case _ => true
  }

  predicate FineForI(i: Flow, r: Flow, m: Message) {
    match m
    case Start(start) => start == OwnStart(r) && PartyLess(i.Me(), r.Me()) && i.startSent
    case Key(key) => key == r.self.publicKey && r.keySent
    case Mac(_, _) => r.macSent
    case Cancel(code) => code != MismatchedCommitment
    case Ready(device) => device == r.Me().device
    case Accept(supported, commitment, emoji) =>
      supported && emoji && commitment == Hash(r.self.publicKey, TheStart(i)) && r.acceptSent
    case _ => true
  }

  predicate Inv(s: System) {
    && s.i.self.peerUser == s.r.Me().user && s.r.Peer() == s.i.Me() && s.i.self.txn == s.r.self.txn
    && s.i.self.flowType == s.r.self.flowType
    && InvI(s.i, s.r, s.confirmedI) && InvR(s.i, s.r, s.confirmedR)
    && (forall m :: m in s.toR ==> FineForR(s.i, m))
    && (forall m :: m in s.toI ==> FineForI(s.i, s.r, m))
  }

  /** Steps only raise flags. */
  predicate Grows(f: Flow, f': Flow) {
    && f'.self == f.self
    && (f.startSent ==> f'.startSent) && (f.acceptSent ==> f'.acceptSent)
    && (f.keySent ==> f'.keySent) && (f.macSent ==> f'.macSent)
  }

  lemma OtherSideI(i: Flow, r: Flow, r': Flow, confirmed: bool)
    requires InvI(i, r, confirmed) && Grows(r, r')
    ensures InvI(i, r', confirmed)
  {
  }

  lemma OtherSideR(i: Flow, r: Flow, i': Flow, confirmed: bool)
    requires InvR(i, r, confirmed) && Grows(i, i')
    ensures InvR(i', r, confirmed)
  {
  }

  // ----- One step of i -----

  /** The outcome of a slot of `i` is as it should be. */
  predicate GoodI(o: Out, i: Flow, r: Flow, confirmed: bool) {
    && InvI(o.flow, r, confirmed) && Grows(i, o.flow)
    && forall m :: m in o.sent ==> FineForR(o.flow, m)
  }

  lemma CancelAtI(i: Flow, r: Flow, confirmed: bool, code: Error)
    requires InvI(i, r, confirmed) && code != MismatchedCommitment
    ensures GoodI(CancelWith(i, code), i, r, confirmed)
  {
    FailsAtI(i, r, confirmed, code);
    hide InvI, Grows;
  }

  lemma FailsAtI(i: Flow, r: Flow, confirmed: bool, code: Error)
    requires InvI(i, r, confirmed) && code != MismatchedCommitment
    ensures InvI(i.(error := code, state := Failed), r, confirmed)
    ensures Grows(i, i) && Grows(i, i.(error := code, state := Failed))
  {
    var f := i.(error := code, state := Failed);
    assert TheString(f, r) == TheString(i, r) && TheStart(f) == TheStart(i);
    hide TheString, TheStart;
  }

  lemma ConfirmedI(i: Flow, r: Flow, confirmed: bool)
    requires InvI(i, r, confirmed)
    ensures InvI(i, r, true)
  {
    hide AimsAt;
  }

  lemma SendMacAtI(i: Flow, r: Flow)
    requires InvI(i, r, true)
    ensures GoodI(SendMac(i), i, r, true)
  {
    assert MacFor(i.Secret(), i.Me(), i.Peer(), i.self.txn, i.self.ourKeys).Mac?;
    hide MacFor;
    if i.macSent {
    } else if i.theirKey.None? {
    } else if i.isMacVerified {
    } else {
    }
  }

  lemma NextAtI(i: Flow, r: Flow, confirmed: bool)
    requires InvI(i, r, confirmed)
    ensures GoodI(Next(i), i, r, confirmed || Comparing(i))
  {
    InvIFacts(i, r, confirmed);
    ConfirmedI(i, r, confirmed);
    hide InvI, GoodI, SendMac;
    if Comparing(i) {
      SendMacAtI(i, r);
    } else {
      StayAtI(i, r, confirmed);
    }
  }

  lemma StartAtI(i: Flow, r: Flow, confirmed: bool)
    requires InvI(i, r, confirmed) && PartyLess(i.Me(), r.Me()) && i.startSent && i.self.peerUser == r.Me().user
    ensures GoodI(HandleStart(i, OwnStart(r)), i, r, confirmed)
  {
    assert i.Peer() == r.Me();
    PartyLessAsymmetric(i.Me(), r.Me());
  }

  lemma PartyLessAsymmetric(p: Party, q: Party)
    requires PartyLess(p, q)
    ensures !PartyLess(q, p)
  {
    if p.user == q.user {
      LessIrreflexive(p.user);
      LessAsymmetric(p.device, q.device);
    } else {
      LessAsymmetric(p.user, q.user);
    }
  }

  lemma AcceptAtI(i: Flow, r: Flow, confirmed: bool)
    requires InvI(i, r, confirmed) && r.acceptSent
    ensures GoodI(HandleAccept(i, true, Hash(r.self.publicKey, TheStart(i)), true), i, r, confirmed)
  {
  }

  lemma KeyAtI(i: Flow, r: Flow, confirmed: bool, confirmedR: bool)
    requires InvI(i, r, confirmed) && InvR(i, r, confirmedR) && r.keySent
    requires i.self.peerUser == r.Me().user
    ensures GoodI(HandleKey(i, r.self.publicKey), i, r, confirmed)
  {
    if i.state != WaitingForKeys && i.state != WaitingForOtherToAccept {
      CancelAtI(i, r, confirmed, OutOfOrder);
      InvIFacts(i, r, confirmed);
      hide InvI, InvR, GoodI;
    } else {
      var f := i.(theirKey := Some(r.self.publicKey));
      assert i.commitment == Hash(r.self.publicKey, i.canonical) && i.Peer() == r.Me();
      assert f.Secret() == TheString(i, r).secret && InfoFor(i, r.self.publicKey) == TheString(i, r).info;
      hide InvR, TheString, InfoFor, CancelWith, PartyLess;
    }
  }

  lemma MacAtI(i: Flow, r: Flow, confirmed: bool, macs: map<KeyId, MacValue>, keys: MacValue)
    requires InvI(i, r, confirmed) && r.macSent
    ensures GoodI(HandleMac(i, macs, keys), i, r, confirmed)
  {
    hide MacMatches, AcceptDevice, CancelWith, GoodI, InvI;
    if i.theirKey.None? {
      StayAtI(i, r, confirmed);
    } else if MacMatches(i, macs, keys) {
      FinishAtI(i, r, confirmed);
    } else {
      CancelAtI(i, r, confirmed, KeyMismatch);
    }
  }

  lemma FinishAtI(i: Flow, r: Flow, confirmed: bool)
    requires InvI(i, r, confirmed) && r.macSent
    ensures GoodI(AcceptDevice(i.(isMacVerified := true)), i, r, confirmed)
  {
    if i.state == WaitingForMac {
    } else {
    }
  }

  lemma SendStartAtI(i: Flow, r: Flow, confirmed: bool)
    requires InvI(i, r, confirmed) && i.deviceId == r.Me().device
    ensures GoodI(SendStart(i), i, r, confirmed)
  {
  }

  lemma ReadyAtI(i: Flow, r: Flow, confirmed: bool)
    requires InvI(i, r, confirmed)
    ensures GoodI(HandleReady(i, AddressOf(i.self.flowType), r.Me().device), i, r, confirmed)
  {
    hide SendStart;
    var device := r.Me().device;
    if i.self.flowType == RoomMsg {
      SendStartAtI(i.(deviceId := device), r, confirmed);
    } else if i.deviceId == "" && |i.deviceIds| > 1 && device in i.deviceIds {
      SendStartAtI(i.(deviceId := device, deviceIds := [device]), r, confirmed);
    } else {
      SendStartAtI(i, r, confirmed);
    }
  }

  lemma ReceiveAtI(s: System, address: Address, m: Message)
    requires Inv(s) && m in s.toI && address == AddressOf(s.i.self.flowType)
    ensures GoodI(Receive(s.i, address, m), s.i, s.r, s.confirmedI)
  {
    hide InvI, InvR, GoodI, HandleStart, HandleAccept, HandleKey, HandleMac, HandleReady, AddressOf;
    var i, r := s.i, s.r;
    AddressIsOurs(i.self.flowType);
    InvIFacts(i, r, s.confirmedI);
    assert FineForI(i, r, m);
    match m
    case Start(start) => StartAtI(i, r, s.confirmedI);
    case Accept(_, _, _) => AcceptAtI(i, r, s.confirmedI);
    case Key(_) => KeyAtI(i, r, s.confirmedI, s.confirmedR);
    case Mac(macs, keys) => MacAtI(i, r, s.confirmedI, macs, keys);
    case Ready(_) => ReadyAtI(i, r, s.confirmedI);
    case Cancel(_) => FailAtI(i, r, s.confirmedI);
    case _ => StayAtI(i, r, s.confirmedI);
  }

  /** Every slot of `i` that can run in the system. */
  lemma StepAtI(s: System, e: Event)
    requires Inv(s) && Enabled(s, AtI(e))
    ensures GoodI(Step(s.i, e), s.i, s.r, Move(s, AtI(e)).confirmedI)
  {
    hide Inv, GoodI, Next, Receive, CancelWith;
    InvParts(s);
    var i, r := s.i, s.r;
    match e
    case DoNext => NextAtI(i, r, s.confirmedI);
    case DoCancel => CancelAtI(i, r, s.confirmedI, ByUser);
    case DoTimeout => CancelAtI(i, r, s.confirmedI, TimedOut);
    case DoReceive(address, m) => ReceiveAtI(s, address, m);
  }

  lemma InvParts(s: System)
    requires Inv(s)
    ensures InvI(s.i, s.r, s.confirmedI) && InvR(s.i, s.r, s.confirmedR)
  {
  }

  lemma AddressIsOurs(t: FlowType)
    ensures AddressOf(t) == ThisTxn || AddressOf(t) == ThisEvent
  {
  }

  lemma InvIFacts(i: Flow, r: Flow, confirmed: bool)
    requires InvI(i, r, confirmed)
    ensures i.sender && i.state != PromptStartVerification
  {
  }

  lemma FailAtI(i: Flow, r: Flow, confirmed: bool)
    requires InvI(i, r, confirmed)
    ensures GoodI(Out(i.(error := ByUser, state := Failed), []), i, r, confirmed)
  {
    FailsAtI(i, r, confirmed, ByUser);
    hide InvI, Grows;
  }

  lemma StayAtI(i: Flow, r: Flow, confirmed: bool)
    requires InvI(i, r, confirmed)
    ensures GoodI(Out(i, []), i, r, confirmed)
  {
  }

  // ----- One step of r -----

  predicate GoodR(o: Out, i: Flow, r: Flow, confirmed: bool) {
    && InvR(i, o.flow, confirmed) && Grows(r, o.flow) && o.flow.deviceId == r.deviceId
    && forall m :: m in o.sent ==> FineForI(i, o.flow, m)
  }

  lemma CancelAtR(i: Flow, r: Flow, confirmed: bool, code: Error)
    requires InvR(i, r, confirmed) && code != MismatchedCommitment
    ensures GoodR(CancelWith(r, code), i, r, confirmed)
  {
    FailsAtR(i, r, confirmed, code);
    hide InvR, Grows;
  }

  lemma FailsAtR(i: Flow, r: Flow, confirmed: bool, code: Error)
    requires InvR(i, r, confirmed) && code != MismatchedCommitment
    ensures InvR(i, r.(error := code, state := Failed), confirmed)
    ensures Grows(r, r) && Grows(r, r.(error := code, state := Failed))
  {
    var f := r.(error := code, state := Failed);
    assert TheString(i, f) == TheString(i, r) && f.Me() == r.Me();
    hide TheString, TheStart, PartyLess;
  }

  lemma ConfirmedR(i: Flow, r: Flow, confirmed: bool)
    requires InvR(i, r, confirmed)
    ensures InvR(i, r, true)
  {
    hide PartyLess;
  }

  lemma SendMacAtR(i: Flow, r: Flow)
    requires InvR(i, r, true) && Comparing(r)
    ensures GoodR(SendMac(r), i, r, true)
  {
    hide PartyLess;
    assert MacFor(r.Secret(), r.Me(), r.Peer(), r.self.txn, r.self.ourKeys).Mac?;
    hide MacFor;
    if r.macSent {
    } else if r.theirKey.None? {
    } else if r.isMacVerified {
    } else {
    }
  }

  lemma SendAcceptAtR(i: Flow, r: Flow, confirmed: bool)
    requires InvR(i, r, confirmed) && !r.sender && r.canonical.Some?
    ensures GoodR(SendAccept(r), i, r, confirmed)
  {
    hide PartyLess;
    if r.acceptSent {
    } else {
    }
  }

  lemma NextAtR(i: Flow, r: Flow, confirmed: bool)
    requires InvR(i, r, confirmed)
    ensures GoodR(Next(r), i, r, confirmed || Comparing(r))
  {
    ConfirmedR(i, r, confirmed);
    if Comparing(r) {
      hide InvR, GoodR, SendMac;
      SendMacAtR(i, r);
    } else if r.state != PromptStartVerification {
      StayAtR(i, r, confirmed);
      hide InvR, GoodR;
    } else if r.sender {
    } else if r.canonical.None? {
    } else {
      SendAcceptAtR(i, r, confirmed);
      hide InvR, GoodR, SendAccept;
    }
  }

  lemma TakenAtR(i: Flow, r: Flow, confirmed: bool)
    requires InvR(i, r, confirmed) && i.startSent && r.Peer() == i.Me()
    ensures var g := Taken(r, OwnStart(i));
            InvR(i, g, confirmed) && Grows(r, g) && g.deviceId == r.deviceId && !g.sender && g.canonical.Some?
  {
    hide PartyLess;
  }

  /** A step after a change that keeps everything. */
  lemma LaterAtR(o: Out, i: Flow, g: Flow, r: Flow, confirmed: bool)
    requires GoodR(o, i, g, confirmed) && Grows(r, g) && g.deviceId == r.deviceId
    ensures GoodR(o, i, r, confirmed)
  {
    hide InvR;
  }

  /** The start that counts makes `r` the accepting side, if it was not already. */
  lemma StartAtR(i: Flow, r: Flow, confirmed: bool)
    requires InvR(i, r, confirmed) && i.startSent && r.Peer() == i.Me()
    ensures GoodR(HandleStart(r, OwnStart(i)), i, r, confirmed)
  {
    var m := OwnStart(i);
    var g := Taken(r, m);
    TakenAtR(i, r, confirmed);
    hide GoodR, InvR, SendAccept, Taken;
    if g.state != PromptStartVerification && !g.sender {
      SendAcceptAtR(i, g, confirmed);
      LaterAtR(SendAccept(g), i, g, r, confirmed);
    } else {
      StayAtR(i, g, confirmed);
      LaterAtR(Out(g, []), i, g, r, confirmed);
    }
  }

  lemma KeyComesAfterAccept(i: Flow, r: Flow, confirmed: bool, confirmedI: bool)
    requires InvR(i, r, confirmed) && InvI(i, r, confirmedI) && i.keySent
    ensures r.acceptSent && !r.sender
  {
  }

  lemma KeyAtR(i: Flow, r: Flow, confirmed: bool)
    requires InvR(i, r, confirmed) && i.keySent && r.acceptSent && !r.sender
    requires r.Peer() == i.Me() && i.self.txn == r.self.txn
    ensures GoodR(HandleKey(r, i.self.publicKey), i, r, confirmed)
  {
    var f := r.(theirKey := Some(i.self.publicKey));
    assert f.Secret() == TheString(i, r).secret;
    assert InfoFor(r, i.self.publicKey) == TheString(i, r).info;
    hide TheString;
  }

  lemma MacAtR(i: Flow, r: Flow, confirmed: bool, macs: map<KeyId, MacValue>, keys: MacValue)
    requires InvR(i, r, confirmed) && i.macSent
    ensures GoodR(HandleMac(r, macs, keys), i, r, confirmed)
  {
    hide MacMatches, AcceptDevice, CancelWith, GoodR, InvR;
    if r.theirKey.None? {
      StayAtR(i, r, confirmed);
    } else if MacMatches(r, macs, keys) {
      FinishAtR(i, r, confirmed);
    } else {
      CancelAtR(i, r, confirmed, KeyMismatch);
    }
  }

  lemma FinishAtR(i: Flow, r: Flow, confirmed: bool)
    requires InvR(i, r, confirmed) && i.macSent && r.theirKey.Some?
    ensures GoodR(AcceptDevice(r.(isMacVerified := true)), i, r, confirmed)
  {
    hide PartyLess;
    if r.state == WaitingForMac {
    } else {
    }
  }

  lemma FailAtR(i: Flow, r: Flow, confirmed: bool)
    requires InvR(i, r, confirmed)
    ensures GoodR(Out(r.(error := ByUser, state := Failed), []), i, r, confirmed)
  {
    FailsAtR(i, r, confirmed, ByUser);
    hide InvR, Grows;
  }

  lemma StayAtR(i: Flow, r: Flow, confirmed: bool)
    requires InvR(i, r, confirmed)
    ensures GoodR(Out(r, []), i, r, confirmed)
  {
  }

  lemma ReceiveAtR(s: System, address: Address, m: Message)
    requires Inv(s) && m in s.toR && address == AddressOf(s.i.self.flowType)
    ensures GoodR(Receive(s.r, address, m), s.i, s.r, s.confirmedR)
  {
    hide InvI, InvR, GoodR, HandleStart, HandleAccept, HandleKey, HandleMac, HandleReady, AddressOf;
    var i, r := s.i, s.r;
    AddressIsOurs(i.self.flowType);
    assert FineForR(i, m);
    match m
    case Start(start) => StartAtR(i, r, s.confirmedR);
    case Key(_) =>
      KeyComesAfterAccept(i, r, s.confirmedR, s.confirmedI);
      KeyAtR(i, r, s.confirmedR);
    case Mac(macs, keys) => MacAtR(i, r, s.confirmedR, macs, keys);
    case Cancel(_) => FailAtR(i, r, s.confirmedR);
    case _ => StayAtR(i, r, s.confirmedR);
  }

  /** Every slot of `r` that can run in the system. */
  lemma StepAtR(s: System, e: Event)
    requires Inv(s) && Enabled(s, AtR(e))
    ensures GoodR(Step(s.r, e), s.i, s.r, Move(s, AtR(e)).confirmedR)
  {
    hide Inv, GoodR, Next, Receive, CancelWith;
    InvParts(s);
    var i, r := s.i, s.r;
    match e
    case DoNext => NextAtR(i, r, s.confirmedR);
    case DoCancel => CancelAtR(i, r, s.confirmedR, ByUser);
    case DoTimeout => CancelAtR(i, r, s.confirmedR, TimedOut);
    case DoReceive(address, m) => ReceiveAtR(s, address, m);
  }

  // ----- Every run -----

  lemma StartsInv(s: System)
    requires Requested(s) || BothStarted(s)
    ensures Inv(s)
  {
  }

  lemma MoveInv(s: System, a: Action)
    requires Inv(s) && Enabled(s, a)
    ensures Inv(Move(s, a))
  {
    hide InvI, InvR, Step;
    match a
    case AtI(e) =>
      StepAtI(s, e);
      OtherSideR(s.i, s.r, Step(s.i, e).flow, s.confirmedR);
    case AtR(e) =>
      StepAtR(s, e);
      OtherSideI(s.i, s.r, Step(s.r, e).flow, s.confirmedI);
  }

  lemma {:induction false} RunInv(start: System, actions: seq<Action>, s: System)
    requires IsRun(start, actions, s)
    ensures Inv(s)
    decreases |actions|
  {
    hide Inv, Move, Enabled, Requested, BothStarted;
    if actions == [] {
      StartsInv(start);
    } else {
      var front := actions[..|actions| - 1];
      RunInv(start, front, Play(start, front));
      MoveInv(Play(start, front), actions[|actions| - 1]);
    }
  }

  /** Whenever both sides compare, exactly one counts as the starter, both hold the same start and
      both show the same short string. */
  lemma ComparisonAgrees(start: System, actions: seq<Action>, s: System)
    requires IsRun(start, actions, s) && Comparing(s.i) && Comparing(s.r)
    ensures s.i.sender && !s.r.sender
    ensures s.i.canonical.Some? && s.i.canonical == s.r.canonical
    ensures s.i.sas.Some? && s.i.sas == s.r.sas && s.i.sas.value.info == TheString(s.i, s.r).info
    ensures s.i.state == s.r.state == CompareEmoji
  {
    RunInv(start, actions, s);
  }

  /** No run fails with a mismatched commitment, on either side. */
  lemma CommitmentsMatch(start: System, actions: seq<Action>, s: System)
    requires IsRun(start, actions, s)
    ensures s.i.error != MismatchedCommitment && s.r.error != MismatchedCommitment
    ensures Cancel(MismatchedCommitment) !in s.toI && Cancel(MismatchedCommitment) !in s.toR
  {
    RunInv(start, actions, s);
  }

  /** Success on either side means both users confirmed while comparing. */
  lemma SuccessMeansBothConfirmed(start: System, actions: seq<Action>, s: System)
    requires IsRun(start, actions, s)
    requires s.i.state == Success || s.r.state == Success
    ensures s.confirmedI && s.confirmedR
  {
    RunInv(start, actions, s);
  }

  /** Of two different parties one is smaller, so naming the smaller one `i` loses nothing. */
  lemma OneIsSmaller(p: Party, q: Party)
    requires p != q
    ensures PartyLess(p, q) || PartyLess(q, p)
  {
    LessTotal(p.user, q.user);
    LessTotal(p.device, q.device);
  }

  // ----- The undisturbed run -----

  lemma Then(start: System, actions: seq<Action>, a: Action)
    requires Playable(start, actions) && Enabled(Play(start, actions), a)
    ensures Playable(start, actions + [a]) && Play(start, actions + [a]) == Move(Play(start, actions), a)
  {
    assert (actions + [a])[..|actions|] == actions;
  }

  /** After a request, ready, start and accept; when both have started, only the accept of the party that
      yields. */
  lemma AcceptReached(s: System) returns (actions: seq<Action>, t: System)
    requires Requested(s) || BothStarted(s)
    ensures Playable(s, actions) && t == Play(s, actions) && Phase3(t) && SameSelves(s, t)
  {
    hide Enabled, Step;
    var to := AddressOf(s.i.self.flowType);
    actions, t := [], s;
    var next := AtR(DoReceive(to, Start(OwnStart(s.i))));
    if BothStarted(s) {
      YieldSent(s);
    } else {
      next := AtR(DoNext);
      ReadySent(t);
      Then(s, actions, next);
      actions, t := actions + [next], Move(t, next);

      next := AtI(DoReceive(to, Ready(s.r.Me().device)));
      StartSent(t);
      Then(s, actions, next);
      actions, t := actions + [next], Move(t, next);

      next := AtR(DoReceive(to, Start(OwnStart(s.i))));
      AcceptSent(t);
    }
    Then(s, actions, next);
    actions, t := actions + [next], Move(t, next);
  }

  /** Both keys then bring both sides to compare, from either starting point. */
  lemma KeysExchanged(s: System) returns (actions: seq<Action>, t: System)
    requires Requested(s) || BothStarted(s)
    ensures Playable(s, actions) && t == Play(s, actions)
    ensures Acquainted(t) && SameSelves(s, t)
    ensures t.i.state == CompareEmoji && t.r.state == CompareEmoji && !t.i.macSent && !t.r.macSent
  {
    assert s.i.self.txn == s.r.self.txn;
    hide Enabled, Step, Requested, BothStarted;
    actions, t := AcceptReached(s);
    hide Playable, Play;
    var to := AddressOf(s.i.self.flowType);
    var next := AtI(DoReceive(to, Accept(true, Hash(s.r.self.publicKey, TheStart(t.i)), true)));
    FirstKeySent(t);
    Then(s, actions, next);
    actions, t := actions + [next], Move(t, next);

    next := AtR(DoReceive(to, Key(s.i.self.publicKey)));
    SecondKeySent(t);
    Then(s, actions, next);
    actions, t := actions + [next], Move(t, next);

    next := AtI(DoReceive(to, Key(s.r.self.publicKey)));
    BothCompare(t);
    Then(s, actions, next);
    actions, t := actions + [next], Move(t, next);
  }

  /** A comparison of both sides is reachable from either starting point. */
  lemma ComparisonIsReachable(s: System) returns (actions: seq<Action>, t: System)
    requires Requested(s) || BothStarted(s)
    ensures IsRun(s, actions, t) && Comparing(t.i) && Comparing(t.r)
  {
    actions, t := KeysExchanged(s);
    hide Playable, Play, Requested, BothStarted;
  }

  predicate Fresh(f: Flow) {
    !f.macSent && !f.isMacVerified && f.shownAs == Emoji
  }

  predicate Paired(s: System) {
    && s.i.self.peerUser == s.r.Me().user && s.r.Peer() == s.i.Me() && s.i.self.flowType == s.r.self.flowType
    && s.i.sender && !s.r.sender && Fresh(s.i) && Fresh(s.r)
  }

  predicate SameSelves(s: System, t: System) {
    s.i.self == t.i.self && s.r.self == t.r.self
  }

  predicate Phase1(s: System) {
    && Paired(s) && AimsAt(s.i, s.r.Me().device) && Ready(s.r.Me().device) in s.toI
    && s.i.state == WaitingForOtherToAccept && !s.i.startSent && !s.i.keySent
    && s.r.state == WaitingForKeys && !s.r.acceptSent && !s.r.keySent
  }

  lemma ReadySent(s: System)
    requires Requested(s)
    ensures Enabled(s, AtR(DoNext)) && Phase1(Move(s, AtR(DoNext))) && SameSelves(s, Move(s, AtR(DoNext)))
  {
  }

  predicate Phase2(s: System) {
    && Paired(s) && s.i.deviceId == s.r.Me().device && Start(OwnStart(s.i)) in s.toR
    && s.i.state == WaitingForOtherToAccept && !s.i.keySent && s.i.canonical == TheStart(s.i)
    && s.r.state == WaitingForKeys && !s.r.acceptSent && !s.r.keySent
  }

  lemma StartSent(s: System)
    requires Phase1(s)
    ensures var a := AtI(DoReceive(AddressOf(s.i.self.flowType), Ready(s.r.Me().device)));
            Enabled(s, a) && Phase2(Move(s, a)) && SameSelves(s, Move(s, a))
  {
  }

  predicate Phase3(s: System) {
    && Paired(s) && s.i.deviceId == s.r.Me().device
    && Accept(true, Hash(s.r.self.publicKey, TheStart(s.i)), true) in s.toI
    && s.i.state == WaitingForOtherToAccept && !s.i.keySent && s.i.canonical == TheStart(s.i)
    && s.r.state == WaitingForKeys && !s.r.keySent
  }

  lemma AcceptSent(s: System)
    requires Phase2(s)
    ensures var a := AtR(DoReceive(AddressOf(s.i.self.flowType), Start(OwnStart(s.i))));
            Enabled(s, a) && Phase3(Move(s, a)) && SameSelves(s, Move(s, a))
  {
  }

  /** The larger party takes the other's start for its own. */
  lemma YieldSent(s: System)
    requires BothStarted(s)
    ensures var a := AtR(DoReceive(AddressOf(s.i.self.flowType), Start(OwnStart(s.i))));
            Enabled(s, a) && Phase3(Move(s, a)) && SameSelves(s, Move(s, a))
  {
    assert s.r.Peer() == s.i.Me();
  }

  predicate Phase4(s: System) {
    && Paired(s) && s.i.deviceId == s.r.Me().device && Key(s.i.self.publicKey) in s.toR
    && s.i.state == WaitingForOtherToAccept && s.i.commitment == Hash(s.r.self.publicKey, s.i.canonical)
    && s.r.state == WaitingForKeys && !s.r.keySent
  }

  lemma FirstKeySent(s: System)
    requires Phase3(s)
    ensures var a := AtI(DoReceive(AddressOf(s.i.self.flowType),
              Accept(true, Hash(s.r.self.publicKey, TheStart(s.i)), true)));
            Enabled(s, a) && Phase4(Move(s, a)) && SameSelves(s, Move(s, a))
  {
  }

  predicate Phase5(s: System) {
    && Paired(s) && s.i.deviceId == s.r.Me().device && Key(s.r.self.publicKey) in s.toI
    && s.i.state == WaitingForOtherToAccept && s.i.commitment == Hash(s.r.self.publicKey, s.i.canonical)
    && s.r.state == CompareEmoji && s.r.theirKey == Some(s.i.self.publicKey)
  }

  lemma SecondKeySent(s: System)
    requires Phase4(s)
    ensures var a := AtR(DoReceive(AddressOf(s.i.self.flowType), Key(s.i.self.publicKey)));
            Enabled(s, a) && Phase5(Move(s, a)) && SameSelves(s, Move(s, a))
  {
  }

  lemma BothCompare(s: System)
    requires Phase5(s)
    ensures var a := AtI(DoReceive(AddressOf(s.i.self.flowType), Key(s.r.self.publicKey)));
            var t := Move(s, a);
            && Enabled(s, a) && SameSelves(s, t) && Paired(t) && t.i.Peer() == t.r.Me()
            && t.i.state == CompareEmoji && t.r.state == CompareEmoji
            && t.i.theirKey == Some(s.r.self.publicKey) && t.r.theirKey == Some(s.i.self.publicKey)
  {
  }

  /** Each side vouches only for keys the other side knows. */
  predicate KeysKnown(f: Flow, g: Flow) {
    forall id :: id in g.self.ourKeys ==> id in f.self.theirKeys && f.self.theirKeys[id] == g.self.ourKeys[id]
  }

  function OwnMac(f: Flow): Message {
    MacFor(f.Secret(), f.Me(), f.Peer(), f.self.txn, f.self.ourKeys)
  }

  lemma ConfirmSends(f: Flow)
    requires Comparing(f) && !f.macSent && f.theirKey.Some? && !f.isMacVerified
    ensures Next(f) == Out(f.(macSent := true, state := WaitingForMac), [OwnMac(f)])
  {
  }

  lemma MatchSucceeds(f: Flow, address: Address, g: Flow)
    requires f.state == WaitingForMac && f.theirKey == Some(g.self.publicKey) && g.theirKey == Some(f.self.publicKey)
    requires f.Peer() == g.Me() && g.Peer() == f.Me() && f.self.txn == g.self.txn && KeysKnown(f, g)
    requires address == ThisTxn || address == ThisEvent
    ensures Receive(f, address, OwnMac(g)).flow == f.(isMacVerified := true, state := Success)
  {
    HonestMacMatchesIff(f, g);
    hide MacMatches;
  }

  /** Both know the other's key and talk about the same parties. */
  predicate Acquainted(s: System) {
    && s.i.Peer() == s.r.Me() && s.r.Peer() == s.i.Me() && s.i.self.txn == s.r.self.txn
    && s.i.theirKey == Some(s.r.self.publicKey) && s.r.theirKey == Some(s.i.self.publicKey)
    && !s.i.isMacVerified && !s.r.isMacVerified
  }

  predicate HaveConfirmed(s: System) {
    && Acquainted(s) && s.i.state == WaitingForMac && s.r.state == WaitingForMac
    && OwnMac(s.i) in s.toR && OwnMac(s.r) in s.toI
  }

  /** Both users confirm. */
  lemma BothConfirm(s: System)
    requires Acquainted(s) && Comparing(s.i) && Comparing(s.r) && !s.i.macSent && !s.r.macSent
    ensures Enabled(s, AtI(DoNext)) && Enabled(Move(s, AtI(DoNext)), AtR(DoNext))
    ensures var t := Move(Move(s, AtI(DoNext)), AtR(DoNext)); HaveConfirmed(t) && SameSelves(s, t)
  {
    ConfirmSends(s.i);
    ConfirmSends(s.r);
    OwnMacStays(s.i);
    OwnMacStays(s.r);
    hide OwnMac, Next;
  }

  /** Both receive the other's MAC message. */
  lemma BothMatch(s: System)
    requires HaveConfirmed(s) && KeysKnown(s.i, s.r) && KeysKnown(s.r, s.i)
    ensures var a := AtI(DoReceive(AddressOf(s.i.self.flowType), OwnMac(s.r)));
            var b := AtR(DoReceive(AddressOf(s.i.self.flowType), OwnMac(s.i)));
            var t := Move(Move(s, a), b);
            Enabled(s, a) && Enabled(Move(s, a), b) && t.i.state == Success && t.r.state == Success
  {
    var to := AddressOf(s.i.self.flowType);
    MatchSucceeds(s.i, to, s.r);
    MatchSucceeds(s.r, to, s.i);
    hide OwnMac, Receive, KeysKnown;
  }

  lemma KnownAfter(s: System, t: System)
    requires KeysKnown(s.i, s.r) && KeysKnown(s.r, s.i) && SameSelves(s, t)
    ensures KeysKnown(t.i, t.r) && KeysKnown(t.r, t.i)
  {
  }

  /** When both users then confirm and both know the other's keys, both sides succeed: comparing and
      success can be reached. */
  lemma UndisturbedRunSucceeds(s: System) returns (actions: seq<Action>, t: System)
    requires (Requested(s) || BothStarted(s)) && KeysKnown(s.i, s.r) && KeysKnown(s.r, s.i)
    ensures IsRun(s, actions, t) && t.i.state == Success && t.r.state == Success
  {
    actions, t := KeysExchanged(s);
    hide Playable, Play, Requested, BothStarted, OwnMac, Enabled, Move, KeysKnown;
    BothConfirm(t);
    Then(s, actions, AtI(DoNext));
    actions, t := actions + [AtI(DoNext)], Move(t, AtI(DoNext));
    Then(s, actions, AtR(DoNext));
    actions, t := actions + [AtR(DoNext)], Move(t, AtR(DoNext));

    var toI := AtI(DoReceive(AddressOf(t.i.self.flowType), OwnMac(t.r)));
    var toR := AtR(DoReceive(AddressOf(t.i.self.flowType), OwnMac(t.i)));
    KnownAfter(s, t);
    BothMatch(t);
    Then(s, actions, toI);
    actions, t := actions + [toI], Move(t, toI);
    Then(s, actions, toR);
    actions, t := actions + [toR], Move(t, toR);
  }

  lemma OwnMacStays(f: Flow)
    ensures forall sent, verified, state ::
              OwnMac(f.(macSent := sent, isMacVerified := verified, state := state)) == OwnMac(f)
  {
  }
}
