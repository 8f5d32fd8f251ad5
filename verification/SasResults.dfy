/** What one flow does against an arbitrary peer: what its success needs, which steps end and revive it,
    and how often it sends each message. */
module SasResults {
  import opened Wrappers
  import opened Order
  import opened Sas

  // ----- Success is earned -----

  ghost predicate Confirmed(f: Flow, events: seq<Event>) {
    exists n {:trigger events[..n]} :: 0 <= n < |events| && events[n] == DoNext && Comparing(Run(f, events[..n]))
  }

  ghost predicate Matched(f: Flow, events: seq<Event>) {
    exists n {:trigger events[..n]} :: 0 <= n < |events| && events[n].DoReceive? && events[n].message.Mac?
             && Run(f, events[..n]).theirKey.Some?
             && MacMatches(Run(f, events[..n]), events[n].message.macs, events[n].message.keys)
  }

  /** A step that neither confirms nor verifies. */
  predicate Calm(f: Flow, f': Flow) {
    && f'.macSent == f.macSent && f'.isMacVerified == f.isMacVerified
    && (f'.state == f.state || (f'.state != WaitingForMac && f'.state != Success))
  }

  predicate Ours(address: Address) {
    address == ThisTxn || address == ThisEvent
  }

  predicate NotElsewhere(address: Address) {
    address != OtherTxn && address != OtherEvent
  }

  predicate Final(f: Flow) {
    f.state == Success || f.state == Failed
  }

  lemma CancelIsCalm(f: Flow, code: Error)
    ensures Calm(f, CancelWith(f, code).flow)
  {
    if Final(f) {
    } else {
    }
  }

  lemma SendAcceptIsCalm(f: Flow)
    ensures Calm(f, SendAccept(f).flow)
  {
  }

  lemma TakenIsCalm(f: Flow, m: StartMsg)
    ensures Calm(f, Taken(f, m)) && Taken(f, m).state == f.state
  {
    hide PartyLess;
  }

  lemma StartIsCalm(f: Flow, m: StartMsg)
    ensures Calm(f, HandleStart(f, m).flow)
  {
    TakenIsCalm(f, m);
    CancelIsCalm(f, UnknownMethod);
    CancelIsCalm(Taken(f, m), UnknownMethod);
    SendAcceptIsCalm(Taken(f, m));
    hide SendAccept, CancelWith, Taken;
  }

  lemma AcceptIsCalm(f: Flow, supported: bool, commitment: Commitment, emoji: bool)
    ensures Calm(f, HandleAccept(f, supported, commitment, emoji).flow)
  {
  }

  lemma KeyIsCalm(f: Flow, key: PublicKey)
    ensures Calm(f, HandleKey(f, key).flow)
  {
    var g := f.(theirKey := Some(key));
    CancelIsCalm(f, OutOfOrder);
    CancelIsCalm(g, MismatchedCommitment);
    hide CancelWith, InfoFor;
    if f.sender {
    } else if f.keySent {
    } else {
    }
  }

  lemma ReadyIsCalm(f: Flow, address: Address, device: string)
    ensures Calm(f, HandleReady(f, address, device).flow)
  {
    if !f.sender {
    } else if Ours(address) {
      if f.startSent {
      } else {
      }
    } else {
    }
  }

  lemma NotMacIsCalm(f: Flow, address: Address, m: Message)
    requires !m.Mac?
    ensures Calm(f, Receive(f, address, m).flow)
  {
    hide HandleStart, HandleAccept, HandleKey, HandleReady;
    match m
    case Start(start) => StartIsCalm(f, start);
    case Accept(supported, commitment, emoji) => AcceptIsCalm(f, supported, commitment, emoji);
    case Key(key) => KeyIsCalm(f, key);
    case Ready(device) => ReadyIsCalm(f, address, device);
    case _ =>
  }

  /** What one step may do to the flags that lead to success. */
  lemma StepFlags(f: Flow, e: Event)
    requires f.state == WaitingForMac ==> f.macSent
    requires f.state == Success ==> f.macSent && f.isMacVerified
    ensures var f' := Step(f, e).flow;
            && (f'.state == WaitingForMac ==> f'.macSent)
            && (f'.state == Success ==> f'.macSent && f'.isMacVerified)
            && (f'.macSent && !f.macSent ==> e == DoNext && Comparing(f))
            && (f'.isMacVerified && !f.isMacVerified ==>
                  e.DoReceive? && e.message.Mac? && f.theirKey.Some? && MacMatches(f, e.message.macs, e.message.keys))
  {
    hide Next, CancelWith, Receive, MacMatches;
    match e
    case DoNext => NextFlags(f);
    case DoCancel => CancelIsCalm(f, ByUser);
    case DoTimeout => CancelIsCalm(f, TimedOut);
    case DoReceive(address, m) =>
      if m.Mac? {
        MacFlags(f, address, m.macs, m.keys);
      } else {
        NotMacIsCalm(f, address, m);
      }
  }

  lemma NextFlags(f: Flow)
    requires f.state == WaitingForMac ==> f.macSent
    requires f.state == Success ==> f.macSent && f.isMacVerified
    ensures var f' := Next(f).flow;
            && (f'.state == WaitingForMac ==> f'.macSent)
            && (f'.state == Success ==> f'.macSent && f'.isMacVerified)
            && (f'.macSent && !f.macSent ==> Comparing(f)) && f'.isMacVerified == f.isMacVerified
  {
    hide MacFor;
    if Comparing(f) {
      if f.macSent {
      } else if f.theirKey.None? {
      } else if f.isMacVerified {
      }
    } else if f.state == PromptStartVerification {
      if f.sender {
      } else {
      }
    }
  }

  lemma MacFlags(f: Flow, address: Address, macs: map<KeyId, MacValue>, keys: MacValue)
    requires f.state == WaitingForMac ==> f.macSent
    requires f.state == Success ==> f.macSent && f.isMacVerified
    ensures var f' := Receive(f, address, Mac(macs, keys)).flow;
            && (f'.state == WaitingForMac ==> f'.macSent)
            && (f'.state == Success ==> f'.macSent && f'.isMacVerified)
            && f'.macSent == f.macSent
            && (f'.isMacVerified && !f.isMacVerified ==> f.theirKey.Some? && MacMatches(f, macs, keys))
  {
    hide MacMatches;
    if NotElsewhere(address) && f.theirKey.Some? {
      if MacMatches(f, macs, keys) {
      } else if Final(f) {
      } else {
      }
    } else {
    }
  }

  lemma MacEnters(f: Flow, address: Address, macs: map<KeyId, MacValue>, keys: MacValue)
    requires f.state != Success
    ensures Receive(f, address, Mac(macs, keys)).flow.state == Success <==>
            NotElsewhere(address) && f.state == WaitingForMac && f.theirKey.Some? && MacMatches(f, macs, keys)
  {
    hide MacMatches;
    if NotElsewhere(address) && f.theirKey.Some? {
      if MacMatches(f, macs, keys) {
      } else if Final(f) {
      } else {
      }
    } else {
    }
  }

  lemma NextEnters(f: Flow)
    requires f.state != Success
    ensures Next(f).flow.state == Success <==> Comparing(f) && !f.macSent && f.theirKey.Some? && f.isMacVerified
  {
    hide MacFor;
    if Comparing(f) {
      if f.macSent {
      } else if f.theirKey.None? {
      } else if f.isMacVerified {
      }
    } else if f.state == PromptStartVerification {
      if f.sender {
      } else {
      }
    }
  }

  /** Whatever messages arrive, a flow reaches Success only after its own user confirmed while
      comparing and a received MAC message matched. */
  lemma {:induction false} SuccessIsEarned(f: Flow, events: seq<Event>)
    requires Untouched(f)
    ensures var f' := Run(f, events);
            && (f'.state == WaitingForMac ==> f'.macSent)
            && (f'.state == Success ==> f'.macSent && f'.isMacVerified)
            && (f'.macSent ==> Confirmed(f, events))
            && (f'.isMacVerified ==> Matched(f, events))
  {
    if events != [] {
      var front := events[..|events| - 1];
      SuccessIsEarned(f, front);
      StepFlags(Run(f, front), events[|events| - 1]);
      assert forall n :: 0 <= n <= |front| ==> front[..n] == events[..n];
      assert events[..|front|] == front;
    }
  }

  // ----- Which MAC messages verify -----

  /** The message that a peer would send under any secret, for any parties, transaction and keys verifies it
      exactly when all of these are the flow's own and the keys are known with these values. Any other
      such message ends an unfinished flow. */
  lemma MacVerifiesIff(f: Flow, address: Address, secret: set<PublicKey>, from: Party, to: Party, txn: string,
                       keys: map<KeyId, string>)
    requires f.theirKey.Some? && !f.isMacVerified && NotElsewhere(address)
    ensures Receive(f, address, MacFor(secret, from, to, txn, keys)).flow.isMacVerified <==>
            && secret == {f.self.publicKey, f.theirKey.value}
            && from == Party(f.self.peerUser, f.deviceId) && to == f.self.me && txn == f.self.txn
            && forall id :: id in keys ==> id in f.self.theirKeys && f.self.theirKeys[id] == keys[id]
    ensures var o := Receive(f, address, MacFor(secret, from, to, txn, keys));
            !o.flow.isMacVerified && !Final(f) ==>
              o == Out(f.(error := KeyMismatch, state := Failed), [Cancel(KeyMismatch)])
  {
    var m := MacFor(secret, from, to, txn, keys);
    var known := Vouched(f, m.macs);
    assert m.macs.Keys == keys.Keys;
    assert f.Secret() == {f.self.publicKey, f.theirKey.value};
    if MacMatches(f, m.macs, m.keys) {
      assert known == keys.Keys;
      forall id | id in keys
        ensures id in f.self.theirKeys && f.self.theirKeys[id] == keys[id]
      {
        assert id in known;
      }
    }
    assert (forall id :: id in keys ==> id in f.self.theirKeys) ==> known == keys.Keys;
    MacOutcome(f, address, m.macs, m.keys);
    hide MacMatches, Receive;
  }

  lemma MacOutcome(f: Flow, address: Address, macs: map<KeyId, MacValue>, keys: MacValue)
    requires f.theirKey.Some? && !f.isMacVerified && NotElsewhere(address)
    ensures var o := Receive(f, address, Mac(macs, keys));
            && (o.flow.isMacVerified <==> MacMatches(f, macs, keys))
            && (!o.flow.isMacVerified && !Final(f) ==>
                  o == Out(f.(error := KeyMismatch, state := Failed), [Cancel(KeyMismatch)]))
  {
    hide MacMatches;
  }

  /** The keys of the other side that a message has a MAC for. */
  function KnownMacs(f: Flow, macs: map<KeyId, MacValue>): map<KeyId, MacValue> {
    map id | id in macs && id in f.self.theirKeys :: macs[id]
  }

  /** No message gets through by mixing: without the MACs of keys we do not know, every message that
      verifies is the one a peer makes for some of the keys we know, under our secret, for both parties and
      this transaction. */
  lemma MacVerifiesOnlyWhole(f: Flow, address: Address, macs: map<KeyId, MacValue>, keys: MacValue)
    requires f.theirKey.Some? && !f.isMacVerified && NotElsewhere(address)
    ensures Receive(f, address, Mac(macs, keys)).flow.isMacVerified <==>
            exists vouched: map<KeyId, string> ::
              && vouched.Items <= f.self.theirKeys.Items
              && MacFor({f.self.publicKey, f.theirKey.value}, Party(f.self.peerUser, f.deviceId), f.self.me, f.self.txn,
                     vouched) == Mac(KnownMacs(f, macs), keys)
  {
    var secret, from := {f.self.publicKey, f.theirKey.value}, Party(f.self.peerUser, f.deviceId);
    assert f.Secret() == secret;
    MacOutcome(f, address, macs, keys);
    hide Receive;
    assert KnownMacs(f, macs).Keys == Vouched(f, macs);
    if MacMatches(f, macs, keys) {
      var vouched := map id | id in f.self.theirKeys && id in macs :: f.self.theirKeys[id];
      assert vouched.Keys == Vouched(f, macs);
      assert MacFor(secret, from, f.self.me, f.self.txn, vouched).macs == KnownMacs(f, macs);
      assert vouched.Items <= f.self.theirKeys.Items;
    }
    if vouched: map<KeyId, string> :|
      && vouched.Items <= f.self.theirKeys.Items
      && MacFor(secret, from, f.self.me, f.self.txn, vouched) == Mac(KnownMacs(f, macs), keys)
    {
      var m := MacFor(secret, from, f.self.me, f.self.txn, vouched);
      assert vouched.Keys == m.macs.Keys == Vouched(f, macs);
      forall id | id in Vouched(f, macs)
        ensures macs[id] == MacValue(secret, from, f.self.me, f.self.txn, KeyOf(id, f.self.theirKeys[id]))
      {
        assert m.macs[id] == KnownMacs(f, macs)[id] == macs[id];
        assert (id, vouched[id]) in vouched.Items;
      }
    }
  }

  /** So what an honest peer sends verifies it exactly when we know the peer's keys: for every key id it
      vouches for, the same key. */
  lemma HonestMacMatchesIff(f: Flow, peer: Flow)
    requires f.theirKey == Some(peer.self.publicKey) && peer.theirKey == Some(f.self.publicKey)
    requires f.Peer() == peer.Me() && peer.Peer() == f.Me() && f.self.txn == peer.self.txn
    ensures var m := MacFor(peer.Secret(), peer.Me(), peer.Peer(), peer.self.txn, peer.self.ourKeys);
            MacMatches(f, m.macs, m.keys) <==>
            forall id :: id in peer.self.ourKeys ==>
                  id in f.self.theirKeys && f.self.theirKeys[id] == peer.self.ourKeys[id]
  {
    var m := MacFor(peer.Secret(), peer.Me(), peer.Peer(), peer.self.txn, peer.self.ourKeys);
    var unverified := f.(isMacVerified := false);
    assert peer.Secret() == {f.self.publicKey, f.theirKey.value};
    MacVerifiesIff(unverified, ThisTxn, peer.Secret(), peer.Me(), peer.Peer(), peer.self.txn, peer.self.ourKeys);
    MacOutcome(unverified, ThisTxn, m.macs, m.keys);
    assert MacMatches(unverified, m.macs, m.keys) <==> MacMatches(f, m.macs, m.keys);
    hide Receive, MacMatches;
  }

  // ----- What a success vouches for -----

  /** Which of the known keys a message speaks for is up to the sender: a waiting flow succeeds on any set of
      known keys, the empty one and those without the key of the device included. */
  lemma AnyKeysSuffice(f: Flow, address: Address, ids: set<KeyId>) returns (m: Message)
    requires f.state == WaitingForMac && f.theirKey.Some? && NotElsewhere(address)
    requires ids <= f.self.theirKeys.Keys
    ensures m.Mac? && Vouched(f, m.macs) == ids && Receive(f, address, m).flow.state == Success
  {
    var vouched := map id | id in f.self.theirKeys && id in ids :: f.self.theirKeys[id];
    m := MacFor(f.Secret(), f.Peer(), f.Me(), f.self.txn, vouched);
    assert vouched.Keys == ids && m.macs.Keys == ids;
    assert Vouched(f, m.macs) == ids;
    assert MacMatches(f, m.macs, m.keys);
    hide MacMatches;
  }

  /** An honest peer's message vouches for all of its own keys, so for its device key exactly when that is
      among the keys it lists. */
  lemma HonestVouches(f: Flow, peer: Flow)
    requires f.theirKey == Some(peer.self.publicKey) && peer.theirKey == Some(f.self.publicKey)
    requires f.Peer() == peer.Me() && peer.Peer() == f.Me() && f.self.txn == peer.self.txn
    ensures var m := MacFor(peer.Secret(), peer.Me(), peer.Peer(), peer.self.txn, peer.self.ourKeys);
            MacMatches(f, m.macs, m.keys) ==>
            Vouched(f, m.macs) == peer.self.ourKeys.Keys
            && ("ed25519:" + f.deviceId in Vouched(f, m.macs) <==>
                  "ed25519:" + peer.self.me.device in peer.self.ourKeys)
  {
    var m := MacFor(peer.Secret(), peer.Me(), peer.Peer(), peer.self.txn, peer.self.ourKeys);
    assert m.macs.Keys == peer.self.ourKeys.Keys;
    HonestMacMatchesIff(f, peer);
    hide MacMatches;
  }

  // ----- Which steps enter and leave the final states -----

  /** The flow still answers this start with an accept. */
  predicate Answers(f: Flow, m: StartMsg) {
    && m.supported && (m.emoji || m.decimal) && !f.acceptSent
    && (!f.sender || (PartyLess(f.Peer(), f.Me()) && m.sasV1))
  }

  /** A flow succeeds exactly when its user confirms after the MACs matched, or they match after its user
      confirmed. */
  lemma SuccessEnteredIff(f: Flow, e: Event)
    requires f.state != Success
    ensures Step(f, e).flow.state == Success <==>
            || (e == DoNext && Comparing(f) && !f.macSent && f.theirKey.Some? && f.isMacVerified)
            || (e.DoReceive? && e.message.Mac? && NotElsewhere(e.address) && f.state == WaitingForMac
                && f.theirKey.Some? && MacMatches(f, e.message.macs, e.message.keys))
  {
    hide Next, CancelWith, Receive, MacMatches;
    match e
    case DoNext => NextEnters(f);
    case DoCancel => CancelIsCalm(f, ByUser);
    case DoTimeout => CancelIsCalm(f, TimedOut);
    case DoReceive(address, m) =>
      if m.Mac? {
        MacEnters(f, address, m.macs, m.keys);
      } else {
        NotMacIsCalm(f, address, m);
      }
  }

  lemma FinalNext(f: Flow)
    requires Final(f)
    ensures Next(f) == Out(f, [])
  {
  }

  lemma FinalCancel(f: Flow, code: Error)
    requires Final(f)
    ensures CancelWith(f, code) == Out(f, [])
  {
  }

  lemma TakenFlags(f: Flow, m: StartMsg)
    ensures var g := Taken(f, m);
            g.state == f.state && g.acceptSent == f.acceptSent && g.sender == (f.sender && !PartyLess(f.Peer(), f.Me()))
  {
    hide PartyLess;
  }

  lemma FinalStart(f: Flow, m: StartMsg)
    requires Final(f)
    ensures HandleStart(f, m).flow.state == if Answers(f, m) then WaitingForKeys else f.state
  {
    TakenFlags(f, m);
    FinalCancel(f, UnknownMethod);
    FinalCancel(Taken(f, m), UnknownMethod);
    hide PartyLess, Taken, CancelWith;
  }

  lemma FinalMac(f: Flow, macs: map<KeyId, MacValue>, keys: MacValue)
    requires Final(f)
    ensures HandleMac(f, macs, keys).flow.state == f.state
  {
    hide MacMatches;
  }

  lemma FinalKey(f: Flow, key: PublicKey)
    requires Final(f)
    ensures HandleKey(f, key) == Out(f, [])
  {
  }

  lemma FinalAccept(f: Flow, supported: bool, commitment: Commitment, emoji: bool)
    requires Final(f)
    ensures HandleAccept(f, supported, commitment, emoji).flow.state == f.state
  {
  }

  lemma FinalReady(f: Flow, address: Address, device: string)
    requires Final(f)
    ensures HandleReady(f, address, device).flow.state ==
            if !f.sender then (if device != f.Me().device then Failed else f.state)
            else if Ours(address) && !f.startSent then WaitingForOtherToAccept else f.state
  {
    if !f.sender {
    } else if Ours(address) {
      if f.startSent {
      } else {
      }
    } else {
    }
  }

  /** The state of a finished flow after a message. */
  lemma FinalReceive(f: Flow, address: Address, m: Message)
    requires Final(f)
    ensures Receive(f, address, m).flow.state ==
            match m
            case Cancel(_) => if NotElsewhere(address) then Failed else f.state
            case Start(start) => if Ours(address) && Answers(f, start) then WaitingForKeys else f.state
            case Ready(device) =>
              if !f.sender then (if device != f.Me().device then Failed else f.state)
              else if Ours(address) && !f.startSent then WaitingForOtherToAccept else f.state
            case _ => f.state
  {
    hide HandleStart, HandleAccept, HandleKey, HandleMac, HandleReady, Answers;
    match m
    case Start(start) => FinalStart(f, start);
    case Accept(supported, commitment, emoji) => FinalAccept(f, supported, commitment, emoji);
    case Key(key) => FinalKey(f, key);
    case Mac(macs, keys) => FinalMac(f, macs, keys);
    case Ready(device) => FinalReady(f, address, device);
    case _ =>
  }

  /** Neither its own cancellation nor its timer undoes a success: only a cancel message does, a late
      start it answers, a late ready it starts on, and a ready of another device. */
  lemma SuccessLeftIff(f: Flow, e: Event)
    requires f.state == Success
    ensures Step(f, e).flow.state != Success <==>
            e.DoReceive? && match e.message
                            case Cancel(_) => NotElsewhere(e.address)
                            case Start(m) => Ours(e.address) && Answers(f, m)
                            case Ready(device) =>
                              if f.sender then Ours(e.address) && !f.startSent else device != f.Me().device
                            case _ => false
  {
    hide Next, CancelWith, Receive, Answers;
    match e
    case DoNext => FinalNext(f);
    case DoCancel => FinalCancel(f, ByUser);
    case DoTimeout => FinalCancel(f, TimedOut);
    case DoReceive(address, m) => FinalReceive(f, address, m);
  }

  /** A failed flow is revived by exactly these messages. */
  predicate Revives(f: Flow, e: Event) {
    e.DoReceive? && Ours(e.address) && match e.message
                                       case Start(m) => Answers(f, m)
                                       case Ready(_) => f.sender && !f.startSent
                                       case _ => false
  }

  lemma FailedLeftIff(f: Flow, e: Event)
    requires f.state == Failed
    ensures Step(f, e).flow.state != Failed <==> Revives(f, e)
  {
    hide Next, CancelWith, Receive, Answers;
    match e
    case DoNext => FinalNext(f);
    case DoCancel => FinalCancel(f, ByUser);
    case DoTimeout => FinalCancel(f, TimedOut);
    case DoReceive(address, m) => FinalReceive(f, address, m);
  }

  /** Some device of the other user comes before ours. */
  predicate PeerCanBeSmaller(f: Flow) {
    Less(f.self.peerUser, f.Me().user) || (f.self.peerUser == f.Me().user && f.Me().device != "")
  }

  lemma CanBeSmallerIff(f: Flow)
    ensures PeerCanBeSmaller(f) <==> exists device :: PartyLess(Party(f.self.peerUser, device), f.Me())
  {
    if PeerCanBeSmaller(f) {
      assert PartyLess(Party(f.self.peerUser, ""), f.Me());
    }
  }

  /** The flow has failed and can neither accept nor start any more. */
  predicate Over(f: Flow) {
    && f.state == Failed
    && if f.sender then f.startSent && (f.acceptSent || !PeerCanBeSmaller(f)) else f.acceptSent
  }

  /** Flags are never lowered, and a flow stops being the sender only by yielding to a smaller party. */
  predicate Stance(f: Flow, f': Flow) {
    && f'.self == f.self && (f.startSent ==> f'.startSent) && (f.acceptSent ==> f'.acceptSent)
    && (f'.sender ==> f.sender) && (f.sender && !f'.sender ==> PartyLess(f.Peer(), f.Me()))
  }

  lemma CancelStance(f: Flow, code: Error)
    ensures Stance(f, CancelWith(f, code).flow)
  {
    hide PartyLess;
    if Final(f) {
    } else {
    }
  }

  lemma TakenStance(f: Flow, m: StartMsg)
    ensures Stance(f, Taken(f, m)) && Taken(f, m).Me() == f.Me() && Taken(f, m).Peer() == f.Peer()
  {
    hide PartyLess;
    if f.sender && !PartyLess(f.Peer(), f.Me()) {
    } else {
    }
  }

  lemma StartStance(f: Flow, m: StartMsg)
    ensures Stance(f, HandleStart(f, m).flow)
  {
    TakenStance(f, m);
    CancelStance(f, UnknownMethod);
    CancelStance(Taken(f, m), UnknownMethod);
    hide CancelWith, Taken, PartyLess;
  }

  lemma KeyStance(f: Flow, key: PublicKey)
    ensures Stance(f, HandleKey(f, key).flow)
  {
    hide PartyLess, InfoFor;
    CancelStance(f, OutOfOrder);
    CancelStance(f.(theirKey := Some(key)), MismatchedCommitment);
    hide CancelWith;
    if f.sender {
    } else if f.keySent {
    } else {
    }
  }

  lemma AcceptStance(f: Flow, supported: bool, commitment: Commitment, emoji: bool)
    ensures Stance(f, HandleAccept(f, supported, commitment, emoji).flow)
  {
    hide PartyLess;
  }

  lemma MacStance(f: Flow, macs: map<KeyId, MacValue>, keys: MacValue)
    ensures Stance(f, HandleMac(f, macs, keys).flow)
  {
    hide PartyLess, MacMatches;
    if f.theirKey.Some? {
      if MacMatches(f, macs, keys) {
      } else if Final(f) {
      } else {
      }
    } else {
    }
  }

  lemma ReadyStance(f: Flow, address: Address, device: string)
    ensures Stance(f, HandleReady(f, address, device).flow)
  {
    hide PartyLess;
    if !f.sender {
    } else if Ours(address) {
      if f.startSent {
      } else {
      }
    } else {
    }
  }

  lemma NextStance(f: Flow)
    ensures Stance(f, Next(f).flow)
  {
    hide PartyLess, MacFor;
    if Comparing(f) {
      if !f.macSent && f.theirKey.Some? && f.isMacVerified {
      } else {
      }
    } else if f.state == PromptStartVerification {
    }
  }

  lemma StanceAfter(f: Flow, e: Event)
    ensures Stance(f, Step(f, e).flow)
  {
    hide Next, CancelWith, HandleStart, HandleAccept, HandleKey, HandleMac, HandleReady, PartyLess;
    match e
    case DoNext => NextStance(f);
    case DoCancel => CancelStance(f, ByUser);
    case DoTimeout => CancelStance(f, TimedOut);
    case DoReceive(address, m) =>
      match m
      case Start(start) => StartStance(f, start);
      case Accept(supported, commitment, emoji) => AcceptStance(f, supported, commitment, emoji);
      case Key(key) => KeyStance(f, key);
      case Mac(macs, keys) => MacStance(f, macs, keys);
      case Ready(device) => ReadyStance(f, address, device);
      case _ =>
  }

  lemma StaysOver(f: Flow, e: Event)
    requires Over(f)
    ensures Over(Step(f, e).flow)
  {
    FailedLeftIff(f, e);
    StanceAfter(f, e);
    CanBeSmallerIff(f);
    CanBeSmallerIff(Step(f, e).flow);
    hide Step, PartyLess;
  }

  /** A way to revive a failed flow that is not over. */
  lemma Revival(f: Flow) returns (events: seq<Event>)
    requires f.state == Failed && !Over(f)
    ensures Run(f, events).state != Failed
  {
    var start := DoReceive(ThisTxn, Start(StartMsg("", true, true, false, true)));
    if f.sender && !f.startSent {
      events := [DoReceive(ThisTxn, Ready(""))];
      RunOne(f, events[0]);
    } else if !f.sender {
      events := [start];
      RunOne(f, start);
    } else {
      var rename := DoReceive(ThisEvent, Ready(""));
      events := [rename, start];
      RunOne(f, rename);
      assert events[..1] == [rename];
    }
  }

  lemma RunOne(f: Flow, e: Event)
    ensures Run(f, [e]) == Step(f, e).flow
  {
    assert [e][..0] == [];
  }

  lemma {:induction false} OverForever(f: Flow, events: seq<Event>)
    requires Over(f)
    ensures Over(Run(f, events))
  {
    hide Over;
    if events != [] {
      OverForever(f, events[..|events| - 1]);
      StaysOver(Run(f, events[..|events| - 1]), events[|events| - 1]);
    }
  }

  /** A failed flow stays failed whatever happens exactly when it is over. */
  lemma FailedForGoodIff(f: Flow)
    requires f.state == Failed
    ensures Over(f) <==> forall events :: Run(f, events).state == Failed
  {
    if Over(f) {
      forall events
        ensures Run(f, events).state == Failed
      {
        OverForever(f, events);
      }
    } else {
      var events := Revival(f);
    }
  }

  /** So every flow that is cancelled before it succeeded and before it sent a start or an accept can
      come back. */
  lemma CancelledComesBack(f: Flow) returns (events: seq<Event>)
    requires f.state != Success && !f.startSent && !f.acceptSent
    ensures Step(f, DoCancel).flow.state == Failed && Run(Step(f, DoCancel).flow, events).state != Failed
  {
    if f.state == Failed {
      events := Revival(f);
    } else {
      events := Revival(f.(error := ByUser, state := Failed));
    }
    hide Run;
  }

  // ----- Comparing -----

  /** A step that does not begin a comparison. */
  predicate NoComparison(f: Flow, f': Flow) {
    Comparing(f') ==> Comparing(f)
  }

  lemma CancelCompares(f: Flow, code: Error)
    ensures NoComparison(f, CancelWith(f, code).flow)
  {
    if Final(f) {
    } else {
    }
  }

  lemma NextCompares(f: Flow)
    ensures NoComparison(f, Next(f).flow)
  {
    hide MacFor;
    if Comparing(f) {
    } else if f.state != PromptStartVerification {
    } else if f.sender {
    } else if f.canonical.None? {
    } else if f.acceptSent {
    } else {
    }
  }

  lemma StartCompares(f: Flow, m: StartMsg)
    ensures NoComparison(f, HandleStart(f, m).flow)
  {
    TakenFlags(f, m);
    CancelCompares(f, UnknownMethod);
    CancelCompares(Taken(f, m), UnknownMethod);
    hide PartyLess, Taken, CancelWith;
  }

  lemma ReadyCompares(f: Flow, address: Address, device: string)
    ensures NoComparison(f, HandleReady(f, address, device).flow)
  {
    if !f.sender {
    } else if Ours(address) {
      if f.startSent {
      } else {
      }
    } else {
    }
  }

  lemma AcceptCompares(f: Flow, supported: bool, commitment: Commitment, emoji: bool)
    ensures NoComparison(f, HandleAccept(f, supported, commitment, emoji).flow)
  {
    CancelCompares(f, UnknownMethod);
    hide CancelWith;
    if f.keySent {
    } else {
    }
  }

  lemma MacCompares(f: Flow, macs: map<KeyId, MacValue>, keys: MacValue)
    ensures NoComparison(f, HandleMac(f, macs, keys).flow)
  {
    hide MacMatches, CancelWith;
    CancelCompares(f, KeyMismatch);
    if f.state == WaitingForMac {
    } else {
    }
  }

  lemma KeyCompares(f: Flow, key: PublicKey)
    requires !Comparing(f)
    ensures var f' := HandleKey(f, key).flow;
            && (Comparing(f') <==> !Untimely(f) && (f.sender ==> f.commitment == Hash(key, f.canonical)))
            && (Comparing(f') ==>
                  && f'.theirKey == Some(key)
                  && f'.state == (if f.shownAs == Emoji then CompareEmoji else CompareNumber)
                  && f'.sas == Some(ShortString(f'.Secret(), InfoFor(f, key), f.shownAs)))
  {
    hide InfoFor;
    CancelCompares(f, OutOfOrder);
    CancelCompares(f.(theirKey := Some(key)), MismatchedCommitment);
    hide CancelWith;
    if f.sender {
    } else if f.keySent {
    } else {
    }
  }

  /** A comparison begins exactly when a key arrives in time that, for the sender, is the one committed to
      together with its own start; what is compared is derived from that key, and shown in the method agreed on. */
  lemma CompareEnteredIff(f: Flow, e: Event)
    requires !Comparing(f)
    ensures var f' := Step(f, e).flow;
            && (Comparing(f') <==>
                  && e.DoReceive? && e.message.Key? && NotElsewhere(e.address) && !Untimely(f)
                  && (f.sender ==> f.commitment == Hash(e.message.key, f.canonical)))
            && (Comparing(f') ==>
                  && f'.theirKey == Some(e.message.key)
                  && f'.state == (if f.shownAs == Emoji then CompareEmoji else CompareNumber)
                  && f'.sas == Some(ShortString(f'.Secret(), InfoFor(f, e.message.key), f.shownAs)))
  {
    hide Next, CancelWith, HandleStart, HandleAccept, HandleKey, HandleMac, HandleReady, InfoFor, Untimely;
    match e
    case DoNext => NextCompares(f);
    case DoCancel => CancelCompares(f, ByUser);
    case DoTimeout => CancelCompares(f, TimedOut);
    case DoReceive(address, m) =>
      match m
      case Start(start) => StartCompares(f, start);
      case Accept(supported, commitment, emoji) => AcceptCompares(f, supported, commitment, emoji);
      case Key(key) => KeyCompares(f, key);
      case Mac(macs, keys) => MacCompares(f, macs, keys);
      case Ready(device) => ReadyCompares(f, address, device);
      case _ =>
  }

  // ----- Each message at most once -----

  datatype Kind = StartKind | AcceptKind | KeyKind | MacKind

  predicate IsKind(m: Message, k: Kind) {
    match k
    case StartKind => m.Start?
    case AcceptKind => m.Accept?
    case KeyKind => m.Key?
    case MacKind => m.Mac?
  }

  function CountOf(sent: seq<Message>, k: Kind): nat {
    if sent == [] then 0
    else CountOf(sent[..|sent| - 1], k) + if IsKind(sent[|sent| - 1], k) then 1 else 0
  }

  lemma {:induction false} CountAdds(a: seq<Message>, b: seq<Message>, k: Kind)
    ensures CountOf(a + b, k) == CountOf(a, k) + CountOf(b, k)
  {
    if b == [] {
      assert a + b == a;
    } else {
      CountAdds(a, b[..|b| - 1], k);
      assert (a + b)[..|a + b| - 1] == a + b[..|b| - 1];
    }
  }

  lemma {:induction false} CountMember(sent: seq<Message>, k: Kind, n: nat)
    requires n < |sent| && IsKind(sent[n], k)
    ensures CountOf(sent, k) >= 1
  {
    if n < |sent| - 1 {
      CountMember(sent[..|sent| - 1], k, n);
    }
  }

  /** Counted at most once means at most one place. */
  lemma {:induction false} CountOnce(sent: seq<Message>, k: Kind, n: nat, m: nat)
    requires CountOf(sent, k) <= 1 && n < |sent| && m < |sent| && IsKind(sent[n], k) && IsKind(sent[m], k)
    ensures n == m
  {
    var front := sent[..|sent| - 1];
    if n < |front| && m < |front| {
      CountOnce(front, k, n, m);
    } else if n < |front| {
      CountMember(front, k, n);
    } else if m < |front| {
      CountMember(front, k, m);
    }
  }

  predicate Flagged(f: Flow, k: Kind) {
    match k
    case StartKind => f.startSent
    case AcceptKind => f.acceptSent
    case KeyKind => f.keySent
    case MacKind => f.macSent
  }

  /** While comparing, the other key is known. */
  predicate Keyed(f: Flow) {
    Comparing(f) ==> f.theirKey.Some?
  }

  /** The sent flags say exactly what has been sent, each kind once. */
  predicate Tallied(f: Flow, sent: seq<Message>) {
    && Keyed(f)
    && forall k :: CountOf(sent, k) == if Flagged(f, k) then 1 else 0
  }

  /** What is sent is what is flagged. */
  predicate Tells(f: Flow, o: Out) {
    && Keyed(o.flow)
    && forall k :: CountOf(o.sent, k) + (if Flagged(f, k) then 1 else 0) == if Flagged(o.flow, k) then 1 else 0
  }

  lemma CountOne(m: Message, k: Kind)
    ensures CountOf([m], k) == if IsKind(m, k) then 1 else 0
    ensures CountOf([], k) == 0
  {
    assert [m][..0] == [];
  }

  predicate SameFlags(f: Flow, g: Flow) {
    f.startSent == g.startSent && f.acceptSent == g.acceptSent && f.keySent == g.keySent && f.macSent == g.macSent
  }

  lemma SilenceTells(f: Flow, g: Flow)
    requires SameFlags(f, g) && Keyed(g)
    ensures Tells(f, Out(g, []))
  {
  }

  lemma OneTells(f: Flow, g: Flow, m: Message)
    requires Keyed(g)
    requires forall k :: Flagged(g, k) <==> Flagged(f, k) || IsKind(m, k)
    requires forall k :: IsKind(m, k) ==> !Flagged(f, k)
    ensures Tells(f, Out(g, [m]))
  {
    forall k
      ensures CountOf([m], k) == if IsKind(m, k) then 1 else 0
    {
      CountOne(m, k);
    }
  }

  lemma CancelTells(f: Flow, code: Error)
    requires Keyed(f)
    ensures Tells(f, CancelWith(f, code))
  {
    if Final(f) {
      SilenceTells(f, f);
    } else {
      OneTells(f, f.(error := code, state := Failed), Cancel(code));
    }
    hide Tells;
  }

  lemma SendKeyTells(f: Flow)
    requires Keyed(f)
    ensures Tells(f, SendKey(f))
  {
    if f.keySent {
      SilenceTells(f, f);
    } else {
      OneTells(f, f.(keySent := true), Key(f.self.publicKey));
    }
    hide Tells;
  }

  lemma SendAcceptTells(f: Flow)
    requires Keyed(f)
    ensures Tells(f, SendAccept(f))
  {
    if f.acceptSent {
      SilenceTells(f, f);
    } else {
      OneTells(f, f.(acceptSent := true, state := WaitingForKeys),
               Accept(true, Hash(f.self.publicKey, f.canonical), f.shownAs == Emoji));
    }
    hide Tells;
  }

  lemma SendStartTells(f: Flow)
    requires Keyed(f)
    ensures Tells(f, SendStart(f))
  {
    if f.startSent {
      SilenceTells(f, f);
    } else {
      OneTells(f, f.(startSent := true, canonical := Some(OwnStart(f)),
            state := WaitingForOtherToAccept), Start(OwnStart(f)));
    }
    hide Tells;
  }

  lemma FinishTells(f: Flow)
    requires Keyed(f)
    ensures Tells(f, AcceptDevice(f))
  {
    if !f.isMacVerified {
      SilenceTells(f, f.(state := WaitingForMac));
    } else if f.state == WaitingForMac {
      OneTells(f, f.(state := Success), Done);
    } else {
      SilenceTells(f, f);
    }
    hide Tells;
  }

  lemma SendMacTells(f: Flow)
    requires f.theirKey.Some?
    ensures Tells(f, SendMac(f))
  {
    if f.macSent {
      SilenceTells(f, f);
    } else {
      var mac := MacFor(f.Secret(), f.Me(), f.Peer(), f.self.txn, f.self.ourKeys);
      var g := f.(macSent := true, state := WaitingForMac);
      OneTells(f, g, mac);
      FinishTells(g);
      TellsBoth(f, Out(g, [mac]), AcceptDevice(g));
      hide MacFor;
    }
    hide Tells;
  }

  lemma TellsBoth(f: Flow, o: Out, p: Out)
    requires Tells(f, o) && Tells(o.flow, p)
    ensures Tells(f, Out(p.flow, o.sent + p.sent))
  {
    forall k
      ensures CountOf(o.sent + p.sent, k) == CountOf(o.sent, k) + CountOf(p.sent, k)
    {
      CountAdds(o.sent, p.sent, k);
    }
  }

  lemma FlagsTell(f: Flow, g: Flow, o: Out)
    requires SameFlags(f, g) && Tells(g, o)
    ensures Tells(f, o)
  {
    assert forall k :: Flagged(f, k) == Flagged(g, k);
  }

  lemma FlowTells(f: Flow, o: Out, g: Flow)
    requires Tells(f, o) && SameFlags(o.flow, g) && Keyed(g)
    ensures Tells(f, Out(g, o.sent))
  {
    assert forall k :: Flagged(o.flow, k) == Flagged(g, k);
  }

  lemma NextTells(f: Flow)
    requires Keyed(f)
    ensures Tells(f, Next(f))
  {
    hide Tells, SendMac, SendAccept;
    if Comparing(f) {
      SendMacTells(f);
    } else if f.state != PromptStartVerification {
      SilenceTells(f, f);
    } else if f.sender {
      OneTells(f, f.(state := WaitingForOtherToAccept), Request);
    } else if f.canonical.None? {
      OneTells(f, f.(state := WaitingForKeys), Ready(f.Me().device));
    } else {
      SendAcceptTells(f);
    }
  }

  lemma TakenSame(f: Flow, m: StartMsg)
    ensures SameFlags(f, Taken(f, m)) && (Keyed(f) ==> Keyed(Taken(f, m)))
  {
    hide PartyLess;
  }

  lemma StartTells(f: Flow, m: StartMsg)
    requires Keyed(f)
    ensures Tells(f, HandleStart(f, m))
  {
    hide Tells, CancelWith, SendAccept, Taken, Keyed, SameFlags;
    var g := Taken(f, m);
    TakenSame(f, m);
    if !Supports(m) {
      CancelTells(f, UnknownMethod);
    } else if f.sender && !m.sasV1 {
      CancelTells(g, UnknownMethod);
      FlagsTell(f, g, HandleStart(f, m));
    } else if g.state != PromptStartVerification && !g.sender {
      SendAcceptTells(g);
      FlagsTell(f, g, HandleStart(f, m));
    } else {
      SilenceTells(f, g);
    }
  }

  lemma AcceptTells(f: Flow, supported: bool, commitment: Commitment, emoji: bool)
    requires Keyed(f)
    ensures Tells(f, HandleAccept(f, supported, commitment, emoji))
  {
    hide Tells, CancelWith, SendKey;
    if supported {
      var g := f.(commitment := commitment, shownAs := if emoji then Emoji else Decimal);
      SendKeyTells(g);
      FlagsTell(f, g, SendKey(g));
    } else {
      CancelTells(f, UnknownMethod);
    }
  }

  lemma KeyTells(f: Flow, key: PublicKey)
    requires Keyed(f)
    ensures Tells(f, HandleKey(f, key))
  {
    hide Tells, CancelWith, InfoFor;
    var g := f.(theirKey := Some(key));
    if f.state != WaitingForKeys && !(f.sender && f.state == WaitingForOtherToAccept) {
      CancelTells(f, OutOfOrder);
    } else if f.sender && f.commitment != Hash(key, f.canonical) {
      CancelTells(g, MismatchedCommitment);
      FlagsTell(f, g, HandleKey(f, key));
    } else {
      SendKeyTells(g);
      SilenceTells(f, g);
      FlagsTell(f, g, SendKey(g));
      FlowTells(f, if f.sender then Out(g, []) else SendKey(g), HandleKey(f, key).flow);
    }
  }

  lemma MacTells(f: Flow, macs: map<KeyId, MacValue>, keys: MacValue)
    requires Keyed(f)
    ensures Tells(f, HandleMac(f, macs, keys))
  {
    hide Tells, CancelWith, AcceptDevice, MacMatches;
    if f.theirKey.None? {
      SilenceTells(f, f);
    } else if MacMatches(f, macs, keys) {
      var g := f.(isMacVerified := true);
      FinishTells(g);
      FlagsTell(f, g, AcceptDevice(g));
    } else {
      CancelTells(f, KeyMismatch);
    }
  }

  lemma ReadyTells(f: Flow, address: Address, device: string)
    requires Keyed(f)
    ensures Tells(f, HandleReady(f, address, device))
  {
    hide Tells, SendStart;
    if !f.sender {
      SilenceTells(f, HandleReady(f, address, device).flow);
    } else if address == ThisTxn {
      var g := if f.deviceId == "" && |f.deviceIds| > 1 && device in f.deviceIds
               then f.(deviceId := device, deviceIds := [device]) else f;
      SendStartTells(g);
      FlagsTell(f, g, SendStart(g));
    } else if address == ThisEvent {
      var g := f.(deviceId := device);
      SendStartTells(g);
      FlagsTell(f, g, SendStart(g));
    } else {
      SilenceTells(f, f);
    }
  }

  lemma ReceiveTells(f: Flow, address: Address, m: Message)
    requires Keyed(f)
    ensures Tells(f, Receive(f, address, m))
  {
    hide Tells, Keyed, HandleStart, HandleAccept, HandleKey, HandleMac, HandleReady;
    SilenceTells(f, f);
    match m
    case Start(start) => StartTells(f, start);
    case Accept(supported, commitment, emoji) => AcceptTells(f, supported, commitment, emoji);
    case Key(key) => KeyTells(f, key);
    case Mac(macs, keys) => MacTells(f, macs, keys);
    case Ready(device) => ReadyTells(f, address, device);
    case Cancel(_) => SilentFailure(f);
    case _ =>
  }

  lemma SilentFailure(f: Flow)
    ensures Tells(f, Out(f.(error := ByUser, state := Failed), []))
  {
  }

  lemma StepTells(f: Flow, e: Event)
    requires Keyed(f)
    ensures Tells(f, Step(f, e))
  {
    hide Tells, Keyed, Next, Receive, CancelWith;
    match e
    case DoNext => NextTells(f);
    case DoCancel => CancelTells(f, ByUser);
    case DoTimeout => CancelTells(f, TimedOut);
    case DoReceive(address, m) => ReceiveTells(f, address, m);
  }

  /** Everything sent in answer to the events, in order. */
  function Sent(f: Flow, events: seq<Event>): seq<Message> {
    if events == [] then [] else
    var front := events[..|events| - 1];
    Sent(f, front) + Step(Run(f, front), events[|events| - 1]).sent
  }

  /** One step keeps the tally. */
  lemma StepTallies(f: Flow, sent: seq<Message>, e: Event)
    requires Tallied(f, sent)
    ensures Tallied(Step(f, e).flow, sent + Step(f, e).sent)
  {
    StepTells(f, e);
    hide Step, Keyed;
    var o := Step(f, e);
    forall k
      ensures CountOf(sent + o.sent, k) == CountOf(sent, k) + CountOf(o.sent, k)
    {
      CountAdds(sent, o.sent, k);
    }
  }

  lemma {:induction false} RunTallies(f: Flow, sent: seq<Message>, events: seq<Event>)
    requires Tallied(f, sent)
    ensures Tallied(Run(f, events), sent + Sent(f, events))
  {
    hide Tallied, Step;
    if events == [] {
      assert sent + [] == sent;
    } else {
      var front, e := events[..|events| - 1], events[|events| - 1];
      RunTallies(f, sent, front);
      StepTallies(Run(f, front), sent + Sent(f, front), e);
      assert sent + Sent(f, events) == sent + Sent(f, front) + Step(Run(f, front), e).sent;
    }
  }

  /** No kind of message is there twice. */
  ghost predicate AtMostOnce(sent: seq<Message>) {
    forall n, m, k :: 0 <= n < m < |sent| && IsKind(sent[n], k) ==> !IsKind(sent[m], k)
  }

  lemma TalliedOnce(f: Flow, sent: seq<Message>)
    requires Tallied(f, sent)
    ensures AtMostOnce(sent)
  {
    forall n, m, k | 0 <= n < m < |sent| && IsKind(sent[n], k)
      ensures !IsKind(sent[m], k)
    {
      if IsKind(sent[m], k) {
        CountOnce(sent, k, n, m);
      }
    }
  }

  lemma UntouchedTallied(f: Flow)
    requires Untouched(f)
    ensures Tallied(f, [])
  {
  }

  /** Whatever the other side does, a flow sends at most one start, one accept, one key and one MAC
      message, and its flags say which. */
  lemma SentOnce(f: Flow, events: seq<Event>)
    requires Untouched(f)
    ensures Tallied(Run(f, events), Sent(f, events)) && AtMostOnce(Sent(f, events))
  {
    UntouchedTallied(f);
    RunTallies(f, [], events);
    assert [] + Sent(f, events) == Sent(f, events);
    TalliedOnce(Run(f, events), Sent(f, events));
  }
}
