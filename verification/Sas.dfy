/** One side of an emoji or number verification (`src/encryption/DeviceVerificationFlow.cpp`, `.h`).

    Hashes, MACs and the derived short string are terms: equal exactly when computed from equal
    parts. A shared secret is the set of the two public keys. Every slot is one step, which yields the
    new flow and the messages it sends. A slot that computes a MAC before the other key is known
    throws in the crypto library; here it stops where it throws.
*/
module Sas {
  import opened Wrappers
  import opened Order

  type KeyId = string
  type PublicKey = string

  datatype State =
    | PromptStartVerification | WaitingForOtherToAccept | WaitingForKeys
    | CompareEmoji | CompareNumber | WaitingForMac | Success | Failed

  datatype Error = UnknownMethod | MismatchedCommitment | MismatchedSAS | KeyMismatch | TimedOut | ByUser | OutOfOrder

  datatype Method = Emoji | Decimal
  datatype FlowType = ToDevice | RoomMsg

  datatype Party = Party(user: string, device: string)

  /** A start message: who sent it, whether its three algorithm lists contain the supported ones, and
      which short strings it offers. Its canonical JSON is the message itself. */
  datatype StartMsg = StartMsg(fromDevice: string, supported: bool, emoji: bool, decimal: bool, sasV1: bool)

  datatype Commitment = NoCommitment | Hash(key: PublicKey, start: Option<StartMsg>)

  datatype Info = Info(starter: Party, starterKey: PublicKey, accepter: Party, accepterKey: PublicKey, txn: string)

  datatype ShortString = ShortString(secret: set<PublicKey>, info: Info, shownAs: Method)

  datatype MacItem = KeyOf(id: KeyId, key: string) | KeyIds(ids: set<KeyId>)
  datatype MacValue = MacValue(secret: set<PublicKey>, from: Party, to: Party, txn: string, item: MacItem)

  datatype Message =
    | Request
    | Ready(fromDevice: string)
    | Start(start: StartMsg)
    | Accept(supported: bool, commitment: Commitment, emoji: bool)
    | Key(key: PublicKey)
    | Mac(macs: map<KeyId, MacValue>, keys: MacValue)
    | Done
    | Cancel(code: Error)

  /** How a message names its flow: by transaction id, by the event it refers to, or not at all. */
  datatype Address = ThisTxn | OtherTxn | ThisEvent | OtherEvent | Nowhere

  /** What a flow is given and never changes. */
  datatype Self = Self(
    me: Party, peerUser: string, flowType: FlowType, txn: string, publicKey: PublicKey,
    ourKeys: map<KeyId, string>, theirKeys: map<KeyId, string>)

  datatype Flow = Flow(
    self: Self, deviceId: string, deviceIds: seq<string>,
    sender: bool, state: State, error: Error, shownAs: Method,
    commitment: Commitment, canonical: Option<StartMsg>, theirKey: Option<PublicKey>, sas: Option<ShortString>,
    isMacVerified: bool, keySent: bool, macSent: bool, acceptSent: bool, startSent: bool)
  {
    function Me(): Party {
      self.me
    }

    function Peer(): Party {
      Party(self.peerUser, deviceId)
    }

    function Secret(): set<PublicKey> {
      {self.publicKey} + if theirKey.Some? then {theirKey.value} else {}
    }
  }

  datatype Out = Out(flow: Flow, sent: seq<Message>)

  predicate Comparing(f: Flow) {
    f.state == CompareEmoji || f.state == CompareNumber
  }

  // ----- Senders -----

  function CancelWith(f: Flow, code: Error): Out {
    if f.state == Success || f.state == Failed then Out(f, [])
    else Out(f.(error := code, state := Failed), [Cancel(code)])
  }

  function SendKey(f: Flow): Out {
    if f.keySent then Out(f, []) else Out(f.(keySent := true), [Key(f.self.publicKey)])
  }

  function SendAccept(f: Flow): Out {
    if f.acceptSent then Out(f, []) else
    Out(f.(acceptSent := true, state := WaitingForKeys),
        [Accept(true, Hash(f.self.publicKey, f.canonical), f.shownAs == Emoji)])
  }

  function OwnStart(f: Flow): StartMsg {
    StartMsg(f.Me().device, true, true, true, true)
  }

  function SendStart(f: Flow): Out {
    if f.startSent then Out(f, []) else
    Out(f.(startSent := true, canonical := Some(OwnStart(f)), state := WaitingForOtherToAccept), [Start(OwnStart(f))])
  }

  function MacFor(secret: set<PublicKey>, from: Party, to: Party, txn: string, keys: map<KeyId, string>): Message {
    Mac(map id | id in keys :: MacValue(secret, from, to, txn, KeyOf(id, keys[id])),
        MacValue(secret, from, to, txn, KeyIds(keys.Keys)))
  }

  function AcceptDevice(f: Flow): Out {
    if !f.isMacVerified then Out(f.(state := WaitingForMac), [])
    else if f.state == WaitingForMac then Out(f.(state := Success), [Done])
    else Out(f, [])
  }

  function SendMac(f: Flow): Out {
    if f.macSent then Out(f, [])
    else if f.theirKey.None? then Out(f.(macSent := true), [])
    else
      var o := AcceptDevice(f.(macSent := true, state := WaitingForMac));
      o.(sent := [MacFor(f.Secret(), f.Me(), f.Peer(), f.self.txn, f.self.ourKeys)] + o.sent)
  }

  // ----- Slots -----

  function Next(f: Flow): Out {
    if Comparing(f) then SendMac(f)
    else if f.state != PromptStartVerification then Out(f, [])
    else if f.sender then Out(f.(state := WaitingForOtherToAccept), [Request])
    else if f.canonical.None? then Out(f.(state := WaitingForKeys), [Ready(f.Me().device)])
    else SendAccept(f)
  }

  predicate PartyLess(p: Party, q: Party) {
    Less(p.user, q.user) || (p.user == q.user && Less(p.device, q.device))
  }

  predicate Supports(m: StartMsg) {
    m.supported && (m.emoji || m.decimal)
  }

  /** The flow once it has taken in a start it supports; of two starts the smaller party's counts. */
  function Taken(f: Flow, m: StartMsg): Flow {
    var f1 := f.(shownAs := if m.emoji then Emoji else Decimal);
    if !f1.sender || PartyLess(f1.Peer(), f1.Me()) then f1.(canonical := Some(m), sender := false) else f1
  }

  function HandleStart(f: Flow, m: StartMsg): Out {
    if !Supports(m) then CancelWith(f, UnknownMethod)
    else if f.sender && !m.sasV1 then CancelWith(Taken(f, m), UnknownMethod)
    else if Taken(f, m).state != PromptStartVerification && !Taken(f, m).sender then SendAccept(Taken(f, m))
    else Out(Taken(f, m), [])
  }

  function HandleAccept(f: Flow, supported: bool, commitment: Commitment, emoji: bool): Out {
    if supported then SendKey(f.(commitment := commitment, shownAs := if emoji then Emoji else Decimal))
    else CancelWith(f, UnknownMethod)
  }

  function InfoFor(f: Flow, key: PublicKey): Info {
    if f.sender then Info(f.Me(), f.self.publicKey, f.Peer(), key, f.self.txn)
    else Info(f.Peer(), key, f.Me(), f.self.publicKey, f.self.txn)
  }

  predicate Untimely(f: Flow) {
    f.state != WaitingForKeys && !(f.sender && f.state == WaitingForOtherToAccept)
  }

  function HandleKey(f: Flow, key: PublicKey): Out {
    if Untimely(f) then CancelWith(f, OutOfOrder) else TakeKey(f, key)
  }

  function TakeKey(f: Flow, key: PublicKey): Out {
    var f1 := f.(theirKey := Some(key));
    if f1.sender && f1.commitment != Hash(key, f1.canonical) then CancelWith(f1, MismatchedCommitment) else
    var o := if f1.sender then Out(f1, []) else SendKey(f1);
    var compare := if f.shownAs == Emoji then CompareEmoji else CompareNumber;
    o.(flow := o.flow.(sas := Some(ShortString(f1.Secret(), InfoFor(f, key), f.shownAs)), state := compare))
  }

  /** The keys a MAC message speaks for: those it has a MAC for and we know. */
  function Vouched(f: Flow, macs: map<KeyId, MacValue>): set<KeyId> {
    macs.Keys * f.self.theirKeys.Keys
  }

  /** The received MACs of the keys we know for the other side are right, and so is the one over the
      ids of those keys. */
  predicate MacMatches(f: Flow, macs: map<KeyId, MacValue>, keys: MacValue) {
    var known := Vouched(f, macs);
    && (forall id :: id in known ==>
          macs[id] == MacValue(f.Secret(), f.Peer(), f.Me(), f.self.txn, KeyOf(id, f.self.theirKeys[id])))
    && keys == MacValue(f.Secret(), f.Peer(), f.Me(), f.self.txn, KeyIds(known))
  }

  function HandleMac(f: Flow, macs: map<KeyId, MacValue>, keys: MacValue): Out {
    if f.theirKey.None? then Out(f, [])
    else if MacMatches(f, macs, keys) then AcceptDevice(f.(isMacVerified := true))
    else CancelWith(f, KeyMismatch)
  }

  function HandleReady(f: Flow, address: Address, fromDevice: string): Out {
    if !f.sender then
      if fromDevice != f.Me().device then Out(f.(error := ByUser, state := Failed), []) else Out(f, [])
    else match address
      case ThisTxn =>
        SendStart(if f.deviceId == "" && |f.deviceIds| > 1 && fromDevice in f.deviceIds
                  then f.(deviceId := fromDevice, deviceIds := [fromDevice]) else f)
      case ThisEvent => SendStart(f.(deviceId := fromDevice))
      case _ => Out(f, [])
  }

  function Receive(f: Flow, address: Address, m: Message): Out {
    if m.Ready? then HandleReady(f, address, m.fromDevice)
    else if address == OtherTxn || address == OtherEvent then Out(f, [])
    else match m
      case Start(start) => if address == Nowhere then Out(f, []) else HandleStart(f, start)
      case Accept(supported, commitment, emoji) => HandleAccept(f, supported, commitment, emoji)
      case Key(key) => HandleKey(f, key)
      case Mac(macs, keys) => HandleMac(f, macs, keys)
      case Cancel(_) => Out(f.(error := ByUser, state := Failed), [])
      case _ => Out(f, [])
  }

  datatype Event = DoNext | DoCancel | DoTimeout | DoReceive(address: Address, message: Message)

  function Step(f: Flow, e: Event): Out {
    match e
    case DoNext => Next(f)
    case DoCancel => CancelWith(f, ByUser)
    case DoTimeout => CancelWith(f, TimedOut)
    case DoReceive(address, m) => Receive(f, address, m)
  }

  // ----- One flow against an arbitrary peer -----

  predicate Untouched(f: Flow) {
    && f.state == PromptStartVerification && f.theirKey.None? && f.sas.None? && f.canonical.None?
    && f.commitment == NoCommitment && f.shownAs == Emoji && f.error == UnknownMethod
    && !f.isMacVerified && !f.keySent && !f.macSent && !f.acceptSent && !f.startSent
  }

  /** The flow after each event. */
  function Run(f: Flow, events: seq<Event>): Flow {
    if events == [] then f else Step(Run(f, events[..|events| - 1]), events[|events| - 1]).flow
  }
}
