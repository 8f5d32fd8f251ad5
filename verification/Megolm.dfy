/** Sharing of outbound Megolm sessions (`src/encryption/Olm.cpp`, `encrypt_group_message` and
    `handle_key_request_message`), for one room.

    `Encrypt` says what one message does to the stored sessions without mentioning iteration: it
    reuses the session when that is allowed and otherwise starts a new one. The walk over the two
    sorted maps is in `MegolmSender`, where it is proved to do the same.
*/
module Megolm {
  import opened Wrappers
  import opened Order

  type User = string
  type Device = string
  type SessionId = nat

  const TWO64: int := 0x1_0000_0000_0000_0000

  /** The members of the room with the device ids known for them, if any keys are known. */
  type Members = map<User, Option<set<Device>>>

  /** `SharedWithUsers`: who has the session, and from which message index on. */
  type Recorded = map<User, map<Device, nat>>

  datatype Me = Me(user: User, device: Device)
  datatype Settings = Settings(rotationMsgs: nat, rotationMs: nat)

  /** An outbound session is an identity and a ratchet counter. */
  datatype Session = Session(id: SessionId, index: nat)
  datatype SessionData = SessionData(messageIndex: nat, timestamp: nat, currently: Recorded)

  const NO_DATA := SessionData(0, 0, map[])

  /** `created` counts the sessions made so far; it names the next one. */
  datatype Store = Store(outbound: Option<Session>, data: map<SessionId, SessionData>, created: nat)

  const EMPTY_STORE := Store(None, map[], 0)

  /** One encrypted message: the session used, to whom its key was sent and at which ratchet
      position, and the position the message was encrypted at. */
  datatype Call = Call(session: SessionId, shared: set<(User, Device)>, keyIndex: nat, messageIndex: nat)

  datatype Input = Input(members: Members, settings: Settings, now: nat)

  // ----- Who is concerned -----

  predicate Listed(members: Members, u: User, d: Device) {
    u in members && members[u].Some? && d in members[u].value
  }

  predicate IsRecorded(recorded: Recorded, u: User, d: Device) {
    u in recorded && d in recorded[u]
  }

  /** The listed devices of a member, without the sending device. */
  function Eligible(members: Members, me: Me, u: User): set<Device>
    requires u in members
  {
    if members[u].None? then {} else members[u].value - if u == me.user then {me.device} else {}
  }

  function RecordedDevices(recorded: Recorded, u: User): set<Device> {
    if u in recorded then recorded[u].Keys else {}
  }

  /** The eligible devices of a member that do not have the session yet. */
  function Missing(members: Members, recorded: Recorded, me: Me, u: User): set<Device>
    requires u in members
  {
    Eligible(members, me, u) - RecordedDevices(recorded, u)
  }

  /** Every recorded user is still a member and every recorded device is still listed. */
  predicate Covered(members: Members, recorded: Recorded) {
    forall u :: u in recorded ==> u in members && forall d :: d in recorded[u] ==> Listed(members, u, d)
  }

  /** The rotation limits; the age is computed in unsigned 64 bit arithmetic. */
  predicate WithinLimits(data: SessionData, settings: Settings, now: nat) {
    data.messageIndex < settings.rotationMsgs && (now - data.timestamp) % TWO64 < settings.rotationMs
  }

  predicate Reusable(members: Members, recorded: Recorded) {
    (members != map[] || recorded != map[]) && Covered(members, recorded)
  }

  // ----- One message -----

  function Pairs(sharedWith: map<User, set<Device>>): set<(User, Device)> {
    set u, d | u in sharedWith && d in sharedWith[u] :: (u, d)
  }

  /** The recorded set after sending to the devices of `sent` at index `index`. */
  function Record(recorded: Recorded, sent: map<User, set<Device>>, index: nat): Recorded {
    map u | u in recorded.Keys + sent.Keys :: RecordUser(KnownTo(recorded, u), SentTo(sent, u), index)
  }

  function KnownTo(recorded: Recorded, u: User): map<Device, nat> {
    if u in recorded then recorded[u] else map[]
  }

  function SentTo(sent: map<User, set<Device>>, u: User): set<Device> {
    if u in sent then sent[u] else {}
  }

  function RecordUser(known: map<Device, nat>, got: set<Device>, index: nat): map<Device, nat> {
    map d | d in known.Keys + got :: if d in known then known[d] else index
  }

  function AllMissing(members: Members, recorded: Recorded, me: Me): map<User, set<Device>> {
    map u | u in members :: Missing(members, recorded, me, u)
  }

  function DataOf(s: Store, id: SessionId): SessionData {
    if id in s.data then s.data[id] else NO_DATA
  }

  predicate Reuses(s: Store, i: Input) {
    && s.outbound.Some?
    && WithinLimits(DataOf(s, s.outbound.value.id), i.settings, i.now)
    && Reusable(i.members, DataOf(s, s.outbound.value.id).currently)
  }

  function Encrypt(s: Store, me: Me, i: Input): (Store, Call) {
    if Reuses(s, i) then
      var session := s.outbound.value;
      var data := DataOf(s, session.id);
      var sent := AllMissing(i.members, data.currently, me);
      var data' := data.(messageIndex := session.index + 1,
            currently := Record(data.currently, sent, session.index + 1));
      (s.(outbound := Some(session.(index := session.index + 1)), data := s.data[session.id := data']),
       Call(session.id, Pairs(sent), session.index, session.index))
    else
      var id := s.created;
      var sent := AllMissing(i.members, map[], me);
      var data' := SessionData(1, i.now, Record(map[], sent, 0));
      (Store(Some(Session(id, 1)), s.data[id := data'], id + 1), Call(id, Pairs(sent), 0, 0))
  }

  function Run(me: Me, inputs: seq<Input>): (r: (Store, seq<Call>))
    ensures |r.1| == |inputs|
  {
    if inputs == [] then (EMPTY_STORE, []) else
    var (s, calls) := Run(me, inputs[..|inputs| - 1]);
    var (s', call) := Encrypt(s, me, inputs[|inputs| - 1]);
    (s', calls + [call])
  }

  // ----- What a run keeps -----

  /** The recorded users are the members, the recorded devices their eligible devices. */
  ghost predicate MatchesMembers(recorded: Recorded, members: Members, me: Me) {
    recorded.Keys == members.Keys && forall u :: u in members ==> recorded[u].Keys == Eligible(members, me, u)
  }

  lemma RecordMatches(members: Members, recorded: Recorded, me: Me, index: nat)
    requires Covered(members, recorded) && !IsRecorded(recorded, me.user, me.device)
    ensures MatchesMembers(Record(recorded, AllMissing(members, recorded, me), index), members, me)
  {
    var after := Record(recorded, AllMissing(members, recorded, me), index);
    forall u | u in members
      ensures after[u].Keys == Eligible(members, me, u)
    {
      forall d | d in RecordedDevices(recorded, u)
        ensures d in Eligible(members, me, u)
      {
        assert Listed(members, u, d);
      }
    }
  }

  /** A call happened that gave `d` the key of session `id`, no later than index `r`. */
  ghost predicate Given(calls: seq<Call>, id: SessionId, u: User, d: Device, r: nat) {
    exists k :: 0 <= k < |calls| && calls[k].session == id && (u, d) in calls[k].shared && calls[k].keyIndex <= r
  }

  /** The outbound session's data is stored under its id, with its counter. */
  ghost predicate OutboundStored(s: Store) {
    && (s.outbound.Some? ==>
          && s.outbound.value.id in s.data
          && s.data[s.outbound.value.id].messageIndex == s.outbound.value.index)
    && (forall id :: id in s.data ==> id < s.created)
  }

  ghost predicate NeverOwnDevice(s: Store, me: Me) {
    forall id :: id in s.data ==> !IsRecorded(s.data[id].currently, me.user, me.device)
  }

  /** A share is recorded, at no earlier an index than the one shared. */
  ghost predicate ShareRecorded(s: Store, call: Call) {
    && call.session in s.data
    && forall u, d :: (u, d) in call.shared ==>
         && IsRecorded(s.data[call.session].currently, u, d)
         && call.keyIndex <= s.data[call.session].currently[u][d]
  }

  /** A record comes from a share, and lies no later than the current index. */
  ghost predicate RecordGiven(s: Store, calls: seq<Call>, id: SessionId, u: User, d: Device)
    requires id in s.data
  {
    IsRecorded(s.data[id].currently, u, d) ==>
      && Given(calls, id, u, d, s.data[id].currently[u][d])
      && s.data[id].currently[u][d] <= s.data[id].messageIndex
  }

  ghost predicate Kept(s: Store, calls: seq<Call>, me: Me) {
    && OutboundStored(s)
    && NeverOwnDevice(s, me)
    && (forall k :: 0 <= k < |calls| ==> ShareRecorded(s, calls[k]))
    && (forall id, u, d :: id in s.data ==> RecordGiven(s, calls, id, u, d))
  }

  lemma GivenGrows(calls: seq<Call>, call: Call, id: SessionId, u: User, d: Device, r: nat)
    ensures Given(calls, id, u, d, r) ==> Given(calls + [call], id, u, d, r)
    ensures call.session == id && (u, d) in call.shared && call.keyIndex <= r ==> Given(calls + [call], id, u, d, r)
  {
    if Given(calls, id, u, d, r) {
      var k :| 0 <= k < |calls| && calls[k].session == id && (u, d) in calls[k].shared && calls[k].keyIndex <= r;
      assert (calls + [call])[k] == calls[k];
    }
    assert (calls + [call])[|calls|] == call;
  }

  lemma RecordAt(recorded: Recorded, sent: map<User, set<Device>>, index: nat, u: User, d: Device)
    ensures IsRecorded(Record(recorded, sent, index), u, d) <==> IsRecorded(recorded, u, d) || (u, d) in Pairs(sent)
    ensures IsRecorded(recorded, u, d) ==> Record(recorded, sent, index)[u][d] == recorded[u][d]
    ensures (u, d) in Pairs(sent) && !IsRecorded(recorded, u, d) ==> Record(recorded, sent, index)[u][d] == index
  {
  }

  /** Either branch of `Encrypt` in one shape: a record set, grown by what was sent. */
  lemma EncryptShape(s: Store, me: Me, i: Input) returns (before: Recorded, sent: map<User, set<Device>>, index: nat)
    requires OutboundStored(s)
    ensures var (s', call) := Encrypt(s, me, i);
            && OutboundStored(s') && s'.outbound.Some? && s'.outbound.value.id == call.session
            && call.session in s'.data && s'.data == s.data[call.session := s'.data[call.session]]
            && s'.data[call.session].currently == Record(before, sent, index)
            && sent == AllMissing(i.members, before, me) && call.shared == Pairs(sent)
            && call.keyIndex <= index <= s'.data[call.session].messageIndex
            && index == (if call.session in s.data then call.keyIndex + 1 else 0)
            && (call.session in s.data ==>
                  && before == s.data[call.session].currently && Reuses(s, i) && s.outbound.value.id == call.session
                  && s.data[call.session].messageIndex <= s'.data[call.session].messageIndex)
            && (call.session !in s.data ==> before == map[] && call.session == s.created)
  {
    var (s', call) := Encrypt(s, me, i);
    hide Record, AllMissing, Pairs;
    if Reuses(s, i) {
      before, index := DataOf(s, call.session).currently, call.keyIndex + 1;
    } else {
      before, index := map[], 0;
    }
    sent := AllMissing(i.members, before, me);
  }

  lemma NobodyGetsOwn(members: Members, recorded: Recorded, me: Me)
    ensures (me.user, me.device) !in Pairs(AllMissing(members, recorded, me))
    ensures forall u, d :: (u, d) in Pairs(AllMissing(members, recorded, me)) ==>
              Listed(members, u, d) && !IsRecorded(recorded, u, d)
  {
  }

  lemma EncryptKeeps(s: Store, calls: seq<Call>, me: Me, i: Input)
    requires Kept(s, calls, me)
    ensures var (s', call) := Encrypt(s, me, i); Kept(s', calls + [call], me)
  {
    hide Encrypt, Record, Pairs, AllMissing, Reuses;
    var (s', call) := Encrypt(s, me, i);
    var before, sent, index := EncryptShape(s, me, i);
    var id := call.session;
    RecordAt(before, sent, index, me.user, me.device);
    NobodyGetsOwn(i.members, before, me);
    NobodyRecorded();
    forall id', u, d | id' in s'.data
      ensures RecordGiven(s', calls + [call], id', u, d)
    {
      RecordAt(before, sent, index, u, d);
      assert id' in s.data ==> RecordGiven(s, calls, id', u, d);
      if IsRecorded(s'.data[id'].currently, u, d) {
        GivenGrows(calls, call, id', u, d, s'.data[id'].currently[u][d]);
      }
    }
    forall k | 0 <= k < |calls + [call]|
      ensures ShareRecorded(s', (calls + [call])[k])
    {
      var c := (calls + [call])[k];
      assert k < |calls| ==> c == calls[k];
      forall u, d | (u, d) in c.shared
        ensures IsRecorded(s'.data[c.session].currently, u, d) && c.keyIndex <= s'.data[c.session].currently[u][d]
      {
        RecordAt(before, sent, index, u, d);
      }
    }
  }

  lemma NobodyRecorded()
    ensures forall u, d :: !IsRecorded(map[], u, d)
  {
  }

  lemma {:induction false} RunKeeps(me: Me, inputs: seq<Input>)
    ensures var (s, calls) := Run(me, inputs); Kept(s, calls, me) && |calls| == |inputs|
  {
    if inputs != [] {
      var front := inputs[..|inputs| - 1];
      RunKeeps(me, front);
      EncryptKeeps(Run(me, front).0, Run(me, front).1, me, inputs[|inputs| - 1]);
    }
  }

  lemma {:induction false} RunPrefix(me: Me, inputs: seq<Input>, n: nat)
    requires n <= |inputs|
    ensures Run(me, inputs[..n]).1 <= Run(me, inputs).1
    ensures |Run(me, inputs).1| == |inputs|
  {
    RunKeeps(me, inputs);
    if n < |inputs| {
      var front := inputs[..|inputs| - 1];
      RunPrefix(me, front, n);
      assert front[..n] == inputs[..n];
      assert Run(me, front).1 <= Run(me, inputs).1;
    } else {
      assert inputs[..n] == inputs;
    }
  }

  /** The state before message `j`, and the messages up to it. */
  lemma AtCall(me: Me, inputs: seq<Input>, j: nat) returns (s: Store, calls: seq<Call>)
    requires j < |inputs|
    ensures (s, calls) == Run(me, inputs[..j]) && Kept(s, calls, me) && |calls| == j
    ensures Run(me, inputs).1[..j + 1] == calls + [Encrypt(s, me, inputs[j]).1]
  {
    hide Encrypt, Kept;
    var front, upTo := inputs[..j], inputs[..j + 1];
    assert upTo[..j] == front && upTo[j] == inputs[j];
    RunPrefix(me, inputs, j + 1);
    RunKeeps(me, front);
    s, calls := Run(me, front).0, Run(me, front).1;
    assert Run(me, upTo).1 == calls + [Encrypt(s, me, inputs[j]).1];
  }

  // ----- The main results -----

  lemma LastCallCovers(s: Store, calls: seq<Call>, me: Me, i: Input, k: nat, u: User, d: Device)
    requires Kept(s, calls, me)
    requires var call := Encrypt(s, me, i).1;
             k <= |calls| && (calls + [call])[k].session == call.session && (u, d) in (calls + [call])[k].shared
    ensures Listed(i.members, u, d)
  {
    hide Encrypt, Record, Pairs, AllMissing;
    var before, sent, index := EncryptShape(s, me, i);
    NobodyGetsOwn(i.members, before, me);
    if k < |calls| {
      assert ShareRecorded(s, calls[k]);
      assert Reusable(i.members, before);
    }
  }

  /** Whoever was sent the key of a session is still a listed device of a current member whenever a
      later message is encrypted under that session, whatever happened to members and devices. */
  lemma SharedStaysListed(me: Me, inputs: seq<Input>, k: nat, j: nat, u: User, d: Device)
    requires var calls := Run(me, inputs).1;
             k <= j < |inputs| && calls[k].session == calls[j].session && (u, d) in calls[k].shared
    ensures Listed(inputs[j].members, u, d)
  {
    hide Run, Encrypt;
    var s, calls := AtCall(me, inputs, j);
    var upTo := Run(me, inputs).1[..j + 1];
    assert upTo[k] == Run(me, inputs).1[k] && upTo[j] == Run(me, inputs).1[j];
    LastCallCovers(s, calls, me, inputs[j], k, u, d);
  }

  /** After every message the recorded set is exactly the eligible devices of the current members. */
  lemma RecordedIsEligible(me: Me, inputs: seq<Input>)
    requires inputs != []
    ensures var s := Run(me, inputs).0;
            s.outbound.Some? && s.outbound.value.id in s.data
            && MatchesMembers(s.data[s.outbound.value.id].currently, inputs[|inputs| - 1].members, me)
  {
    hide Encrypt, Record, AllMissing, MatchesMembers;
    var front, i := inputs[..|inputs| - 1], inputs[|inputs| - 1];
    RunKeeps(me, front);
    var before, sent, index := EncryptShape(Run(me, front).0, me, i);
    NobodyRecorded();
    RecordMatches(i.members, before, me, index);
  }

  /** How many messages were encrypted under a session. */
  function Count(calls: seq<Call>, id: SessionId): nat {
    if calls == [] then 0 else Count(calls[..|calls| - 1], id) + if calls[|calls| - 1].session == id then 1 else 0
  }

  lemma {:induction false} CountUnused(calls: seq<Call>, id: SessionId)
    requires forall k :: 0 <= k < |calls| ==> calls[k].session != id
    ensures Count(calls, id) == 0
  {
    if calls != [] {
      CountUnused(calls[..|calls| - 1], id);
    }
  }

  function Max(a: nat, b: nat): nat {
    if a < b then b else a
  }

  /** A message either advances a session that is below its limit, or is the first of a new one. */
  lemma CounterMoves(s: Store, me: Me, i: Input)
    requires OutboundStored(s)
    ensures var (s', call) := Encrypt(s, me, i);
            && s'.outbound.Some? && s'.outbound.value.id == call.session < s'.created && s.created <= s'.created
            && if call.session == s.created then s'.outbound.value.index == 1
               else && s.outbound.Some? && s.outbound.value.id == call.session && call.session < s.created
                    && s.outbound.value.index < i.settings.rotationMsgs
                    && s'.outbound.value.index == s.outbound.value.index + 1
  {
    hide Record, AllMissing, Pairs, Covered;
  }

  /** The counter of the outbound session counts its messages, and no session is over the limit. */
  ghost predicate Counted(s: Store, calls: seq<Call>, limit: nat) {
    && (forall id :: Count(calls, id) <= Max(1, limit))
    && (s.outbound.Some? ==> Count(calls, s.outbound.value.id) == s.outbound.value.index)
    && (forall k :: 0 <= k < |calls| ==> calls[k].session < s.created)
  }

  lemma CallCounts(s: Store, calls: seq<Call>, me: Me, i: Input)
    requires OutboundStored(s) && Counted(s, calls, i.settings.rotationMsgs)
    ensures var (s', call) := Encrypt(s, me, i); Counted(s', calls + [call], i.settings.rotationMsgs)
  {
    var (s', call) := Encrypt(s, me, i);
    CounterMoves(s, me, i);
    hide Encrypt;
    assert (calls + [call])[..|calls|] == calls;
    if call.session == s.created {
      CountUnused(calls, call.session);
    }
    assert forall id :: Count(calls + [call], id) == Count(calls, id) + if call.session == id then 1 else 0;
  }

  /** Under a fixed limit no session encrypts more than max(1, limit) messages. */
  lemma {:induction false} RotationBound(me: Me, inputs: seq<Input>, limit: nat)
    requires forall k :: 0 <= k < |inputs| ==> inputs[k].settings.rotationMsgs == limit
    ensures var (s, calls) := Run(me, inputs);
            && (forall id :: Count(calls, id) <= Max(1, limit))
            && Counted(s, calls, limit)
  {
    hide Encrypt;
    if inputs != [] {
      var front := inputs[..|inputs| - 1];
      RotationBound(me, front, limit);
      RunKeeps(me, front);
      hide Counted;
      CallCounts(Run(me, front).0, Run(me, front).1, me, inputs[|inputs| - 1]);
    }
    CountedMeans(Run(me, inputs).0, Run(me, inputs).1, limit);
  }

  lemma CountedMeans(s: Store, calls: seq<Call>, limit: nat)
    requires Counted(s, calls, limit)
    ensures forall id :: Count(calls, id) <= Max(1, limit)
  {
  }

  /** A session is only reused before its period is over, counted in unsigned arithmetic, and before
      it has encrypted the period's number of messages. */
  lemma ReuseIsTimely(me: Me, inputs: seq<Input>, k: nat, j: nat) returns (start: nat)
    requires var calls := Run(me, inputs).1;
             k < j < |inputs| && calls[k].session == calls[j].session
    ensures start <= k && FirstUse(Run(me, inputs).1, Run(me, inputs).1[j].session, start)
    ensures (inputs[j].now - inputs[start].now) % TWO64 < inputs[j].settings.rotationMs
    ensures Run(me, inputs).1[j].messageIndex < inputs[j].settings.rotationMsgs
  {
    hide Run, Encrypt, FirstUse;
    var s, calls := AtCall(me, inputs, j);
    var all := Run(me, inputs).1;
    assert all[..j + 1][k] == all[k] && all[..j + 1][j] == all[j];
    assert ShareRecorded(s, calls[k]);
    start := Started(me, inputs[..j], calls[k].session);
    FirstUseStays(calls, all, calls[k].session, start);
    ReuseLimits(s, me, inputs[j]);
    FirstUseIsFirst(calls, calls[k].session, start, k);
  }

  lemma FirstUseStays(calls: seq<Call>, all: seq<Call>, id: SessionId, start: nat)
    requires FirstUse(calls, id, start) && |calls| < |all| && all[..|calls| + 1][..|calls|] == calls
    ensures FirstUse(all, id, start)
  {
    assert forall n :: 0 <= n < |calls| ==> all[n] == all[..|calls| + 1][..|calls|][n];
  }

  lemma FirstUseIsFirst(calls: seq<Call>, id: SessionId, start: nat, k: nat)
    requires FirstUse(calls, id, start) && k < |calls| && calls[k].session == id
    ensures start <= k
  {
  }

  lemma ReuseLimits(s: Store, me: Me, i: Input)
    requires OutboundStored(s) && Encrypt(s, me, i).1.session in s.data
    ensures var call := Encrypt(s, me, i).1;
            && (i.now - s.data[call.session].timestamp) % TWO64 < i.settings.rotationMs
            && call.messageIndex < i.settings.rotationMsgs
  {
  }

  ghost predicate FirstUse(calls: seq<Call>, id: SessionId, start: nat) {
    && start < |calls| && calls[start].session == id && calls[start].messageIndex == 0
    && forall k :: 0 <= k < start ==> calls[k].session != id
  }

  /** A session keeps the time of the message that created it, which is the first to use it. */
  lemma StampOnce(s: Store, calls: seq<Call>, me: Me, i: Input, id: SessionId)
    requires Kept(s, calls, me) && id in Encrypt(s, me, i).0.data
    ensures id in s.data ==> Encrypt(s, me, i).0.data[id].timestamp == s.data[id].timestamp
    ensures id !in s.data ==>
              var (s', call) := Encrypt(s, me, i);
              && call.session == id && call.messageIndex == 0 && s'.data[id].timestamp == i.now
              && forall k :: 0 <= k < |calls| ==> calls[k].session != id
  {
    hide Record, AllMissing, Pairs, WithinLimits, Reusable, NeverOwnDevice, RecordGiven;
    if id !in s.data {
      forall k | 0 <= k < |calls|
        ensures calls[k].session != id
      {
        assert ShareRecorded(s, calls[k]);
      }
    }
  }

  /** The message that created a session; its time is the session's timestamp. */
  lemma {:induction false} Started(me: Me, inputs: seq<Input>, id: SessionId) returns (start: nat)
    requires id in Run(me, inputs).0.data
    ensures start < |inputs|
    ensures FirstUse(Run(me, inputs).1, id, start)
    ensures Run(me, inputs).0.data[id].timestamp == inputs[start].now
  {
    hide Encrypt, Kept;
    var front, i := inputs[..|inputs| - 1], inputs[|inputs| - 1];
    RunKeeps(me, front);
    var (s, calls) := Run(me, front);
    var call := Encrypt(s, me, i).1;
    StampOnce(s, calls, me, i, id);
    if id in s.data {
      start := Started(me, front, id);
      assert front[start] == inputs[start];
      assert forall k :: 0 <= k < |calls| ==> (calls + [call])[k] == calls[k];
    } else {
      start := |front|;
      assert forall k :: 0 <= k < |calls| ==> (calls + [call])[k] == calls[k];
    }
  }

  // ----- Key requests -----

  datatype Request = Request(megolm: bool, sender: User, device: Device, session: SessionId)

  /** What the other tables say about a request. */
  datatype Context = Context(weMadeIt: bool, inboundKnown: bool, member: bool,
                             verifiedDevices: set<Device>, hasStatus: bool, shareWithTrusted: bool)

  /** `ExportAll` is the index -1: from the first index this client knows. */
  datatype Answer = Ignored | Export(index: nat) | ExportAll

  predicate VerifiedRequester(me: Me, c: Context, r: Request) {
    c.hasStatus && (c.shareWithTrusted || r.sender == me.user) && r.device in c.verifiedDevices
  }

  /** `handle_key_request_message`. */
  method HandleKeyRequest(s: Store, me: Me, c: Context, r: Request) returns (answer: Answer)
    ensures answer == ExportAll ==> VerifiedRequester(me, c, r)
    ensures answer.Export? ==>
              && !VerifiedRequester(me, c, r)
              && r.session in s.data && IsRecorded(s.data[r.session].currently, r.sender, r.device)
              && answer.index == s.data[r.session].currently[r.sender][r.device]
    ensures answer == Ignored <==>
              || !r.megolm || r.session !in s.data || (r.sender != me.user && !c.weMadeIt) || !c.inboundKnown
                    || !c.member
              || (!VerifiedRequester(me, c, r) && !IsRecorded(s.data[r.session].currently, r.sender, r.device))
  {
    if !r.megolm {
      return Ignored;
    }
    if r.session !in s.data {
      return Ignored;
    }
    if r.sender != me.user && !c.weMadeIt {
      return Ignored;
    }
    if !c.inboundKnown {
      return Ignored;
    }
    if !c.member {
      return Ignored;
    }
    var verifiedDevice := false;
    if c.hasStatus && (c.shareWithTrusted || r.sender == me.user) {
      var devices := SortedKeys(c.verifiedDevices);
      var n := 0;
      while n < |devices| && !verifiedDevice
        invariant 0 <= n <= |devices|
        invariant verifiedDevice <==> r.device in devices[..n]
      {
        verifiedDevice := devices[n] == r.device;
        n := n + 1;
      }
    }
    var shouldSeeKeys := false;
    var minimumIndex := 0;
    var recorded := s.data[r.session].currently;
    if r.sender in recorded {
      if r.device in recorded[r.sender] {
        shouldSeeKeys := true;
        minimumIndex := recorded[r.sender][r.device];
      }
    }
    if !verifiedDevice && !shouldSeeKeys {
      return Ignored;
    }
    if verifiedDevice {
      return ExportAll;
    }
    return Export(minimumIndex);
  }

  /** Over all runs: index shared <= recorded index <= current index. A request answered on the record
      alone goes to a device that was sent the key, and exports from no earlier than it was given. */
  lemma RecordNeverPrecedesShare(me: Me, inputs: seq<Input>, id: SessionId, u: User, d: Device)
    requires var (s, calls) := Run(me, inputs); id in s.data && IsRecorded(s.data[id].currently, u, d)
    ensures var (s, calls) := Run(me, inputs);
            var recorded := s.data[id].currently[u][d];
            && recorded <= s.data[id].messageIndex
            && Given(calls, id, u, d, recorded)
            && forall k :: 0 <= k < |calls| && calls[k].session == id && (u, d) in calls[k].shared ==>
                  calls[k].keyIndex <= recorded
  {
    RunKeeps(me, inputs);
    var (s, calls) := Run(me, inputs);
    assert RecordGiven(s, calls, id, u, d);
    forall k | 0 <= k < |calls| && calls[k].session == id && (u, d) in calls[k].shared
      ensures calls[k].keyIndex <= s.data[id].currently[u][d]
    {
      assert ShareRecorded(s, calls[k]);
    }
  }

  /** No device is sent the key of one session twice. */
  lemma SharedOnce(me: Me, inputs: seq<Input>, k: nat, j: nat, u: User, d: Device)
    requires var calls := Run(me, inputs).1;
             k < j < |inputs| && calls[k].session == calls[j].session && (u, d) in calls[k].shared
    ensures (u, d) !in Run(me, inputs).1[j].shared
  {
    hide Run, Encrypt;
    var s, calls := AtCall(me, inputs, j);
    var upTo := Run(me, inputs).1[..j + 1];
    assert upTo[k] == Run(me, inputs).1[k] && upTo[j] == Run(me, inputs).1[j];
    assert ShareRecorded(s, calls[k]);
    var before, sent, index := EncryptShape(s, me, inputs[j]);
    NobodyGetsOwn(inputs[j].members, before, me);
    hide AllMissing, Pairs;
  }
}
