/** `encrypt_group_message` as the source runs it: two iterators over two sorted maps
    (`src/encryption/Olm.cpp`), proved to do what `Megolm.Encrypt` says. */
module MegolmSender {
  import opened Wrappers
  import opened Order
  import opened Megolm

  type SendTo = map<User, seq<Device>>

  /** The recipients as sets; the order of a device list does not matter. */
  ghost function Sets(send: SendTo): map<User, set<Device>> {
    map u | u in send :: set d | d in send[u]
  }

  /** The devices of a member that are not skipped and not the sending device, in map order. */
  method ListDevices(devices: Option<set<Device>>, skip: set<Device>, isMe: bool, me: Me) returns (list: seq<Device>)
    ensures (set d | d in list) ==
            (if devices.None? then {} else devices.value - if isMe then {me.device} else {}) - skip
  {
    list := [];
    if devices.Some? {
      var keys := SortedKeys(devices.value);
      for n := 0 to |keys|
        invariant forall d :: d in list <==> d in keys[..n] && d !in skip && (!isMe || d != me.device)
      {
        if keys[n] !in skip && (!isMe || keys[n] != me.device) {
          list := list + [keys[n]];
        }
        assert keys[..n + 1] == keys[..n] + [keys[n]];
      }
      assert keys[..|keys|] == keys;
    }
  }

  /** Whether some recorded device of a member is no longer listed. */
  method DeviceRemoved(recorded: map<Device, nat>, devices: Option<set<Device>>) returns (removed: bool)
    ensures removed <==> exists d :: d in recorded && (devices.None? || d !in devices.value)
  {
    var keys := SortedKeys(recorded.Keys);
    removed := false;
    for n := 0 to |keys|
      invariant !removed
      invariant forall d :: d in keys[..n] ==> devices.Some? && d in devices.value
    {
      if devices.None? || keys[n] !in devices.value {
        return true;
      }
      assert keys[..n + 1] == keys[..n] + [keys[n]];
    }
    assert keys[..|keys|] == keys;
  }

  /** `ms[..i]` and `ss[..j]` are the two walked parts, and no member has been skipped. */
  ghost predicate Walked(ms: seq<User>, ss: seq<User>, i: nat, j: nat) {
    && i <= |ms| && j <= |ss|
    && (forall a, b :: 0 <= a < i && j <= b < |ss| ==> Less(ms[a], ss[b]))
    && (forall a, b :: i <= a < |ms| && 0 <= b < j ==> Less(ss[b], ms[a]))
  }

  /** What has been listed so far is what the walked members miss. */
  ghost predicate Listing(send: SendTo, members: Members, recorded: Recorded, me: Me, walked: seq<User>) {
    && (forall u :: u in send ==> u in walked)
    && (forall u :: u in walked && u in members ==>
          && (u !in recorded ==> u in send)
          && Missing(members, recorded, me, u) == if u in send then set d | d in send[u] else {})
  }

  lemma SortedApart(keys: seq<string>, n: nat)
    requires Sorted(keys) && n < |keys|
    ensures keys[n] !in keys[..n]
  {
    if keys[n] in keys[..n] {
      var m :| 0 <= m < n && keys[..n][m] == keys[n];
      LessIrreflexive(keys[n]);
    }
  }

  lemma ListingGrows(send: SendTo, members: Members, recorded: Recorded, me: Me, ms: seq<User>, i: nat,
                     list: seq<Device>)
    requires Sorted(ms) && i < |ms| && ms[i] in members
    requires Listing(send, members, recorded, me, ms[..i])
    requires (set d | d in list) == Missing(members, recorded, me, ms[i])
    ensures Listing(if ms[i] in recorded && list == [] then send else send[ms[i] := list],
                    members, recorded, me, ms[..i + 1])
  {
    SortedApart(ms, i);
    assert ms[..i + 1] == ms[..i] + [ms[i]];
    assert list == [] ==> (set d | d in list) == {};
    if list != [] {
      assert list[0] in set d | d in list;
    }
  }

  /** A name at the head of one list that sorts before the head of the other is in one list only. */
  lemma HeadIsAlone(xs: seq<string>, ys: seq<string>, i: nat, j: nat)
    requires Sorted(xs) && Sorted(ys) && Walked(xs, ys, i, j) && i < |xs|
    requires j < |ys| ==> Less(xs[i], ys[j])
    ensures xs[i] !in ys
    ensures Walked(xs, ys, i + 1, j)
  {
    forall b | j <= b < |ys|
      ensures Less(xs[i], ys[b])
    {
      if b > j {
        LessTransitive(xs[i], ys[j], ys[b]);
      }
    }
    if xs[i] in ys {
      var b :| 0 <= b < |ys| && ys[b] == xs[i];
      LessIrreflexive(xs[i]);
    }
  }

  lemma WalkedSwaps(xs: seq<string>, ys: seq<string>, i: nat, j: nat)
    ensures Walked(xs, ys, i, j) <==> Walked(ys, xs, j, i)
  {
  }

  lemma HeadsMeet(ms: seq<string>, ss: seq<string>, i: nat, j: nat)
    requires Sorted(ms) && Sorted(ss) && Walked(ms, ss, i, j) && i < |ms| && j < |ss| && ms[i] == ss[j]
    ensures Walked(ms, ss, i + 1, j + 1)
  {
  }

  lemma NothingWalked(members: Members, recorded: Recorded, me: Me, ms: seq<User>, ss: seq<User>)
    ensures Walked(ms, ss, 0, 0) && Listing(map[], members, recorded, me, ms[..0])
    ensures CoveredSoFar(members, recorded, ss[..0])
  {
  }

  ghost predicate CoveredSoFar(members: Members, recorded: Recorded, walked: seq<User>) {
    forall u :: u in walked && u in recorded ==> u in members && forall d :: d in recorded[u] ==> Listed(members, u, d)
  }

  lemma CoveredGrows(members: Members, recorded: Recorded, ss: seq<User>, j: nat)
    requires j < |ss| && ss[j] in recorded && CoveredSoFar(members, recorded, ss[..j])
    requires ss[j] in members && forall d :: d in recorded[ss[j]] ==> members[ss[j]].Some? && d in members[ss[j]].value
    ensures CoveredSoFar(members, recorded, ss[..j + 1])
  {
    assert ss[..j + 1] == ss[..j] + [ss[j]];
  }

  lemma AllCovered(members: Members, recorded: Recorded, ss: seq<User>)
    requires (forall u :: u in ss <==> u in recorded) && CoveredSoFar(members, recorded, ss)
    ensures Covered(members, recorded)
  {
  }

  lemma SomethingGone(members: Members, recorded: Recorded, u: User)
    requires u in recorded
    requires u in members ==> exists d :: d in recorded[u] && (members[u].None? || d !in members[u].value)
    ensures !Reusable(members, recorded)
  {
  }

  lemma MissingSpelledOut(members: Members, recorded: Recorded, me: Me, u: User)
    requires u in members
    ensures Missing(members, recorded, me, u) ==
            (if members[u].None? then {} else members[u].value - if u == me.user then {me.device} else {}) -
            (if u in recorded then recorded[u].Keys else {})
  {
  }

  /** The two-iterator walk: reuse exactly when nobody recorded has gone, and send to exactly those
      that miss the session. */
  method Walk(members: Members, recorded: Recorded, me: Me) returns (reuse: bool, send: SendTo)
    ensures reuse <==> Reusable(members, recorded)
    ensures reuse ==> Listing(send, members, recorded, me, SortedKeys(members.Keys))
  {
    hide Listing, Walked, Sorted, CoveredSoFar, Missing, SortedKeys, Covered;
    var ms, ss := SortedKeys(members.Keys), SortedKeys(recorded.Keys);
    var i, j := 0, 0;
    NothingWalked(members, recorded, me, ms, ss);
    reuse, send := false, map[];
    while i < |ms| || j < |ss|
      invariant i <= |ms| && j <= |ss| && Walked(ms, ss, i, j)
      invariant Listing(send, members, recorded, me, ms[..i])
      invariant CoveredSoFar(members, recorded, ss[..j])
      invariant reuse <==> i == |ms| && j == |ss| && (ms != [] || ss != [])
      decreases |ms| - i + |ss| - j
    {
      if i == |ms| {
        WalkedSwaps(ms, ss, i, j);
        HeadIsAlone(ss, ms, j, i);
        SomethingGone(members, recorded, ss[j]);
        return;
      }
      if j == |ss| {
        NoneRecorded(ms, ss, i);
        assert ss[..j] == ss;
        AllCovered(members, recorded, ss);
        NoKeys(members);
        send := ShareWithRest(members, recorded, me, ms, i, send);
        return true, send;
      }
      LessTotal(ms[i], ss[j]);
      MissingSpelledOut(members, recorded, me, ms[i]);
      if Less(ss[j], ms[i]) {
        WalkedSwaps(ms, ss, i, j);
        HeadIsAlone(ss, ms, j, i);
        SomethingGone(members, recorded, ss[j]);
        return;
      } else if Less(ms[i], ss[j]) {
        HeadIsAlone(ms, ss, i, j);
        var list := ListDevices(members[ms[i]], {}, ms[i] == me.user, me);
        ListingGrows(send, members, recorded, me, ms, i, list);
        send := send[ms[i] := list];
        i := i + 1;
      } else {
        var removed := DeviceRemoved(recorded[ms[i]], members[ms[i]]);
        if removed {
          SomethingGone(members, recorded, ms[i]);
          return;
        }
        var list := ListDevices(members[ms[i]], recorded[ms[i]].Keys, ms[i] == me.user, me);
        ListingGrows(send, members, recorded, me, ms, i, list);
        if list != [] {
          send := send[ms[i] := list];
        }
        CoveredGrows(members, recorded, ss, j);
        HeadsMeet(ms, ss, i, j);
        i, j := i + 1, j + 1;
        if i == |ms| && j == |ss| {
          reuse := true;
        }
      }
    }
    assert ms[..i] == ms && ss[..j] == ss;
    AllCovered(members, recorded, ss);
    NoKeys(members);
    NoKeys(recorded);
  }

  lemma NoKeys<V>(m: map<string, V>)
    ensures SortedKeys(m.Keys) == [] <==> m == map[]
  {
    if m != map[] {
      assert m.Keys != {};
    }
  }

  lemma NoneRecorded(ms: seq<User>, ss: seq<User>, i: nat)
    requires Walked(ms, ss, i, |ss|) && Sorted(ms)
    ensures forall a :: i <= a < |ms| ==> ms[a] !in ss
  {
    forall a | i <= a < |ms|
      ensures ms[a] !in ss
    {
      LessIrreflexive(ms[a]);
    }
  }

  /** The recorded users are used up: everyone left is new. */
  method ShareWithRest(members: Members, recorded: Recorded, me: Me, ms: seq<User>, start: nat, send0: SendTo)
    returns (send: SendTo)
    requires Sorted(ms) && start <= |ms| && forall a :: start <= a < |ms| ==> ms[a] in members
    requires Listing(send0, members, recorded, me, ms[..start])
    requires forall a :: start <= a < |ms| ==> ms[a] !in recorded
    ensures Listing(send, members, recorded, me, ms)
  {
    hide Listing, Sorted, Missing;
    var i := start;
    send := send0;
    while i < |ms|
      invariant start <= i <= |ms|
      invariant Listing(send, members, recorded, me, ms[..i])
    {
      MissingSpelledOut(members, recorded, me, ms[i]);
      var list := ListDevices(members[ms[i]], {}, ms[i] == me.user, me);
      ListingGrows(send, members, recorded, me, ms, i, list);
      send := send[ms[i] := list];
      i := i + 1;
    }
    assert ms[..|ms|] == ms;
  }

  // ----- Updating the record -----

  lemma RecordUserFacts(known: map<Device, nat>, got: set<Device>, index: nat)
    ensures RecordUser(known, {}, index) == known
    ensures RecordUser(RecordUser(map[], got, 0), got, index) == RecordUser(map[], got, 0)
  {
    assert RecordUser(known, {}, index).Keys == known.Keys;
    assert RecordUser(RecordUser(map[], got, 0), got, index).Keys == got;
  }

  lemma RecordOfListing(send: SendTo, members: Members, recorded: Recorded, me: Me, index: nat)
    requires Listing(send, members, recorded, me, SortedKeys(members.Keys))
    ensures Record(recorded, Sets(send), index) == Record(recorded, AllMissing(members, recorded, me), index)
    ensures Pairs(Sets(send)) == Pairs(AllMissing(members, recorded, me))
  {
    hide Record, RecordUser, Missing, Pairs;
    var ours, all := Sets(send), AllMissing(members, recorded, me);
    assert forall u :: u in members <==> u in SortedKeys(members.Keys);
    assert forall u :: SentTo(ours, u) == SentTo(all, u);
    SameRecord(recorded, ours, all, index);
    SamePairs(ours, all);
  }

  lemma SameRecord(recorded: Recorded, a: map<User, set<Device>>, b: map<User, set<Device>>, index: nat)
    requires forall u :: SentTo(a, u) == SentTo(b, u)
    requires recorded.Keys + a.Keys == recorded.Keys + b.Keys
    ensures Record(recorded, a, index) == Record(recorded, b, index)
  {
    hide RecordUser;
  }

  lemma SamePairs(a: map<User, set<Device>>, b: map<User, set<Device>>)
    requires forall u :: SentTo(a, u) == SentTo(b, u)
    ensures Pairs(a) == Pairs(b)
  {
    forall u, d
      ensures (u, d) in Pairs(a) <==> (u, d) in Pairs(b)
    {
      assert (u, d) in Pairs(a) <==> d in SentTo(a, u);
      assert (u, d) in Pairs(b) <==> d in SentTo(b, u);
    }
  }

  /** The devices of one user that are not recorded yet get the index. */
  method RecordDevices(known: map<Device, nat>, list: seq<Device>, index: nat) returns (m: map<Device, nat>)
    ensures m == RecordUser(known, (set d | d in list), index)
  {
    m := known;
    for n := 0 to |list|
      invariant m == map d | d in known.Keys + (set d | d in list[..n]) :: if d in known then known[d] else index
    {
      if list[n] !in m {
        m := m[list[n] := index];
      }
      assert list[..n + 1] == list[..n] + [list[n]];
    }
    assert list[..|list|] == list;
  }

  ghost function Upto(send: SendTo, users: seq<User>): map<User, set<Device>> {
    map u | u in send && u in users :: set d | d in send[u]
  }

  method RecordSent(recorded: Recorded, send: SendTo, index: nat) returns (after: Recorded)
    ensures after == Record(recorded, Sets(send), index)
  {
    after := recorded;
    var users := SortedKeys(send.Keys);
    NothingSent(recorded, send, index);
    for n := 0 to |users|
      invariant after == Record(recorded, Upto(send, users[..n]), index)
    {
      hide Upto;
      var u := users[n];
      SortedApart(users, n);
      assert users[..n + 1] == users[..n] + [u];
      OneMoreUser(recorded, send, users[..n], u, index);
      hide Record;
      var devices := RecordDevices(if u in after then after[u] else map[], send[u], index);
      after := after[u := devices];
    }
    assert users[..|users|] == users;
    assert Upto(send, users) == Sets(send);
  }

  lemma NothingSent(recorded: Recorded, send: SendTo, index: nat)
    ensures recorded == Record(recorded, Upto(send, []), index)
  {
    hide RecordUser;
    forall u | u in recorded
      ensures RecordUser(recorded[u], {}, index) == recorded[u]
    {
      RecordUserFacts(recorded[u], {}, index);
    }
  }

  lemma OneMoreUser(recorded: Recorded, send: SendTo, users: seq<User>, u: User, index: nat)
    requires u in send && u !in users
    ensures var before := Record(recorded, Upto(send, users), index);
            Record(recorded, Upto(send, users + [u]), index) ==
            before[u := RecordUser(if u in before then before[u] else map[], (set d | d in send[u]), index)]
  {
    hide Record, RecordUser;
    var got := set d | d in send[u];
    assert Upto(send, users + [u]) == Upto(send, users)[u := got];
    OneMoreRecord(recorded, Upto(send, users), u, got, index);
  }

  lemma OneMoreRecord(recorded: Recorded, sent: map<User, set<Device>>, u: User, got: set<Device>, index: nat)
    requires u !in sent
    ensures var before := Record(recorded, sent, index);
            Record(recorded, sent[u := got], index) ==
            before[u := RecordUser(if u in before then before[u] else map[], got, index)]
  {
    hide RecordUser;
    RecordUserFacts(KnownTo(recorded, u), {}, index);
  }

  /** A device recorded when the session was made is not recorded again. */
  lemma RecordTwice(sent: map<User, set<Device>>, index: nat)
    ensures Record(Record(map[], sent, 0), sent, index) == Record(map[], sent, 0)
  {
    hide RecordUser;
    forall u | u in sent
      ensures RecordUser(RecordUser(map[], sent[u], 0), sent[u], index) == RecordUser(map[], sent[u], 0)
    {
      RecordUserFacts(map[], sent[u], index);
    }
  }

  // ----- The object -----

  class RoomSessions {
    const me: Me
    var outbound: Option<Session>
    var data: map<SessionId, SessionData>
    var created: nat

    constructor (me: Me)
      ensures this.me == me && State() == EMPTY_STORE
    {
      this.me := me;
      outbound, data, created := None, map[], 0;
    }

    ghost function State(): Store
      reads this
    {
      Store(outbound, data, created)
    }

    /** A new session, saved with everybody eligible recorded at index 0. */
    method NewSession(members: Members, now: nat) returns (session: Session, groupData: SessionData, send: SendTo)
      modifies this
      ensures outbound == Some(session) && session == Session(old(created), 0) && created == old(created) + 1
      ensures groupData == SessionData(0, now, Record(map[], Sets(send), 0))
      ensures data == old(data)[session.id := groupData]
      ensures Listing(send, members, map[], me, SortedKeys(members.Keys))
    {
      session := Session(created, 0);
      var ms := SortedKeys(members.Keys);
      send := map[];
      var i := 0;
      NothingWalked(members, map[], me, ms, []);
      while i < |ms|
        invariant 0 <= i <= |ms| && State() == old(State())
        invariant Listing(send, members, map[], me, ms[..i])
      {
        MissingSpelledOut(members, map[], me, ms[i]);
        var list := ListDevices(members[ms[i]], {}, ms[i] == me.user, me);
        ListingGrows(send, members, map[], me, ms, i, list);
        send := send[ms[i] := list];
        i := i + 1;
      }
      assert ms[..i] == ms;
      var recorded := RecordSent(map[], send, 0);
      groupData := SessionData(0, now, recorded);
      outbound, data, created := Some(session), data[session.id := groupData], created + 1;
    }

    /** `encrypt_group_message`. */
    method EncryptGroupMessage(members: Members, settings: Settings, now: nat)
      returns (session: SessionId, index: nat, send: SendTo)
      modifies this
      ensures var (s', call) := Encrypt(old(State()), me, Input(members, settings, now));
              State() == s' && session == call.session && index == call.messageIndex && Pairs(Sets(send)) == call.shared
    {
      hide Record, AllMissing, Pairs, Listing, Sets, Covered, SortedKeys;
      var reuse := false;
      send := map[];
      var groupData := NO_DATA;
      var current := Session(0, 0);
      if outbound.Some? {
        current := outbound.value;
        groupData := if current.id in data then data[current.id] else NO_DATA;
        if groupData.messageIndex < settings.rotationMsgs && (now - groupData.timestamp) % TWO64 < settings.rotationMs {
          reuse, send := Walk(members, groupData.currently, me);
        }
      }
      if reuse {
        RecordOfListing(send, members, groupData.currently, me, current.index + 1);
      } else {
        current, groupData, send := NewSession(members, now);
        RecordOfListing(send, members, map[], me, 0);
        RecordTwice(Sets(send), 1);
      }
      session, index := current.id, current.index;
      // the message is encrypted here, which advances the ratchet
      current := current.(index := current.index + 1);
      var recorded := RecordSent(groupData.currently, send, current.index);
      groupData := groupData.(messageIndex := current.index, currently := recorded);
      outbound, data := Some(current), data[current.id := groupData];
      assert data == old(data)[current.id := groupData];
    }
  }
}
