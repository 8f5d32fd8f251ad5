/** What the device key tables guarantee over runs. */
module DeviceKeyResults {
  import opened Wrappers
  import opened Order
  import opened DeviceKeys

  // ----- Pinning -----

  ghost predicate KeysIn(d: Device, seen: set<PublicKey>) {
    forall k :: k in d.keys ==> d.keys[k] in seen
  }

  ghost predicate NoSharedKey(a: Device, b: Device) {
    forall k, l :: k in a.keys && l in b.keys ==> a.keys[k] != b.keys[l]
  }

  ghost predicate Disjoint(devices: map<DeviceId, Device>) {
    forall a, b :: a in devices && b in devices && a != b ==> NoSharedKey(devices[a], devices[b])
  }

  /** Every stored id and key has been seen, and no key belongs to two stored devices. */
  ghost predicate Pinned(e: Entry) {
    && (forall id :: id in e.devices ==> id in e.seenIds && KeysIn(e.devices[id], e.seenKeys))
    && Disjoint(e.devices)
  }

  /** What the filter has accepted so far: devices of the update, either kept with the same keys, or
      new in id and keys. */
  ghost predicate Sifted(e: Entry, devices: map<DeviceId, Device>, f: Filter) {
    && e.seenKeys <= f.seenKeys && e.seenIds <= f.seenIds
    && (forall id :: id in f.accepted ==>
          && id in devices && f.accepted[id] == devices[id]
          && id in f.seenIds && KeysIn(f.accepted[id], f.seenKeys)
          && if id in e.devices then e.devices[id].keys == f.accepted[id].keys
             else id !in e.seenIds && forall k :: k in f.accepted[id].keys ==> f.accepted[id].keys[k] !in e.seenKeys)
    && Disjoint(f.accepted)
  }

  lemma SeeKeys(f: Filter, id: DeviceId, d: Device)
    ensures var g := See(f, id, d);
            f.seenKeys <= g.seenKeys && f.seenIds <= g.seenIds && id in g.seenIds && KeysIn(d, g.seenKeys)
  {
  }

  /** The ways a device can be treated. */
  lemma StepShape(env: Env, u: User, before: map<DeviceId, Device>, f: Filter, id: DeviceId, d: Device)
    requires id !in f.accepted
    ensures var g := FilterStep(env, u, before, f, id, d);
            && (g == f || g == See(f, id, d) || g == See(f.(accepted := f.accepted[id := d]), id, d))
            && (id in g.accepted ==>
                  if id in before then before[id].keys == d.keys
                  else id !in f.seenIds && forall k :: k in d.keys ==> d.keys[k] !in f.seenKeys)
  {
    if WellSigned(env, u, id, d) {
      assert d.keys["ed25519:" + d.deviceId] in d.keys.Values;
    }
  }

  /** A newly accepted device shares no key with those accepted before it. */
  lemma NewIsDisjoint(e: Entry, devices: map<DeviceId, Device>, f: Filter, id: DeviceId, d: Device, other: DeviceId)
    requires Pinned(e) && Sifted(e, devices, f) && other in f.accepted && id != other
    requires if id in e.devices then e.devices[id].keys == d.keys
             else forall k :: k in d.keys ==> d.keys[k] !in f.seenKeys
    ensures NoSharedKey(d, f.accepted[other]) && NoSharedKey(f.accepted[other], d)
  {
    var o := f.accepted[other];
    assert KeysIn(o, f.seenKeys);
    if id in e.devices {
      assert KeysIn(e.devices[id], e.seenKeys);
      if other in e.devices {
        assert NoSharedKey(e.devices[id], e.devices[other]) && NoSharedKey(e.devices[other], e.devices[id]);
      }
    }
  }

  lemma SeeingSifts(e: Entry, devices: map<DeviceId, Device>, f: Filter, id: DeviceId, d: Device)
    requires Sifted(e, devices, f)
    ensures Sifted(e, devices, See(f, id, d))
  {
    hide Disjoint;
  }

  lemma AcceptingSifts(e: Entry, devices: map<DeviceId, Device>, f: Filter, id: DeviceId)
    requires Sifted(e, devices, f) && id in devices && id !in f.accepted
    requires if id in e.devices then e.devices[id].keys == devices[id].keys
             else id !in e.seenIds && forall k :: k in devices[id].keys ==> devices[id].keys[k] !in e.seenKeys
    requires forall other :: other in f.accepted ==>
               NoSharedKey(devices[id], f.accepted[other]) && NoSharedKey(f.accepted[other], devices[id])
    ensures Sifted(e, devices, See(f.(accepted := f.accepted[id := devices[id]]), id, devices[id]))
  {
    hide NoSharedKey;
    SeeKeys(f, id, devices[id]);
    var g := See(f.(accepted := f.accepted[id := devices[id]]), id, devices[id]);
    forall other | other in f.accepted
      ensures KeysIn(f.accepted[other], g.seenKeys)
    {
      KeysGrow(f.accepted[other], f.seenKeys, g.seenKeys);
    }
    assert g.seenKeys == See(f, id, devices[id]).seenKeys;
    hide KeysIn, See;
    assert Disjoint(g.accepted);
  }

  lemma KeysGrow(d: Device, a: set<PublicKey>, b: set<PublicKey>)
    requires KeysIn(d, a) && a <= b
    ensures KeysIn(d, b)
  {
  }

  lemma StepSifts(env: Env, u: User, e: Entry, devices: map<DeviceId, Device>, f: Filter, id: DeviceId)
    requires Pinned(e) && Sifted(e, devices, f) && id in devices && id !in f.accepted
    ensures Sifted(e, devices, FilterStep(env, u, e.devices, f, id, devices[id]))
  {
    var d := devices[id];
    var g := FilterStep(env, u, e.devices, f, id, d);
    StepShape(env, u, e.devices, f, id, d);
    SeeingSifts(e, devices, f, id, d);
    hide FilterStep, Pinned, NoSharedKey;
    if id in g.accepted {
      forall other | other in f.accepted
        ensures NoSharedKey(d, f.accepted[other]) && NoSharedKey(f.accepted[other], d)
      {
        NewIsDisjoint(e, devices, f, id, d, other);
      }
      AcceptingSifts(e, devices, f, id);
    }
    hide Sifted;
  }

  lemma {:induction false} FoldSifts(env: Env, u: User, e: Entry, devices: map<DeviceId, Device>, ids: seq<DeviceId>)
    requires Pinned(e) && Sorted(ids) && forall id :: id in ids ==> id in devices
    ensures Sifted(e, devices, FilterFold(env, u, e, devices, ids))
    ensures forall id :: id in FilterFold(env, u, e, devices, ids).accepted ==> id in ids
  {
    hide Sifted, Pinned;
    if ids == [] {
      NothingSifted(e, devices);
    } else {
      var front, id := ids[..|ids| - 1], ids[|ids| - 1];
      FoldSifts(env, u, e, devices, front);
      LastIsNew(ids);
      StepSifts(env, u, e, devices, FilterFold(env, u, e, devices, front), id);
    }
  }

  lemma NothingSifted(e: Entry, devices: map<DeviceId, Device>)
    ensures Sifted(e, devices, Filter(map[], e.seenKeys, e.seenIds))
  {
  }

  lemma LastIsNew(ids: seq<string>)
    requires Sorted(ids) && ids != []
    ensures ids[|ids| - 1] !in ids[..|ids| - 1]
  {
    LessIrreflexive(ids[|ids| - 1]);
  }

  /** A tracked entry and its successor: pinned again, and no seen id comes back or changes keys. */
  ghost predicate Succeeds(e: Entry, e': Entry) {
    && Pinned(e')
    && e.seenKeys <= e'.seenKeys && e.seenIds <= e'.seenIds
    && (forall id :: id in e'.devices && id in e.seenIds ==>
          id in e.devices && e'.devices[id].keys == e.devices[id].keys)
    && (e.masterKeyChanged ==> e'.masterKeyChanged)
  }

  lemma UpdateSucceeds(env: Env, u: User, e: Entry, token: Token, up: Update)
    requires Pinned(e)
    ensures Succeeds(e, UpdateEntry(env, u, Some(e), token, up))
  {
    hide FilterFold;
    FoldSifts(env, u, e, up.devices, SortedKeys(up.devices.Keys));
  }

  lemma ApplySucceeds(env: Env, t: Tables, op: Op, u: User)
    requires u in t.keys && Pinned(t.keys[u])
    ensures u in Apply(env, t, op).keys && Succeeds(t.keys[u], Apply(env, t, op).keys[u])
  {
    if op.DoUpdate? && u in op.response {
      UpdateSucceeds(env, u, t.keys[u], op.token, op.response[u]);
    }
    hide UpdateEntry, Pinned, Fresh;
  }

  lemma SucceedsTrans(a: Entry, b: Entry, c: Entry)
    requires Succeeds(a, b) && Succeeds(b, c)
    ensures Succeeds(a, c)
  {
  }

  /** Over every run from a pinned entry, whatever is queried and in which order the answers come: an id
      once seen never reappears with other keys, and no key ever belongs to two stored devices. */
  lemma {:induction false} PinnedForever(env: Env, t: Tables, ops: seq<Op>, u: User)
    requires u in t.keys && Pinned(t.keys[u])
    ensures u in Run(env, t, ops).keys && Succeeds(t.keys[u], Run(env, t, ops).keys[u])
  {
    hide Apply, Pinned;
    if ops != [] {
      var front := ops[..|ops| - 1];
      PinnedForever(env, t, front, u);
      var mid := Run(env, t, front);
      ApplySucceeds(env, mid, ops[|ops| - 1], u);
      SucceedsTrans(t.keys[u], mid.keys[u], Run(env, t, ops).keys[u]);
    }
  }

  // ----- What is accepted -----

  /** A device we hold with the same keys, or a new one: its id is the one it is listed under, it has a curve
      key and a signing key of its own that made its signature, and neither the id nor a key was seen. */
  ghost predicate Acceptable(env: Env, u: User, e: Entry, id: DeviceId, d: Device) {
    if id in e.devices then e.devices[id].keys == d.keys else
    && id == d.deviceId && "curve25519:" + id in d.keys && "ed25519:" + id in d.keys
    && u in d.signatures && "ed25519:" + id in d.signatures[u]
    && env.verifyDevice(d.keys["ed25519:" + id], d, d.signatures[u]["ed25519:" + id])
    && id !in e.seenIds && forall k :: k in d.keys ==> d.keys[k] !in e.seenKeys
  }

  /** One of the devices has this key. */
  ghost predicate HasKey(devices: map<DeviceId, Device>, some: set<DeviceId>, key: PublicKey) {
    exists id :: id in some && id in devices && key in devices[id].keys.Values
  }

  /** The device is new, clashes with nothing seen, and does not sign itself: it is passed over and leaves
      no trace. */
  ghost predicate PassedOver(env: Env, u: User, e: Entry, devices: map<DeviceId, Device>, seen: set<DeviceId>,
        id: DeviceId)
    requires id in devices
  {
    var d := devices[id];
    && id !in e.devices && !WellSigned(env, u, id, d)
    && forall k :: k in d.keys ==> d.keys[k] !in e.seenKeys && id !in e.seenIds && !HasKey(devices, seen, d.keys[k])
  }

  /** The devices of the answer that are looked at and not passed over. */
  ghost function Looked(env: Env, u: User, e: Entry, devices: map<DeviceId, Device>,
        ids: seq<DeviceId>): (r: set<DeviceId>)
    requires forall id :: id in ids ==> id in devices
    ensures forall id :: id in r ==> id in ids
  {
    if ids == [] then {} else
    var front, last := ids[..|ids| - 1], ids[|ids| - 1];
    var seen := Looked(env, u, e, devices, front);
    if PassedOver(env, u, e, devices, seen, last) then seen else seen + {last}
  }

  lemma HasKeyOneMore(devices: map<DeviceId, Device>, some: set<DeviceId>, id: DeviceId, key: PublicKey)
    requires id in devices
    ensures HasKey(devices, some + {id}, key) <==> HasKey(devices, some, key) || key in devices[id].keys.Values
  {
  }

  /** What the filter has seen is exactly what had been seen before and the devices it looked at and did
      not pass over, with their keys. */
  lemma {:induction false} FoldLooked(env: Env, u: User, e: Entry, devices: map<DeviceId, Device>, ids: seq<DeviceId>)
    requires Sorted(ids) && forall id :: id in ids ==> id in devices
    ensures var f, seen := FilterFold(env, u, e, devices, ids), Looked(env, u, e, devices, ids);
            && f.seenIds == e.seenIds + seen
            && forall key :: key in f.seenKeys <==> key in e.seenKeys || HasKey(devices, seen, key)
  {
    hide WellSigned, HasKey;
    if ids == [] {
      NoneHasKey(devices);
    } else {
      var front, last := ids[..|ids| - 1], ids[|ids| - 1];
      FoldLooked(env, u, e, devices, front);
      LastIsNew(ids);
      var seen := Looked(env, u, e, devices, front);
      forall key
        ensures HasKey(devices, seen + {last}, key) <==> HasKey(devices, seen, key) || key in devices[last].keys.Values
      {
        HasKeyOneMore(devices, seen, last, key);
      }
      StepSees(env, u, e.devices, FilterFold(env, u, e, devices, front), last, devices[last]);
      hide FilterStep;
    }
  }

  lemma NoneHasKey(devices: map<DeviceId, Device>)
    ensures forall key :: !HasKey(devices, {}, key)
  {
  }

  /** What one step does to the seen sets and the accepted devices. */
  lemma StepSees(env: Env, u: User, before: map<DeviceId, Device>, f: Filter, id: DeviceId, d: Device)
    ensures var g := FilterStep(env, u, before, f, id, d);
            var skipped := id !in before && !Reused(f, id, d) && !WellSigned(env, u, id, d);
            && g.seenIds == (if skipped then f.seenIds else f.seenIds + {id})
            && g.seenKeys == (if skipped then f.seenKeys else f.seenKeys + d.keys.Values)
            && (forall other :: other != id ==> (other in g.accepted <==> other in f.accepted))
            && (id !in f.accepted ==>
                  (id in g.accepted <==>
                    if id in before then before[id].keys == d.keys else !Reused(f, id, d) && WellSigned(env, u, id, d)))
  {
    hide Reused, WellSigned;
  }

  /** No earlier device that was looked at has one of the keys. */
  ghost predicate FirstWithKeys(devices: map<DeviceId, Device>, seen: set<DeviceId>, id: DeviceId)
    requires id in devices
  {
    forall other, k :: other in seen && other in devices && Less(other, id) && k in devices[id].keys ==>
      devices[id].keys[k] !in devices[other].keys.Values
  }

  /** The rule for one device of an answer. */
  ghost predicate Accepts(env: Env, u: User, e: Entry, devices: map<DeviceId, Device>, seen: set<DeviceId>,
        id: DeviceId)
    requires id in devices
  {
    Acceptable(env, u, e, id, devices[id]) && (id in e.devices || FirstWithKeys(devices, seen, id))
  }

  /** The rule at the moment the device is reached. */
  lemma ReachedAccepts(env: Env, u: User, e: Entry, devices: map<DeviceId, Device>, front: seq<DeviceId>, id: DeviceId)
    requires Sorted(front) && (forall other :: other in front ==> other in devices && Less(other, id)) && id in devices
    ensures var f, d := FilterFold(env, u, e, devices, front), devices[id];
            id !in e.devices ==>
            (!Reused(f, id, d) && WellSigned(env, u, id, d) <==>
             Accepts(env, u, e, devices, Looked(env, u, e, devices, front), id))
  {
    FoldLooked(env, u, e, devices, front);
    LessIrreflexive(id);
    hide FilterFold, Looked;
  }

  lemma {:induction false} FoldAccepts(env: Env, u: User, e: Entry, devices: map<DeviceId, Device>,
                                       ids: seq<DeviceId>, id: DeviceId)
    requires Sorted(ids) && (forall other :: other in ids ==> other in devices) && id in devices
    ensures id in FilterFold(env, u, e, devices, ids).accepted <==>
            id in ids && Accepts(env, u, e, devices, Looked(env, u, e, devices, ids), id)
  {
    hide Reused, WellSigned, PassedOver, Acceptable, FirstWithKeys;
    if ids != [] {
      var front, last := ids[..|ids| - 1], ids[|ids| - 1];
      FoldAccepts(env, u, e, devices, front, id);
      LastIsNew(ids);
      assert forall other :: other in ids <==> other in front || other == last;
      if id in ids {
        LaterDoesNotMatter(devices, Looked(env, u, e, devices, front), last, id, ids);
      }
      StepSees(env, u, e.devices, FilterFold(env, u, e, devices, front), last, devices[last]);
      if last == id {
        ReachedAccepts(env, u, e, devices, front, id);
        OldAccepts(env, u, e, devices, id);
      }
      hide FilterStep;
    }
  }

  lemma OldAccepts(env: Env, u: User, e: Entry, devices: map<DeviceId, Device>, id: DeviceId)
    requires id in devices
    ensures id in e.devices ==> (Acceptable(env, u, e, id, devices[id]) <==> e.devices[id].keys == devices[id].keys)
  {
  }

  /** Whether a device is first with its keys does not depend on those looked at later. */
  lemma LaterDoesNotMatter(devices: map<DeviceId, Device>, seen: set<DeviceId>, last: DeviceId, id: DeviceId,
                           ids: seq<DeviceId>)
    requires Sorted(ids) && ids != [] && ids[|ids| - 1] == last && id in devices && id in ids
    ensures FirstWithKeys(devices, seen + {last}, id) <==> FirstWithKeys(devices, seen, id)
  {
    if id == last {
      LessIrreflexive(id);
    } else {
      LessAsymmetric(id, last);
    }
  }

  /** An answer that is stored leaves exactly the devices that are acceptable and, when they are new, first
      in map order with each of their keys among the devices that are looked at and not passed over. */
  lemma AcceptedIff(env: Env, u: User, e: Entry, token: Token, up: Update, id: DeviceId)
    requires (e.lastChanged == "" || e.lastChanged == token) && id in up.devices
    ensures id in UpdateEntry(env, u, Some(e), token, up).devices <==>
            Accepts(env, u, e, up.devices, Looked(env, u, e, up.devices, SortedKeys(up.devices.Keys)), id)
  {
    hide FilterFold, Accepts, Looked;
    FoldAccepts(env, u, e, up.devices, SortedKeys(up.devices.Keys), id);
  }

  // ----- What pinning is for -----

  /** The first insert of an untracked user pins nothing: it stores whatever it is sent. */
  lemma UntrackedIsNotPinned(env: Env, u: User, token: Token, up: Update)
    ensures UpdateEntry(env, u, None, token, up).devices == up.devices
    ensures Pinned(UpdateEntry(env, u, None, token, up)) <==> up.devices == map[]
  {
    var e := UpdateEntry(env, u, None, token, up);
    if up.devices != map[] {
      var id :| id in up.devices;
      assert id !in e.seenIds;
    }
  }

  const NOTHING := Update(map[], NO_KEYS, NO_KEYS, NO_KEYS)

  /** The device that signs itself and has only new keys. */
  ghost predicate NewDevice(env: Env, u: User, e: Entry, id: DeviceId, d: Device) {
    WellSigned(env, u, id, d) && forall k :: k in d.keys ==> d.keys[k] !in e.seenKeys
  }

  /** After an answer without devices, one with a new device under a stored id brings the id back with other
      keys exactly when the id had not been seen. */
  lemma ComesBackIff(env: Env, u: User, e: Entry, token: Token, id: DeviceId, d: Device)
    requires (e.lastChanged == "" || e.lastChanged == token) && NewDevice(env, u, e, id, d)
    ensures var away := UpdateEntry(env, u, Some(e), token, NOTHING);
            var back := UpdateEntry(env, u, Some(away), token, NOTHING.(devices := map[id := d]));
            && away.devices == map[]
            && (id in back.devices && back.devices[id] == d <==> id !in e.seenIds)
  {
    hide PassedOver, Looked, FilterFold;
    var away := UpdateEntry(env, u, Some(e), token, NOTHING);
    NothingLeft(env, u, e, token);
    var up := NOTHING.(devices := map[id := d]);
    AcceptedIff(env, u, away, token, up, id);
    OnlyIdLooked(env, u, away, up.devices, id);
    AcceptsOnlySent(env, u, away, up.devices, SortedKeys(up.devices.Keys));
    LessIrreflexive(id);
  }

  lemma NothingLeft(env: Env, u: User, e: Entry, token: Token)
    requires e.lastChanged == "" || e.lastChanged == token
    ensures var away := UpdateEntry(env, u, Some(e), token, NOTHING);
            && away.devices == map[] && away.seenIds == e.seenIds && away.seenKeys == e.seenKeys
            && away.lastChanged == e.lastChanged
  {
    assert SortedKeys(NOTHING.devices.Keys) == [];
  }

  lemma OnlyIdLooked(env: Env, u: User, e: Entry, devices: map<DeviceId, Device>, id: DeviceId)
    requires devices.Keys == {id}
    ensures forall other :: other in Looked(env, u, e, devices, SortedKeys(devices.Keys)) ==> other == id
  {
    assert forall other :: other in SortedKeys(devices.Keys) ==> other in devices.Keys;
  }

  /** So every device of a first answer can come back with other keys. */
  lemma FirstDevicesComeBack(env: Env, u: User, token: Token, up: Update, id: DeviceId, d: Device)
    requires id in up.devices && NewDevice(env, u, UpdateEntry(env, u, None, token, up), id, d)
    ensures var first := UpdateEntry(env, u, None, token, up);
            var away := UpdateEntry(env, u, Some(first), token, NOTHING);
            var back := UpdateEntry(env, u, Some(away), token, NOTHING.(devices := map[id := d]));
            id in first.devices && id in back.devices && back.devices[id] == d
  {
    ComesBackIff(env, u, UpdateEntry(env, u, None, token, up), token, id, d);
  }

  // ----- Replaced master keys -----

  /** A master key there was is not the one there is. */
  ghost predicate Replaced(before: map<User, Entry>, after: map<User, Entry>, u: User) {
    && u in before && u in after
    && before[u].master.keys != map[] && after[u].master.keys != before[u].master.keys
  }

  predicate Flagged(keys: map<User, Entry>, u: User) {
    u in keys && keys[u].masterKeyChanged
  }

  lemma StepRaises(env: Env, t: Tables, op: Op, u: User)
    ensures Flagged(Apply(env, t, op).keys, u) <==> Flagged(t.keys, u) || Replaced(t.keys, Apply(env, t, op).keys, u)
  {
    hide FilterFold, Fresh;
  }

  /** Some operation of the run replaced the master keys. */
  ghost predicate SomeReplaced(env: Env, t: Tables, ops: seq<Op>, u: User) {
    exists n {:trigger ops[n]} ::
      0 <= n < |ops| && Replaced(Run(env, t, ops[..n]).keys, Run(env, t, ops[..n + 1]).keys, u)
  }

  lemma OneMoreReplaced(env: Env, t: Tables, ops: seq<Op>, u: User)
    requires ops != []
    ensures var front := ops[..|ops| - 1];
            SomeReplaced(env, t, ops, u) <==>
            SomeReplaced(env, t, front, u) || Replaced(Run(env, t, front).keys, Run(env, t, ops).keys, u)
  {
    hide Run, Replaced;
    var front := ops[..|ops| - 1];
    assert forall n :: 0 <= n <= |front| ==> ops[..n] == front[..n];
    assert ops[..|front| + 1] == ops;
    if SomeReplaced(env, t, front, u) {
      var n :| 0 <= n < |front| && Replaced(Run(env, t, front[..n]).keys, Run(env, t, front[..n + 1]).keys, u);
      assert ops[n] == front[n];
    }
    if SomeReplaced(env, t, ops, u) {
      var n :| 0 <= n < |ops| && Replaced(Run(env, t, ops[..n]).keys, Run(env, t, ops[..n + 1]).keys, u);
      assert n < |front| ==> front[n] == ops[n];
    }
    assert ops[|front|] == ops[|ops| - 1];
  }

  /** Over every run the flag for a changed master key is up exactly when it was up before or some answer
      replaced master keys by other ones. */
  lemma {:induction false} RaisedIff(env: Env, t: Tables, ops: seq<Op>, u: User)
    ensures Flagged(Run(env, t, ops).keys, u) <==> Flagged(t.keys, u) || SomeReplaced(env, t, ops, u)
  {
    hide Apply, Flagged, Replaced, SomeReplaced;
    if ops == [] {
      NoneReplaced(env, t, u);
    } else {
      var front := ops[..|ops| - 1];
      RaisedIff(env, t, front, u);
      StepRaises(env, Run(env, t, front), ops[|ops| - 1], u);
      OneMoreReplaced(env, t, ops, u);
    }
  }

  lemma NoneReplaced(env: Env, t: Tables, u: User)
    ensures !SomeReplaced(env, t, [], u)
  {
  }

  /** If the master keys of two states of a run differ, and the first had any, some operation replaced them. */
  lemma {:induction false} DifferingIsReplaced(env: Env, t: Tables, ops: seq<Op>, u: User)
    requires Replaced(t.keys, Run(env, t, ops).keys, u)
    ensures SomeReplaced(env, t, ops, u)
  {
    hide SomeReplaced;
    var front := ops[..|ops| - 1];
    OneMoreReplaced(env, t, ops, u);
    if u in Run(env, t, front).keys && Run(env, t, front).keys[u].master.keys != t.keys[u].master.keys {
      DifferingIsReplaced(env, t, front, u);
    } else {
      StaysTracked(env, t, front, u);
    }
  }

  lemma {:induction false} StaysTracked(env: Env, t: Tables, ops: seq<Op>, u: User)
    requires u in t.keys
    ensures u in Run(env, t, ops).keys
  {
    if ops != [] {
      hide UpdateEntry, Fresh;
      StaysTracked(env, t, ops[..|ops| - 1], u);
    }
  }

  // ----- Queries racing with marks -----

  /** The token of the last mark of a user in the run; empty when there is none. */
  function LatestMark(ops: seq<Op>, u: User): Token {
    if ops == [] then "" else
    var op := ops[|ops| - 1];
    if op.DoMark? && u in op.users && Markable(u) then op.token else LatestMark(ops[..|ops| - 1], u)
  }

  /** The entry holds what the update said; of its devices only some. */
  ghost predicate HoldsFrom(e: Entry, up: Update) {
    && e.master == up.master && e.userSigning == up.userSigning && e.selfSigning == up.selfSigning
    && forall id :: id in e.devices ==> id in up.devices && e.devices[id] == up.devices[id]
  }

  ghost predicate Answered(ops: seq<Op>, u: User, e: Entry) {
    exists n :: 0 <= n < |ops| && ops[n].DoUpdate? && u in ops[n].response
                && ops[n].token == e.updatedAt && HoldsFrom(e, ops[n].response[u])
  }

  lemma {:induction false} AcceptsOnlySent(env: Env, u: User, e: Entry, devices: map<DeviceId, Device>,
                                           ids: seq<DeviceId>)
    requires forall id :: id in ids ==> id in devices
    ensures var f := FilterFold(env, u, e, devices, ids);
            forall id :: id in f.accepted ==> id in devices && f.accepted[id] == devices[id]
  {
    if ids != [] {
      hide WellSigned, Reused;
      AcceptsOnlySent(env, u, e, devices, ids[..|ids| - 1]);
    }
  }

  lemma AnsweredGrows(ops: seq<Op>, op: Op, u: User, e: Entry, e': Entry)
    requires Answered(ops, u, e) && e' == e.(lastChanged := e'.lastChanged)
    ensures Answered(ops + [op], u, e')
  {
    var n :| 0 <= n < |ops| && ops[n].DoUpdate? && u in ops[n].response
             && ops[n].token == e.updatedAt && HoldsFrom(e, ops[n].response[u]);
    assert (ops + [op])[n] == ops[n];
  }

  lemma StoreAnswers(env: Env, u: User, was: Option<Entry>, token: Token, up: Update)
    ensures var e := UpdateEntry(env, u, was, token, up);
            && e.lastChanged == (if was.Some? then was.value.lastChanged else "")
            && if was.None? || was.value.lastChanged == "" || was.value.lastChanged == token
               then e.updatedAt == token && HoldsFrom(e, up)
               else was == Some(e)
  {
    if was.Some? {
      AcceptsOnlySent(env, u, was.value, up.devices, SortedKeys(up.devices.Keys));
    }
    hide FilterFold;
  }

  /** What one operation does to one entry. */
  lemma StepEntry(env: Env, t: Tables, op: Op, u: User)
    ensures EntryOf(Apply(env, t, op).keys, u) ==
            if op.DoUpdate? && u in op.response
            then Some(UpdateEntry(env, u, EntryOf(t.keys, u), op.token, op.response[u]))
            else if op.DoMark? && u in op.users && Markable(u) then Some(MarkEntry(EntryOf(t.keys, u), op.token))
            else EntryOf(t.keys, u)
  {
    hide UpdateEntry, MarkEntry, Fresh;
  }

  /** Over every run, whatever the order of marks and answers: an entry carries the token of the latest
      mark, and an entry that has been answered holds what an answer with its own token said. */
  lemma {:induction false} EntriesAnswered(env: Env, ops: seq<Op>, u: User)
    requires u in Run(env, EMPTY_TABLES, ops).keys
    ensures var e := Run(env, EMPTY_TABLES, ops).keys[u];
            && e.lastChanged == LatestMark(ops, u)
            && (e.updatedAt != "" ==> Answered(ops, u, e))
  {
    hide UpdateEntry, Apply, Answered, HoldsFrom;
    var front, op := ops[..|ops| - 1], ops[|ops| - 1];
    assert ops == front + [op];
    var t := Run(env, EMPTY_TABLES, front);
    StepEntry(env, t, op, u);
    var e := Run(env, EMPTY_TABLES, ops).keys[u];
    if u in t.keys {
      EntriesAnswered(env, front, u);
    } else {
      NeverMarked(env, front, u);
    }
    if op.DoUpdate? && u in op.response {
      StoreAnswers(env, u, EntryOf(t.keys, u), op.token, op.response[u]);
      if e.updatedAt == op.token && HoldsFrom(e, op.response[u]) {
        AnsweredNow(front, op, u, e);
      }
    }
    if u in t.keys && e == t.keys[u].(lastChanged := e.lastChanged) && t.keys[u].updatedAt != "" {
      AnsweredGrows(front, op, u, t.keys[u], e);
    }
  }

  lemma AnsweredNow(front: seq<Op>, op: Op, u: User, e: Entry)
    requires op.DoUpdate? && u in op.response && e.updatedAt == op.token && HoldsFrom(e, op.response[u])
    ensures Answered(front + [op], u, e)
  {
    assert (front + [op])[|front|] == op;
  }

  lemma {:induction false} NeverMarked(env: Env, ops: seq<Op>, u: User)
    requires u !in Run(env, EMPTY_TABLES, ops).keys
    ensures LatestMark(ops, u) == ""
  {
    if ops != [] {
      hide UpdateEntry, Fresh;
      NeverMarked(env, ops[..|ops| - 1], u);
    }
  }

  /** So an entry that counts as up to date holds keys from an answer to the latest mark. */
  lemma UpToDateMeansLatest(env: Env, ops: seq<Op>, u: User)
    requires u in Run(env, EMPTY_TABLES, ops).keys
    requires var e := Run(env, EMPTY_TABLES, ops).keys[u]; e.updatedAt == e.lastChanged && e.lastChanged != ""
    ensures exists n :: 0 <= n < |ops| && ops[n].DoUpdate? && u in ops[n].response
                        && ops[n].token == LatestMark(ops, u)
                              && HoldsFrom(Run(env, EMPTY_TABLES, ops).keys[u], ops[n].response[u])
  {
    EntriesAnswered(env, ops, u);
  }

  /** The answer is stored: there has been no mark, or it has the token of the latest one. */
  predicate Counts(ops: seq<Op>, n: nat, u: User)
    requires n < |ops|
  {
    && ops[n].DoUpdate? && u in ops[n].response
    && (LatestMark(ops[..n], u) == "" || LatestMark(ops[..n], u) == ops[n].token)
  }

  /** One operation leaves what an entry holds, unless it is an answer that counts, which it then holds. */
  lemma StepHolds(env: Env, ops: seq<Op>, u: User)
    requires ops != []
    ensures var front, last := ops[..|ops| - 1], |ops| - 1;
            var t, t' := Run(env, EMPTY_TABLES, front), Run(env, EMPTY_TABLES, ops);
            if Counts(ops, last, u) then
              && u in t'.keys && t'.keys[u].updatedAt == ops[last].token && HoldsFrom(t'.keys[u], ops[last].response[u])
            else
              && (u in t.keys ==> u in t'.keys)
              && (u in t'.keys ==>
                    var e := if u in t.keys then t.keys[u] else NO_ENTRY;
                    t'.keys[u] == e.(lastChanged := t'.keys[u].lastChanged))
  {
    hide UpdateEntry, Fresh, HoldsFrom;
    var front, op := ops[..|ops| - 1], ops[|ops| - 1];
    var t := Run(env, EMPTY_TABLES, front);
    if u in t.keys {
      EntriesAnswered(env, front, u);
    } else {
      NeverMarked(env, front, u);
    }
    if op.DoUpdate? && u in op.response {
      StoreAnswers(env, u, EntryOf(t.keys, u), op.token, op.response[u]);
    }
  }

  /** Over every run an entry holds the last answer that counts, and its token. */
  lemma {:induction false} LastAnswerHeld(env: Env, ops: seq<Op>, n: nat, u: User)
    requires n < |ops| && Counts(ops, n, u) && forall m :: n < m < |ops| ==> !Counts(ops, m, u)
    ensures var keys := Run(env, EMPTY_TABLES, ops).keys;
            u in keys && keys[u].updatedAt == ops[n].token && HoldsFrom(keys[u], ops[n].response[u])
  {
    hide Run, Counts;
    StepHolds(env, ops, u);
    var front := ops[..|ops| - 1];
    if n < |front| {
      CountsEarlier(ops, u);
      LastAnswerHeld(env, front, n, u);
    }
  }

  lemma CountsEarlier(ops: seq<Op>, u: User)
    requires ops != []
    ensures var front := ops[..|ops| - 1]; forall m :: 0 <= m < |front| ==> (Counts(front, m, u) <==> Counts(ops, m, u))
  {
    var front := ops[..|ops| - 1];
    forall m | 0 <= m < |front|
      ensures Counts(front, m, u) <==> Counts(ops, m, u)
    {
      assert front[..m] == ops[..m];
    }
  }

  /** An entry without such an answer holds nothing but the latest mark. */
  lemma {:induction false} UnansweredIsEmpty(env: Env, ops: seq<Op>, u: User)
    requires u in Run(env, EMPTY_TABLES, ops).keys && forall m :: 0 <= m < |ops| ==> !Counts(ops, m, u)
    ensures Run(env, EMPTY_TABLES, ops).keys[u] == NO_ENTRY.(lastChanged := LatestMark(ops, u))
  {
    EntriesAnswered(env, ops, u);
    StepHolds(env, ops, u);
    hide Counts, Apply, Answered;
    var front := ops[..|ops| - 1];
    if u in Run(env, EMPTY_TABLES, front).keys {
      CountsEarlier(ops, u);
      UnansweredIsEmpty(env, front, u);
    }
  }
}
