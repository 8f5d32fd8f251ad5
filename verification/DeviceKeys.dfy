/** Device lists and the verification statuses computed from them (`src/Cache.cpp`).

    Signature checks are parameters of the environment. A `std::map` is iterated in key order.
*/
module DeviceKeys {
  import opened Wrappers
  import opened Order

  type User = string
  type DeviceId = string
  type KeyId = string
  type PublicKey = string
  type Signature = string
  type Token = string

  datatype Device = Device(deviceId: DeviceId, keys: map<KeyId, PublicKey>,
                           signatures: map<User, map<KeyId, Signature>>)
  datatype CrossKeys = CrossKeys(keys: map<KeyId, PublicKey>, signatures: map<User, map<KeyId, Signature>>)

  const NO_KEYS := CrossKeys(map[], map[])

  /** `UserKeyCache`. */
  datatype Entry = Entry(
    devices: map<DeviceId, Device>, master: CrossKeys, userSigning: CrossKeys, selfSigning: CrossKeys,
    updatedAt: Token, lastChanged: Token, masterKeyChanged: bool, seenKeys: set<PublicKey>, seenIds: set<DeviceId>)

  const NO_ENTRY := Entry(map[], NO_KEYS, NO_KEYS, NO_KEYS, "", "", false, {}, {})

  /** What a key query says about one user. */
  datatype Update = Update(devices: map<DeviceId, Device>, master: CrossKeys, userSigning: CrossKeys,
                           selfSigning: CrossKeys)

  datatype Env = Env(
    localUser: User, localDevice: DeviceId, identityKey: PublicKey,
    verifyDevice: (PublicKey, Device, Signature) -> bool, verifyCross: (PublicKey, CrossKeys, Signature) -> bool)

  // ----- Accepting devices -----

  datatype Filter = Filter(accepted: map<DeviceId, Device>, seenKeys: set<PublicKey>, seenIds: set<DeviceId>)

  predicate Reused(f: Filter, id: DeviceId, d: Device) {
    exists k :: k in d.keys && (d.keys[k] in f.seenKeys || id in f.seenIds)
  }

  /** The device signs itself and carries both of its keys. */
  predicate WellSigned(env: Env, user: User, id: DeviceId, d: Device) {
    var signing := "ed25519:" + d.deviceId;
    && id == d.deviceId
    && user in d.signatures && signing in d.signatures[user]
    && signing in d.keys && "curve25519:" + id in d.keys
    && env.verifyDevice(d.keys[signing], d, d.signatures[user][signing])
  }

  function See(f: Filter, id: DeviceId, d: Device): Filter {
    f.(seenKeys := f.seenKeys + d.keys.Values, seenIds := f.seenIds + {id})
  }

  function FilterStep(env: Env, user: User, before: map<DeviceId, Device>, f: Filter, id: DeviceId, d: Device): Filter {
    if id in before && before[id].keys == d.keys then See(f.(accepted := f.accepted[id := d]), id, d)
    else if !Reused(f, id, d) && id !in before then
      if WellSigned(env, user, id, d) then See(f.(accepted := f.accepted[id := d]), id, d) else f
    else See(f, id, d)
  }

  function FilterFold(env: Env, user: User, e: Entry, devices: map<DeviceId, Device>, ids: seq<DeviceId>): Filter
    requires forall id :: id in ids ==> id in devices
  {
    if ids == [] then Filter(map[], e.seenKeys, e.seenIds) else
    var last := ids[|ids| - 1];
    FilterStep(env, user, e.devices, FilterFold(env, user, e, devices, ids[..|ids| - 1]), last, devices[last])
  }

  /** `updateUserKeys` for one user. */
  function UpdateEntry(env: Env, user: User, was: Option<Entry>, token: Token, u: Update): Entry {
    if was.None? then NO_ENTRY.(devices := u.devices, master := u.master, userSigning := u.userSigning,
                                selfSigning := u.selfSigning, updatedAt := token)
    else
      var e := was.value;
      if e.lastChanged != "" && e.lastChanged != token then e else
      var f := FilterFold(env, user, e, u.devices, SortedKeys(u.devices.Keys));
      Entry(f.accepted, u.master, u.userSigning, u.selfSigning, token, e.lastChanged,
            e.masterKeyChanged || (e.master.keys != map[] && u.master.keys != e.master.keys), f.seenKeys, f.seenIds)
  }

  function EntryOf(keys: map<User, Entry>, u: User): Option<Entry> {
    if u in keys then Some(keys[u]) else None
  }

  function UpdateKeys(env: Env, keys: map<User, Entry>, token: Token, response: map<User, Update>): map<User, Entry> {
    map u | u in keys.Keys + response.Keys ::
      if u in response then UpdateEntry(env, u, EntryOf(keys, u), token, response[u]) else keys[u]
  }

  /** User ids that are too long are skipped. */
  predicate Markable(u: User) {
    |u| <= 255
  }

  function MarkEntry(was: Option<Entry>, token: Token): Entry {
    (if was.Some? then was.value else NO_ENTRY).(lastChanged := token)
  }

  function MarkKeys(keys: map<User, Entry>, users: set<User>, token: Token): map<User, Entry> {
    map u | u in keys.Keys + (set v | v in users && Markable(v)) ::
      if u in users && Markable(u) then MarkEntry(EntryOf(keys, u), token) else keys[u]
  }

  // ----- Verification status -----

  datatype Trust = Unverified | TOFU | Verified

  datatype Status = Status(
    userVerified: Trust, verifiedDevices: set<DeviceId>, verifiedDeviceKeys: map<PublicKey, Trust>,
    unverifiedDeviceCount: int, noKeys: bool)

  /** Some signature by `owner` verifies with one of the keys. */
  predicate CrossSigned(env: Env, c: CrossKeys, keys: map<KeyId, PublicKey>, owner: User) {
    owner in c.signatures &&
    exists k :: k in c.signatures[owner] && k in keys && env.verifyCross(keys[k], c, c.signatures[owner][k])
  }

  predicate DeviceSigned(env: Env, d: Device, keys: map<KeyId, PublicKey>, owner: User) {
    owner in d.signatures &&
    exists k :: k in d.signatures[owner] && k in keys && env.verifyDevice(keys[k], d, d.signatures[owner][k])
  }

  /** This device signed our master key. */
  predicate OwnMasterSigned(env: Env, ours: Entry) {
    var key := "ed25519:" + env.localDevice;
    && env.localUser in ours.master.signatures && key in ours.master.signatures[env.localUser]
    && env.verifyCross(env.identityKey, ours.master, ours.master.signatures[env.localUser][key])
  }

  /** Our master key signed our user signing key, which signed their master key. */
  predicate TheirMasterVerified(env: Env, ours: Entry, theirs: Entry) {
    && CrossSigned(env, ours.userSigning, ours.master.keys, env.localUser)
    && CrossSigned(env, theirs.master, ours.userSigning.keys, env.localUser)
  }

  predicate DeviceTrusted(env: Env, theirs: Entry, u: User, d: Device) {
    "curve25519:" + d.deviceId in d.keys && DeviceSigned(env, d, theirs.selfSigning.keys, u)
  }

  /** Devices of the list whose id is not among the verified ones. */
  function UnverifiedCount(verified: set<DeviceId>, devices: map<DeviceId, Device>): int {
    |devices| - |verified * devices.Keys|
  }

  function TrustedIds(env: Env, theirs: Entry, u: User): set<DeviceId> {
    set id | id in theirs.devices && DeviceTrusted(env, theirs, u, theirs.devices[id]) :: theirs.devices[id].deviceId
  }

  function TrustedKeys(env: Env, theirs: Entry, u: User): set<PublicKey> {
    set id | id in theirs.devices && DeviceTrusted(env, theirs, u, theirs.devices[id]) ::
      theirs.devices[id].keys["curve25519:" + theirs.devices[id].deviceId]
  }

  /** The status computed from scratch. */
  function Fresh(env: Env, keys: map<User, Entry>, verified: map<User, set<DeviceId>>, u: User): Status {
    var local := if u == env.localUser then {env.localDevice} else {};
    var base := Status(Unverified, (if u in verified then verified[u] else {}) + local, map[], 1, u !in keys);
    if env.localUser !in keys || u !in keys then base else
    var ours, theirs := keys[env.localUser], keys[u];
    var counted := base.(unverifiedDeviceCount := UnverifiedCount(base.verifiedDevices, theirs.devices));
    if !OwnMasterSigned(env, ours) then counted else
    var mastered := u == env.localUser || TheirMasterVerified(env, ours, theirs);
    if !mastered && theirs.masterKeyChanged then counted else
    var trust := if mastered then Verified else TOFU;
    var trusted := counted.(userVerified := trust);
    if !CrossSigned(env, theirs.selfSigning, theirs.master.keys, u) then trusted else
    var devices := trusted.verifiedDevices + TrustedIds(env, theirs, u);
    trusted.(verifiedDevices := devices,
             verifiedDeviceKeys := map k | k in TrustedKeys(env, theirs, u) :: trust,
             unverifiedDeviceCount := UnverifiedCount(devices, theirs.devices))
  }

  // ----- The three tables together -----

  datatype Tables = Tables(keys: map<User, Entry>, verified: map<User, set<DeviceId>>, memo: map<User, Status>)

  const EMPTY_TABLES := Tables(map[], map[], map[])

  /** A change to our own user forgets every status. */
  function Forget(env: Env, memo: map<User, Status>, users: set<User>): map<User, Status> {
    if env.localUser in users then map[] else memo - users
  }

  datatype Op =
    | DoUpdate(token: Token, response: map<User, Update>)
    | DoMark(users: set<User>, token: Token)
    | DoVerify(user: User, device: DeviceId)
    | DoUnverify(user: User, device: DeviceId)
    | DoLookup(user: User)

  function VerifiedOf(verified: map<User, set<DeviceId>>, u: User): set<DeviceId> {
    if u in verified then verified[u] else {}
  }

  function Apply(env: Env, t: Tables, op: Op): Tables {
    match op
    case DoUpdate(token, response) =>
      t.(keys := UpdateKeys(env, t.keys, token, response), memo := Forget(env, t.memo, response.Keys))
    case DoMark(users, token) => t.(keys := MarkKeys(t.keys, users, token))
    case DoVerify(u, d) =>
      if d in VerifiedOf(t.verified, u) then t
      else t.(verified := t.verified[u := VerifiedOf(t.verified, u) + {d}], memo := Forget(env, t.memo, {u}))
    case DoUnverify(u, d) =>
      t.(verified := t.verified[u := VerifiedOf(t.verified, u) - {d}], memo := Forget(env, t.memo, {u}))
    case DoLookup(u) =>
      if u in t.memo then t else t.(memo := t.memo[u := Fresh(env, t.keys, t.verified, u)])
  }

  function Run(env: Env, t: Tables, ops: seq<Op>): Tables {
    if ops == [] then t else Apply(env, Run(env, t, ops[..|ops| - 1]), ops[|ops| - 1])
  }
}
