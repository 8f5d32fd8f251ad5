/** The memoised verification statuses against recomputation (`src/Cache.cpp`, `verificationStatus_`). */
module StatusResults {
  import opened Wrappers
  import opened DeviceKeys
  import opened DeviceKeyResults

  /** Every memoised status is what would be computed now. */
  ghost predicate Coherent(env: Env, t: Tables) {
    forall u :: u in t.memo ==> t.memo[u] == Fresh(env, t.keys, t.verified, u)
  }

  /** Two key tables that look alike to the status of `u`. */
  ghost predicate LooksAlike(env: Env, a: map<User, Entry>, b: map<User, Entry>, u: User) {
    forall v :: v == u || v == env.localUser ==>
      && (v in a <==> v in b)
      && (v in a ==> a[v] == b[v].(lastChanged := a[v].lastChanged))
  }

  lemma FreshLooksAlike(env: Env, a: map<User, Entry>, b: map<User, Entry>,
                         verified: map<User, set<DeviceId>>, verified': map<User, set<DeviceId>>, u: User)
    requires LooksAlike(env, a, b, u)
    requires VerifiedOf(verified, u) == VerifiedOf(verified', u)
    ensures Fresh(env, a, verified, u) == Fresh(env, b, verified', u)
  {
    if u in a && env.localUser in a {
      var ours, ours', theirs, theirs' := a[env.localUser], b[env.localUser], a[u], b[u];
      assert OwnMasterSigned(env, ours) == OwnMasterSigned(env, ours');
      assert TheirMasterVerified(env, ours, theirs) == TheirMasterVerified(env, ours', theirs');
      assert TrustedIds(env, theirs, u) == TrustedIds(env, theirs', u);
      assert TrustedKeys(env, theirs, u) == TrustedKeys(env, theirs', u);
      hide OwnMasterSigned, TheirMasterVerified, TrustedIds, TrustedKeys, CrossSigned, UnverifiedCount;
    }
  }

  predicate NewlyTracked(t: Tables, users: set<User>, u: User) {
    u in users && Markable(u) && u !in t.keys
  }

  /** No memoised user becomes tracked, and if our own user does, every memoised user that was tracked had
      exactly one device that is not verified locally, which is what is assumed while our keys are unknown. */
  predicate HarmlessMark(env: Env, t: Tables, users: set<User>) {
    forall u :: u in t.memo ==>
      && !NewlyTracked(t, users, u)
      && (NewlyTracked(t, users, env.localUser) && u in t.keys ==>
            UnverifiedCount(VerifiedOf(t.verified, u), t.keys[u].devices) == 1)
  }

  lemma NoKeysMeansUntracked(env: Env, keys: map<User, Entry>, verified: map<User, set<DeviceId>>, u: User)
    ensures Fresh(env, keys, verified, u).noKeys <==> u !in keys
  {
  }

  /** While our own keys are unknown nothing is trusted and one unverified device is assumed. */
  lemma WithoutOwnKeys(env: Env, keys: map<User, Entry>, verified: map<User, set<DeviceId>>, u: User)
    requires env.localUser !in keys && u != env.localUser
    ensures Fresh(env, keys, verified, u) == Status(Unverified, VerifiedOf(verified, u), map[], 1, u !in keys)
  {
  }

  /** Once our own user is tracked without any keys the devices are counted, and nothing more. */
  lemma WithEmptyOwnKeys(env: Env, keys: map<User, Entry>, verified: map<User, set<DeviceId>>, u: User)
    requires env.localUser in keys && keys[env.localUser].master == NO_KEYS && u != env.localUser
    ensures Fresh(env, keys, verified, u) ==
            Status(Unverified, VerifiedOf(verified, u), map[],
                   if u in keys then UnverifiedCount(VerifiedOf(verified, u), keys[u].devices) else 1, u !in keys)
  {
    assert !OwnMasterSigned(env, keys[env.localUser]);
  }

  /** One memoised status after a mark. */
  lemma MarkedStatus(env: Env, t: Tables, users: set<User>, token: Token, u: User)
    requires u in t.memo && t.memo[u] == Fresh(env, t.keys, t.verified, u)
    ensures var keys := MarkKeys(t.keys, users, token);
            t.memo[u] == Fresh(env, keys, t.verified, u) <==>
            && !NewlyTracked(t, users, u)
            && (NewlyTracked(t, users, env.localUser) && u in t.keys ==>
                  UnverifiedCount(VerifiedOf(t.verified, u), t.keys[u].devices) == 1)
  {
    var keys := MarkKeys(t.keys, users, token);
    if NewlyTracked(t, users, u) {
      NoKeysMeansUntracked(env, t.keys, t.verified, u);
      NoKeysMeansUntracked(env, keys, t.verified, u);
    } else if NewlyTracked(t, users, env.localUser) {
      WithoutOwnKeys(env, t.keys, t.verified, u);
      WithEmptyOwnKeys(env, keys, t.verified, u);
    } else {
      FreshLooksAlike(env, keys, t.keys, t.verified, t.verified, u);
    }
    hide Fresh;
  }

  /** A mark keeps the memo fresh exactly when it is harmless. */
  lemma MarkCoherentIff(env: Env, t: Tables, users: set<User>, token: Token)
    requires Coherent(env, t)
    ensures Coherent(env, Apply(env, t, DoMark(users, token))) <==> HarmlessMark(env, t, users)
  {
    hide Fresh, MarkKeys, NewlyTracked, UnverifiedCount;
    forall u | u in t.memo
      ensures t.memo[u] == Fresh(env, MarkKeys(t.keys, users, token), t.verified, u) <==>
              && !NewlyTracked(t, users, u)
              && (NewlyTracked(t, users, env.localUser) && u in t.keys ==>
                    UnverifiedCount(VerifiedOf(t.verified, u), t.keys[u].devices) == 1)
    {
      MarkedStatus(env, t, users, token, u);
    }
  }

  predicate Harmless(env: Env, t: Tables, op: Op) {
    op.DoMark? ==> HarmlessMark(env, t, op.users)
  }

  /** Every other operation keeps it fresh. */
  lemma ApplyCoherentIff(env: Env, t: Tables, op: Op)
    requires Coherent(env, t)
    ensures Coherent(env, Apply(env, t, op)) <==> Harmless(env, t, op)
  {
    hide Fresh, UpdateEntry, HarmlessMark;
    if op.DoMark? {
      MarkCoherentIff(env, t, op.users, op.token);
    } else {
      var t' := Apply(env, t, op);
      forall u | u in t'.memo && u in t.memo
        ensures Fresh(env, t'.keys, t'.verified, u) == Fresh(env, t.keys, t.verified, u)
      {
        FreshLooksAlike(env, t'.keys, t.keys, t'.verified, t.verified, u);
      }
    }
  }

  predicate HarmlessRun(env: Env, t: Tables, ops: seq<Op>) {
    ops == [] ||
    (HarmlessRun(env, t, ops[..|ops| - 1]) && Harmless(env, Run(env, t, ops[..|ops| - 1]), ops[|ops| - 1]))
  }

  /** The memo is fresh after each of the operations. */
  ghost predicate AlwaysCoherent(env: Env, t: Tables, ops: seq<Op>) {
    && Coherent(env, Run(env, t, ops))
    && (ops != [] ==> AlwaysCoherent(env, t, ops[..|ops| - 1]))
  }

  /** Over every run of queries, verifications, lookups and marks the memo is fresh throughout exactly when
      every mark is harmless where it happens. */
  lemma {:induction false} MemoStaysFreshIff(env: Env, t: Tables, ops: seq<Op>)
    requires Coherent(env, t)
    ensures AlwaysCoherent(env, t, ops) <==> HarmlessRun(env, t, ops)
  {
    hide Coherent, Apply, Harmless;
    if ops != [] {
      MemoStaysFreshIff(env, t, ops[..|ops| - 1]);
      if HarmlessRun(env, t, ops[..|ops| - 1]) {
        ApplyCoherentIff(env, Run(env, t, ops[..|ops| - 1]), ops[|ops| - 1]);
      }
    }
  }

  lemma CardinalitySplits<T>(a: set<T>, b: set<T>)
    ensures |b| - |a * b| == |b - a|
  {
    assert b == (a * b) + (b - a) && (a * b) !! (b - a);
    assert |(a * b) + (b - a)| == |a * b| + |b - a|;
  }

  /** When both users' keys are known, the count is the number of their devices that are not verified. */
  lemma CountIsOfUnverified(env: Env, keys: map<User, Entry>, verified: map<User, set<DeviceId>>, u: User)
    requires u in keys && env.localUser in keys
    ensures var s := Fresh(env, keys, verified, u);
            s.unverifiedDeviceCount == |set id | id in keys[u].devices && id !in s.verifiedDevices|
  {
    var s := Fresh(env, keys, verified, u);
    var devices := keys[u].devices;
    assert s.unverifiedDeviceCount == UnverifiedCount(s.verifiedDevices, devices);
    CardinalitySplits(s.verifiedDevices, devices.Keys);
    assert (set id | id in devices && id !in s.verifiedDevices) == devices.Keys - s.verifiedDevices;
    assert |devices| == |devices.Keys|;
  }

  /** The keys of the user can be judged: both users are tracked and this device signed our master key. */
  ghost predicate Judged(env: Env, keys: map<User, Entry>, u: User) {
    && u in keys && env.localUser in keys
    && var master, key := keys[env.localUser].master, "ed25519:" + env.localDevice;
       && env.localUser in master.signatures && key in master.signatures[env.localUser]
       && env.verifyCross(env.identityKey, master, master.signatures[env.localUser][key])
  }

  /** The user is our own, or our master key signed our user signing key and that their master key. */
  ghost predicate Connected(env: Env, keys: map<User, Entry>, u: User)
    requires u in keys && env.localUser in keys
  {
    u == env.localUser ||
    (CrossSigned(env, keys[env.localUser].userSigning, keys[env.localUser].master.keys, env.localUser) &&
     CrossSigned(env, keys[u].master, keys[env.localUser].userSigning.keys, env.localUser))
  }

  /** The chain of signatures to the device listed under `id`: our device, our master key, for another user
      our user signing key and their master key (or a master key that never changed), then their self
      signing key and the device. */
  ghost predicate ChainTo(env: Env, keys: map<User, Entry>, u: User, id: DeviceId) {
    && Judged(env, keys, u)
    && (Connected(env, keys, u) || !keys[u].masterKeyChanged)
    && CrossSigned(env, keys[u].selfSigning, keys[u].master.keys, u)
    && id in keys[u].devices
    && "curve25519:" + keys[u].devices[id].deviceId in keys[u].devices[id].keys
    && DeviceSigned(env, keys[u].devices[id], keys[u].selfSigning.keys, u)
  }

  /** A device with this curve key, and one with this id, at the end of a chain. */
  ghost predicate Chained(env: Env, keys: map<User, Entry>, u: User, k: PublicKey) {
    exists id :: ChainTo(env, keys, u, id)
                 && keys[u].devices[id].keys["curve25519:" + keys[u].devices[id].deviceId] == k
  }

  ghost predicate ChainedDevice(env: Env, keys: map<User, Entry>, u: User, d: DeviceId) {
    exists id :: ChainTo(env, keys, u, id) && keys[u].devices[id].deviceId == d
  }

  /** A device key is trusted exactly when its chain is unbroken, and as much as its user. */
  lemma TrustIffChain(env: Env, keys: map<User, Entry>, verified: map<User, set<DeviceId>>, u: User, k: PublicKey)
    ensures var s := Fresh(env, keys, verified, u);
            && (k in s.verifiedDeviceKeys <==> Chained(env, keys, u, k))
            && (k in s.verifiedDeviceKeys ==> s.verifiedDeviceKeys[k] == s.userVerified)
  {
    ChainsMeet(env, keys, u);
    hide OwnMasterSigned, CrossSigned, DeviceSigned, TheirMasterVerified, TrustedIds, UnverifiedCount;
    hide Judged, Connected;
    if u in keys && env.localUser in keys {
      assert k in TrustedKeys(env, keys[u], u) <==>
             exists id :: id in keys[u].devices && DeviceTrusted(env, keys[u], u, keys[u].devices[id])
                          && keys[u].devices[id].keys["curve25519:" + keys[u].devices[id].deviceId] == k;
    }
  }

  lemma ChainsMeet(env: Env, keys: map<User, Entry>, u: User)
    ensures Judged(env, keys, u) <==>
            u in keys && env.localUser in keys && OwnMasterSigned(env, keys[env.localUser])
    ensures u in keys && env.localUser in keys ==>
              (Connected(env, keys, u) <==>
               u == env.localUser || TheirMasterVerified(env, keys[env.localUser], keys[u]))
  {
    hide CrossSigned;
  }

  /** The user is verified exactly when its keys can be judged and it is connected, and trusted on first use
      exactly when it is not connected but its master key never changed. */
  lemma UserTrustIff(env: Env, keys: map<User, Entry>, verified: map<User, set<DeviceId>>, u: User)
    ensures Fresh(env, keys, verified, u).userVerified == Verified <==>
            Judged(env, keys, u) && Connected(env, keys, u)
    ensures Fresh(env, keys, verified, u).userVerified == TOFU <==>
            Judged(env, keys, u) && !Connected(env, keys, u) && !keys[u].masterKeyChanged
  {
    ChainsMeet(env, keys, u);
    hide OwnMasterSigned, CrossSigned, TheirMasterVerified, TrustedIds, TrustedKeys, UnverifiedCount, Judged, Connected;
  }

  /** A device is verified exactly when it was verified locally, is this device, or has an unbroken chain. */
  lemma VerifiedDevicesIff(env: Env, keys: map<User, Entry>, verified: map<User, set<DeviceId>>, u: User, d: DeviceId)
    ensures d in Fresh(env, keys, verified, u).verifiedDevices <==>
            || d in VerifiedOf(verified, u) || (u == env.localUser && d == env.localDevice)
            || ChainedDevice(env, keys, u, d)
  {
    ChainsMeet(env, keys, u);
    hide OwnMasterSigned, CrossSigned, DeviceSigned, TheirMasterVerified, TrustedKeys, UnverifiedCount;
    hide Judged, Connected;
  }

  /** What `verificationStatus` answers. */
  function Reported(env: Env, t: Tables, u: User): Status {
    if u in t.memo then t.memo[u] else Fresh(env, t.keys, t.verified, u)
  }

  /** After every run with harmless marks, whether memoised or not, a device key is reported as trusted
      exactly when its chain is unbroken in the keys held then, and as much as its user. */
  lemma ReportedTrustIff(env: Env, ops: seq<Op>, u: User, k: PublicKey)
    requires HarmlessRun(env, EMPTY_TABLES, ops)
    ensures var t := Run(env, EMPTY_TABLES, ops);
            var s := Reported(env, t, u);
            && (k in s.verifiedDeviceKeys <==> Chained(env, t.keys, u, k))
            && (k in s.verifiedDeviceKeys ==> s.verifiedDeviceKeys[k] == s.userVerified)
  {
    hide Fresh, Chained, Run, HarmlessRun;
    var t := Run(env, EMPTY_TABLES, ops);
    TrustIffChain(env, t.keys, t.verified, u, k);
    ReportedIsFresh(env, ops, u);
  }

  lemma ReportedIsFresh(env: Env, ops: seq<Op>, u: User)
    requires HarmlessRun(env, EMPTY_TABLES, ops)
    ensures var t := Run(env, EMPTY_TABLES, ops); Reported(env, t, u) == Fresh(env, t.keys, t.verified, u)
  {
    hide Fresh, Run, HarmlessRun;
    MemoStaysFreshIff(env, EMPTY_TABLES, ops);
    assert Coherent(env, Run(env, EMPTY_TABLES, ops));
  }

  /** What the rest of a reported status means after such a run. */
  lemma ReportedStatusIff(env: Env, ops: seq<Op>, u: User)
    requires HarmlessRun(env, EMPTY_TABLES, ops)
    ensures var t := Run(env, EMPTY_TABLES, ops);
            var s := Reported(env, t, u);
            && (s.userVerified == Verified <==> Judged(env, t.keys, u) && Connected(env, t.keys, u))
            && (s.userVerified == TOFU <==>
                  Judged(env, t.keys, u) && !Connected(env, t.keys, u) && !t.keys[u].masterKeyChanged)
            && (forall d :: d in s.verifiedDevices <==>
                  || d in VerifiedOf(t.verified, u) || (u == env.localUser && d == env.localDevice)
                  || ChainedDevice(env, t.keys, u, d))
            && s.unverifiedDeviceCount == (if u in t.keys && env.localUser in t.keys
                                           then |set id | id in t.keys[u].devices && id !in s.verifiedDevices| else 1)
            && (s.noKeys <==> u !in t.keys)
  {
    hide Fresh, Run, HarmlessRun, ChainedDevice, Connected;
    ReportedIsFresh(env, ops, u);
    var t := Run(env, EMPTY_TABLES, ops);
    UserTrustIff(env, t.keys, t.verified, u);
    NoKeysMeansUntracked(env, t.keys, t.verified, u);
    if u in t.keys && env.localUser in t.keys {
      CountIsOfUnverified(env, t.keys, t.verified, u);
    } else {
      OneAssumed(env, t.keys, t.verified, u);
    }
    forall d
      ensures d in Reported(env, t, u).verifiedDevices <==>
              || d in VerifiedOf(t.verified, u) || (u == env.localUser && d == env.localDevice)
              || ChainedDevice(env, t.keys, u, d)
    {
      VerifiedDevicesIff(env, t.keys, t.verified, u, d);
    }
  }

  lemma OneAssumed(env: Env, keys: map<User, Entry>, verified: map<User, set<DeviceId>>, u: User)
    requires u !in keys || env.localUser !in keys
    ensures Fresh(env, keys, verified, u).unverifiedDeviceCount == 1
  {
  }

  /** The last verification or unverification of the device by hand, if any, was a verification. */
  predicate MarkedVerified(ops: seq<Op>, u: User, d: DeviceId) {
    ops != [] &&
    var op := ops[|ops| - 1];
    if op == DoVerify(u, d) then true
    else if op == DoUnverify(u, d) then false
    else MarkedVerified(ops[..|ops| - 1], u, d)
  }

  /** Over every run a device counts as verified locally exactly when the last word on it says so. */
  lemma {:induction false} VerifiedLocallyIff(env: Env, ops: seq<Op>, u: User, d: DeviceId)
    ensures d in VerifiedOf(Run(env, EMPTY_TABLES, ops).verified, u) <==> MarkedVerified(ops, u, d)
  {
    hide Fresh, UpdateKeys, MarkKeys;
    if ops != [] {
      VerifiedLocallyIff(env, ops[..|ops| - 1], u, d);
    }
  }

  /** A status that trusts on first use is never kept once the master key has changed. */
  ghost predicate TofuSound(t: Tables) {
    forall u :: u in t.memo && t.memo[u].userVerified == TOFU ==> u in t.keys && !t.keys[u].masterKeyChanged
  }

  lemma TofuNeedsStableKey(env: Env, keys: map<User, Entry>, verified: map<User, set<DeviceId>>, u: User)
    requires Fresh(env, keys, verified, u).userVerified == TOFU
    ensures u in keys && !keys[u].masterKeyChanged
  {
    hide OwnMasterSigned, CrossSigned, TheirMasterVerified, TrustedIds, TrustedKeys, UnverifiedCount;
  }

  lemma ApplyTofuSound(env: Env, t: Tables, op: Op)
    requires TofuSound(t)
    ensures TofuSound(Apply(env, t, op))
  {
    hide Fresh, UpdateEntry;
    if op.DoLookup? && Fresh(env, t.keys, t.verified, op.user).userVerified == TOFU {
      TofuNeedsStableKey(env, t.keys, t.verified, op.user);
    }
  }

  lemma {:induction false} RunTofuSound(env: Env, t: Tables, ops: seq<Op>)
    requires TofuSound(t)
    ensures TofuSound(Run(env, t, ops))
  {
    hide Apply, TofuSound;
    if ops != [] {
      RunTofuSound(env, t, ops[..|ops| - 1]);
      ApplyTofuSound(env, Run(env, t, ops[..|ops| - 1]), ops[|ops| - 1]);
    }
  }

  /** When the master keys of a user differ between two states of a run, and there were some in the first,
      no later lookup reports trust on first use, with any marks. */
  lemma NeverTofuAgain(env: Env, ops: seq<Op>, i: nat, j: nat, u: User)
    requires i <= j <= |ops|
    requires Replaced(Run(env, EMPTY_TABLES, ops[..i]).keys, Run(env, EMPTY_TABLES, ops[..j]).keys, u)
    ensures Reported(env, Run(env, EMPTY_TABLES, ops), u).userVerified != TOFU
  {
    hide Fresh, Apply, Run, Replaced, SomeReplaced;
    var start, t := Run(env, EMPTY_TABLES, ops[..i]), Run(env, EMPTY_TABLES, ops);
    RunSplits(env, EMPTY_TABLES, ops[..i], ops[i..j]);
    RunSplits(env, EMPTY_TABLES, ops[..j], ops[j..]);
    assert ops[..i] + ops[i..j] == ops[..j] && ops[..j] + ops[j..] == ops;
    DifferingIsReplaced(env, start, ops[i..j], u);
    RaisedIff(env, start, ops[i..j], u);
    RaisedIff(env, Run(env, EMPTY_TABLES, ops[..j]), ops[j..], u);
    NothingIsTofu(env);
    RunTofuSound(env, EMPTY_TABLES, ops);
    if Fresh(env, t.keys, t.verified, u).userVerified == TOFU {
      TofuNeedsStableKey(env, t.keys, t.verified, u);
    }
  }

  lemma NothingIsTofu(env: Env)
    ensures TofuSound(EMPTY_TABLES)
  {
  }

  lemma {:induction false} RunSplits(env: Env, t: Tables, a: seq<Op>, b: seq<Op>)
    ensures Run(env, t, a + b) == Run(env, Run(env, t, a), b)
  {
    if b == [] {
      assert a + b == a;
    } else {
      RunSplits(env, t, a, b[..|b| - 1]);
      assert (a + b)[..|a + b| - 1] == a + b[..|b| - 1];
    }
  }
}
