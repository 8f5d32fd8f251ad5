/** The key table, the verification table and the status memo, updated in place (`src/Cache.cpp`).
    Every method is proved to be the operation of `DeviceKeys` it stands for. */
module DeviceKeyStore {
  import opened Wrappers
  import opened Order
  import opened DeviceKeys
  import opened StatusResults

  class KeyCache {
    const env: Env
    var keys: map<User, Entry>
    var verified: map<User, set<DeviceId>>
    var memo: map<User, Status>

    constructor (env: Env)
      ensures this.env == env && State() == EMPTY_TABLES
    {
      this.env := env;
      keys, verified, memo := map[], map[], map[];
    }

    ghost function State(): Tables
      reads this
    {
      Tables(keys, verified, memo)
    }

    // ----- Queries -----

    /** The inner loop of `updateUserKeys`: a key or the id was seen before. */
    method KeyReused(f: Filter, id: DeviceId, d: Device) returns (reused: bool)
      ensures reused == Reused(f, id, d)
    {
      var todo := d.keys.Keys;
      reused := false;
      while todo != {}
        invariant todo <= d.keys.Keys && !reused
        invariant forall k :: k in d.keys && k !in todo ==> d.keys[k] !in f.seenKeys && id !in f.seenIds
        decreases todo
      {
        var k := Smallest(todo);
        todo := todo - {k};
        if d.keys[k] in f.seenKeys {
          return true;
        }
        if id in f.seenIds {
          return true;
        }
      }
    }

    method AcceptDevices(user: User, e: Entry, devices: map<DeviceId, Device>) returns (f: Filter)
      ensures f == FilterFold(env, user, e, devices, SortedKeys(devices.Keys))
    {
      hide Reused, SortedKeys;
      f := Filter(map[], e.seenKeys, e.seenIds);
      var ids := SortedKeys(devices.Keys);
      for n := 0 to |ids|
        invariant f == FilterFold(env, user, e, devices, ids[..n])
      {
        assert ids[..n + 1][..n] == ids[..n];
        var id, d := ids[n], devices[ids[n]];
        var signing := "ed25519:" + d.deviceId;
        if id in e.devices && e.devices[id].keys == d.keys {
          f := f.(accepted := f.accepted[id := d]);
        } else {
          var reused := KeyReused(f, id, d);
          if !reused && id !in e.devices {
            if id != d.deviceId {
              continue;
            }
            if user !in d.signatures || signing !in d.signatures[user] {
              continue;
            }
            if signing !in d.keys || "curve25519:" + id !in d.keys {
              continue;
            }
            if !env.verifyDevice(d.keys[signing], d, d.signatures[user][signing]) {
              continue;
            }
            f := f.(accepted := f.accepted[id := d]);
          }
        }
        f := See(f, id, d);
      }
      assert ids[..|ids|] == ids;
    }

    /** One round of the outer loop of `updateUserKeys`. */
    method UpdateUser(user: User, token: Token, up: Update)
      modifies this`keys
      ensures keys == old(keys)[user := UpdateEntry(env, user, EntryOf(old(keys), user), token, up)]
    {
      var write := NO_ENTRY.(devices := up.devices, master := up.master, userSigning := up.userSigning,
            selfSigning := up.selfSigning);
      if user in keys {
        write := keys[user];
        if write.lastChanged != "" && write.lastChanged != token {
          assert keys[user := write] == keys;
          return;
        }
        if write.master.keys != map[] && up.master.keys != write.master.keys {
          write := write.(masterKeyChanged := true);
        }
        var f := AcceptDevices(user, keys[user], up.devices);
        write := write.(master := up.master, selfSigning := up.selfSigning, userSigning := up.userSigning,
                        devices := f.accepted, seenKeys := f.seenKeys, seenIds := f.seenIds);
      }
      write := write.(updatedAt := token);
      keys := keys[user := write];
    }

    method UpdateUsers(token: Token, response: map<User, Update>)
      modifies this`keys
      ensures keys == UpdateKeys(env, old(keys), token, response)
    {
      hide UpdateEntry, SortedKeys;
      var todo := response.Keys;
      while todo != {}
        invariant todo <= response.Keys && keys.Keys == old(keys).Keys + (response.Keys - todo)
        invariant forall u :: u in keys && (u !in response || u in todo) ==> u in old(keys) && keys[u] == old(keys)[u]
        invariant forall u :: u in response && u !in todo ==>
                  keys[u] == UpdateEntry(env, u, EntryOf(old(keys), u), token, response[u])
        invariant forall u :: u in todo ==> EntryOf(keys, u) == EntryOf(old(keys), u)
        decreases todo
      {
        var u := Smallest(todo);
        UpdateUser(u, token, response[u]);
        todo := todo - {u};
      }
    }

    method UpdateUserKeys(token: Token, response: map<User, Update>)
      modifies this
      ensures State() == Apply(env, old(State()), DoUpdate(token, response))
    {
      hide UpdateKeys;
      UpdateUsers(token, response);
      ForgetUsers(response.Keys);
    }

    /** Statuses of the users, or all of them when one is our own. */
    method ForgetUsers(users: set<User>)
      modifies this`memo
      ensures memo == DeviceKeys.Forget(env, old(memo), users)
    {
      var todo := users;
      while todo != {}
        invariant todo <= users && memo == DeviceKeys.Forget(env, old(memo), users - todo)
        decreases todo
      {
        var u := Smallest(todo);
        todo := todo - {u};
        if u == env.localUser {
          memo := map[];
        } else {
          memo := memo - {u};
        }
      }
      assert users - todo == users;
    }

    method MarkUserKeysOutOfDate(users: seq<User>, token: Token)
      modifies this`keys
      ensures State() == Apply(env, old(State()), DoMark((set u | u in users), token))
      ensures forall u :: u in users && |u| <= 255 ==> u in keys && keys[u].lastChanged == token
      ensures forall u :: u in keys && (u !in users || |u| > 255) ==> u in old(keys) && keys[u] == old(keys)[u]
    {
      for n := 0 to |users|
        invariant keys == MarkKeys(old(keys), (set u | u in users[..n]), token)
      {
        if |users[n]| <= 255 {
          var entry := if users[n] in keys then keys[users[n]] else NO_ENTRY;
          keys := keys[users[n] := entry.(lastChanged := token)];
        }
        assert users[..n + 1] == users[..n] + [users[n]];
        MarkOneMore(old(keys), (set u | u in users[..n]), users[n], token);
        assert (set u | u in users[..n] + [users[n]]) == (set u | u in users[..n]) + {users[n]};
      }
      assert users[..|users|] == users;
    }

    static lemma MarkOneMore(keys: map<User, Entry>, users: set<User>, u: User, token: Token)
      ensures MarkKeys(keys, users + {u}, token) ==
              if Markable(u)
              then MarkKeys(keys, users, token)[u := MarkEntry(EntryOf(MarkKeys(keys, users, token), u), token)]
              else MarkKeys(keys, users, token)
    {
    }

    // ----- Verification marks -----

    method MarkDeviceVerified(user: User, device: DeviceId)
      modifies this
      ensures State() == Apply(env, old(State()), DoVerify(user, device))
    {
      var devices := VerifiedOf(verified, user);
      if device in devices {
        return;
      }
      verified := verified[user := devices + {device}];
      ForgetUsers({user});
    }

    method MarkDeviceUnverified(user: User, device: DeviceId)
      modifies this
      ensures State() == Apply(env, old(State()), DoUnverify(user, device))
    {
      verified := verified[user := VerifiedOf(verified, user) - {device}];
      ForgetUsers({user});
    }

    // ----- Status -----

    /** `verifyAtLeastOneSig` on cross signing keys, and on a device. */
    method AnyCrossSignature(c: CrossKeys, with: map<KeyId, PublicKey>, owner: User) returns (any: bool)
      ensures any == CrossSigned(env, c, with, owner)
      ensures any <==> owner in c.signatures &&
                       exists k :: k in c.signatures[owner] && k in with
                                   && env.verifyCross(with[k], c, c.signatures[owner][k])
    {
      any := false;
      if owner in c.signatures {
        var sigs := c.signatures[owner];
        var todo := sigs.Keys;
        while todo != {}
          invariant todo <= sigs.Keys
          invariant forall k :: k in sigs && k !in todo ==> !(k in with && env.verifyCross(with[k], c, sigs[k]))
          decreases todo
        {
          var k := Smallest(todo);
          todo := todo - {k};
          if k in with && env.verifyCross(with[k], c, sigs[k]) {
            return true;
          }
        }
      }
    }

    method AnyDeviceSignature(d: Device, with: map<KeyId, PublicKey>, owner: User) returns (any: bool)
      ensures any == DeviceSigned(env, d, with, owner)
      ensures any <==> owner in d.signatures &&
                       exists k :: k in d.signatures[owner] && k in with
                                   && env.verifyDevice(with[k], d, d.signatures[owner][k])
    {
      any := false;
      if owner in d.signatures {
        var sigs := d.signatures[owner];
        var todo := sigs.Keys;
        while todo != {}
          invariant todo <= sigs.Keys
          invariant forall k :: k in sigs && k !in todo ==> !(k in with && env.verifyDevice(with[k], d, sigs[k]))
          decreases todo
        {
          var k := Smallest(todo);
          todo := todo - {k};
          if k in with && env.verifyDevice(with[k], d, sigs[k]) {
            return true;
          }
        }
      }
    }

    static lemma CountOneLess(todo: set<DeviceId>, id: DeviceId, known: set<DeviceId>)
      requires id in todo
      ensures |todo * known| == |(todo - {id}) * known| + if id in known then 1 else 0
    {
      assert todo * known == ((todo - {id}) * known) + if id in known then {id} else {};
    }

    /** `updateUnverifiedDevices`. */
    method CountUnverified(ids: set<DeviceId>, devices: map<DeviceId, Device>) returns (count: int)
      ensures count == UnverifiedCount(ids, devices)
    {
      hide SortedKeys;
      var known := 0;
      var todo := ids;
      while todo != {}
        invariant known + |todo * devices.Keys| == |ids * devices.Keys|
        decreases todo
      {
        var id := Smallest(todo);
        CountOneLess(todo, id, devices.Keys);
        todo := todo - {id};
        if id in devices {
          known := known + 1;
        }
      }
      return |devices| - known;
    }

    /** The device loop: the ids and curve keys of the devices their self signing key signed. */
    method TrustDevices(theirs: Entry, user: User) returns (ids: set<DeviceId>, curveKeys: set<PublicKey>)
      ensures ids == TrustedIds(env, theirs, user) && curveKeys == TrustedKeys(env, theirs, user)
    {
      hide DeviceSigned;
      ids, curveKeys := {}, {};
      var todo := theirs.devices.Keys;
      while todo != {}
        invariant todo <= theirs.devices.Keys
        invariant ids == set id | id in theirs.devices && id !in todo
                  && DeviceTrusted(env, theirs, user, theirs.devices[id]) ::
                           theirs.devices[id].deviceId
        invariant curveKeys == set id | id in theirs.devices && id !in todo
                  && DeviceTrusted(env, theirs, user, theirs.devices[id]) ::
                                 theirs.devices[id].keys["curve25519:" + theirs.devices[id].deviceId]
        decreases todo
      {
        var id := Smallest(todo);
        todo := todo - {id};
        var d := theirs.devices[id];
        if "curve25519:" + d.deviceId in d.keys {
          var signed := AnyDeviceSignature(d, theirs.selfSigning.keys, user);
          if signed {
            ids := ids + {d.deviceId};
            curveKeys := curveKeys + {d.keys["curve25519:" + d.deviceId]};
          }
        }
      }
    }

    /** `verificationStatus_` when nothing is memoised yet. */
    method ComputeStatus(user: User) returns (status: Status)
      ensures status == Fresh(env, keys, verified, user)
    {
      hide CrossSigned, DeviceSigned, UnverifiedCount, TrustedIds, TrustedKeys;
      status := Status(Unverified, VerifiedOf(verified, user), map[], 1, true);
      if user == env.localUser {
        status := status.(verifiedDevices := status.verifiedDevices + {env.localDevice});
      }
      if user in keys {
        status := status.(noKeys := false);
      }
      assert user != env.localUser ==> VerifiedOf(verified, user) + {} == VerifiedOf(verified, user);
      if env.localUser !in keys || user !in keys {
        return;
      }
      var ours, theirs := keys[env.localUser], keys[user];
      var count := CountUnverified(status.verifiedDevices, theirs.devices);
      status := status.(unverifiedDeviceCount := count);

      var key := "ed25519:" + env.localDevice;
      if env.localUser !in ours.master.signatures || key !in ours.master.signatures[env.localUser] ||
         !env.verifyCross(env.identityKey, ours.master, ours.master.signatures[env.localUser][key])
      {
        return;
      }
      var trust := Verified;
      if user != env.localUser {
        var first := AnyCrossSignature(ours.userSigning, ours.master.keys, env.localUser);
        var second := AnyCrossSignature(theirs.master, ours.userSigning.keys, env.localUser);
        if first && second {
          trust := Verified;
        } else if !theirs.masterKeyChanged {
          trust := TOFU;
        } else {
          return;
        }
      }
      status := status.(userVerified := trust);
      var signed := AnyCrossSignature(theirs.selfSigning, theirs.master.keys, user);
      if !signed {
        return;
      }
      var ids, curveKeys := TrustDevices(theirs, user);
      status := status.(verifiedDevices := status.verifiedDevices + ids,
                        verifiedDeviceKeys := map k | k in curveKeys :: trust);
      count := CountUnverified(status.verifiedDevices, theirs.devices);
      status := status.(unverifiedDeviceCount := count);
    }

    method VerificationStatus(user: User) returns (status: Status)
      modifies this`memo
      ensures status == Reported(env, old(State()), user)
      ensures State() == Apply(env, old(State()), DoLookup(user))
    {
      if user in memo {
        return memo[user];
      }
      status := ComputeStatus(user);
      memo := memo[user := status];
    }
  }
}
