/** When a session is used again and who is sent its key, over every run and told from the messages alone:
    from the members, devices, settings and times of the inputs and from the sessions of the calls. */
module MegolmReuse {
  import opened Wrappers
  import opened Megolm

  /** The outbound session is that of the last message, and its counter the number of its messages. */
  ghost predicate Positioned(s: Store, calls: seq<Call>) {
    && (forall k :: 0 <= k < |calls| ==> calls[k].session < s.created)
    && (calls != [] ==>
          && s.outbound.Some? && s.outbound.value.id == calls[|calls| - 1].session
          && s.outbound.value.index == Count(calls, s.outbound.value.id))
    && (calls == [] ==> s.outbound.None?)
  }

  lemma EncryptPositions(s: Store, calls: seq<Call>, me: Me, i: Input)
    requires OutboundStored(s) && Positioned(s, calls)
    ensures var (s', call) := Encrypt(s, me, i); Positioned(s', calls + [call])
  {
    var (s', call) := Encrypt(s, me, i);
    CounterMoves(s, me, i);
    hide Encrypt;
    assert (calls + [call])[..|calls|] == calls;
    if call.session == s.created {
      CountUnused(calls, call.session);
    }
  }

  lemma {:induction false} RunPositions(me: Me, inputs: seq<Input>)
    ensures var (s, calls) := Run(me, inputs); Positioned(s, calls)
  {
    if inputs != [] {
      var front := inputs[..|inputs| - 1];
      RunPositions(me, front);
      RunKeeps(me, front);
      hide Positioned;
      EncryptPositions(Run(me, front).0, Run(me, front).1, me, inputs[|inputs| - 1]);
    }
  }

  /** The device is listed and is not the one that sends. */
  ghost predicate Receiver(members: Members, me: Me, u: User, d: Device) {
    u in members && members[u].Some? && d in members[u].value && (u, d) != (me.user, me.device)
  }

  /** Everybody who was there still is, with every device. */
  ghost predicate NobodyLeft(before: Members, members: Members, me: Me) {
    forall u :: u in before ==> u in members && forall d :: Receiver(before, me, u, d) ==> Receiver(members, me, u, d)
  }

  lemma CoveredIff(before: Members, members: Members, me: Me, recorded: Recorded)
    requires MatchesMembers(recorded, before, me)
    ensures Reusable(members, recorded) <==>
            (before != map[] || members != map[]) && NobodyLeft(before, members, me)
  {
    assert recorded == map[] <==> recorded.Keys == {};
    assert before == map[] <==> before.Keys == {};
    forall u | u in before
      ensures forall d :: d in recorded[u] <==> Receiver(before, me, u, d)
    {
      assert recorded[u].Keys == Eligible(before, me, u);
    }
    if Reusable(members, recorded) {
      forall u | u in before
        ensures u in members && forall d :: Receiver(before, me, u, d) ==> Receiver(members, me, u, d)
      {
        assert u in recorded;
      }
    }
    if NobodyLeft(before, members, me) {
      forall u | u in recorded
        ensures u in members && forall d :: d in recorded[u] ==> Listed(members, u, d)
      {
        assert u in before;
        assert forall d :: d in recorded[u] ==> Receiver(before, me, u, d);
      }
    }
  }

  /** The state before message `j + 1`, as the messages before it tell it. */
  lemma StateAfter(me: Me, inputs: seq<Input>, j: nat) returns (s: Store, calls: seq<Call>, start: nat)
    requires j + 1 < |inputs|
    ensures (s, calls) == Run(me, inputs[..j + 1]) && calls == Run(me, inputs).1[..j + 1]
    ensures Run(me, inputs).1[j + 1] == Encrypt(s, me, inputs[j + 1]).1
    ensures OutboundStored(s) && s.outbound == Some(Session(calls[j].session, Count(calls, calls[j].session)))
    ensures start <= j && FirstUse(Run(me, inputs).1, calls[j].session, start)
    ensures var data := s.data[calls[j].session];
            && data.timestamp == inputs[start].now && data.messageIndex == Count(calls, calls[j].session)
            && MatchesMembers(data.currently, inputs[j].members, me)
  {
    hide Run, Encrypt, FirstUse, MatchesMembers;
    var upTo, all := inputs[..j + 1], Run(me, inputs).1;
    s, calls := AtCall(me, inputs, j + 1);
    assert all[..j + 2][..j + 1] == all[..j + 1] && all[..j + 2][j + 1] == all[j + 1];
    RunPositions(me, upTo);
    RecordedIsEligible(me, upTo);
    assert upTo[j] == inputs[j];
    start := Started(me, upTo, calls[j].session);
    assert upTo[start] == inputs[start];
    FirstUseStays(calls, all, calls[j].session, start);
    FirstUseIsFirst(calls, calls[j].session, start, j);
  }

  /** Over every run a message uses the session of the one before exactly when that has encrypted fewer
      messages than the limit, is younger than the period, counted from its first use in unsigned
      arithmetic, there is or was any member, and no member and no device has gone since. */
  lemma ReusedIff(me: Me, inputs: seq<Input>, j: nat) returns (start: nat)
    requires j + 1 < |inputs|
    ensures start <= j && FirstUse(Run(me, inputs).1, Run(me, inputs).1[j].session, start)
    ensures var calls, settings := Run(me, inputs).1, inputs[j + 1].settings;
            calls[j + 1].session == calls[j].session <==>
            && Count(calls[..j + 1], calls[j].session) < settings.rotationMsgs
            && (inputs[j + 1].now - inputs[start].now) % TWO64 < settings.rotationMs
            && (inputs[j].members != map[] || inputs[j + 1].members != map[])
            && NobodyLeft(inputs[j].members, inputs[j + 1].members, me)
  {
    hide Run, Count, FirstUse, MatchesMembers, NobodyLeft, Reusable, AllMissing, Record, Pairs;
    var s, calls, st := StateAfter(me, inputs, j);
    start := st;
    CoveredIff(inputs[j].members, inputs[j + 1].members, me, s.data[calls[j].session].currently);
  }

  /** Otherwise it starts a session that no message has used. Either way it is encrypted, and its key sent,
      at the index that counts the messages before it under its session. */
  lemma IndexIsCount(me: Me, inputs: seq<Input>, j: nat)
    requires j < |inputs|
    ensures var calls := Run(me, inputs).1;
            && calls[j].messageIndex == calls[j].keyIndex == Count(calls[..j], calls[j].session)
            && (j == 0 || calls[j].session != calls[j - 1].session ==>
                  forall k :: 0 <= k < j ==> calls[k].session != calls[j].session)
  {
    hide Run, Count, AllMissing, Record, Pairs, Reusable, WithinLimits;
    var all := Run(me, inputs).1;
    var s, calls := AtCall(me, inputs, j);
    assert all[..j + 1][..j] == all[..j] && all[..j + 1][j] == all[j];
    RunPositions(me, inputs[..j]);
    if !Reuses(s, inputs[j]) {
      CountUnused(calls, all[j].session);
      assert forall k :: 0 <= k < j ==> all[k] == calls[k];
    }
  }

  lemma SharedIff(members: Members, recorded: Recorded, me: Me, u: User, d: Device)
    ensures (u, d) in Pairs(AllMissing(members, recorded, me)) <==>
            Receiver(members, me, u, d) && !IsRecorded(recorded, u, d)
  {
  }

  /** Over every run the key goes to every listed device but our own, unless the session is that of the
      message before: then only to those that were not listed at that message. */
  lemma RecipientsIff(me: Me, inputs: seq<Input>, j: nat, u: User, d: Device)
    requires j < |inputs|
    ensures var calls := Run(me, inputs).1;
            (u, d) in calls[j].shared <==>
            && Receiver(inputs[j].members, me, u, d)
            && !(j > 0 && calls[j].session == calls[j - 1].session && Receiver(inputs[j - 1].members, me, u, d))
  {
    hide Run, Count, FirstUse, MatchesMembers, WithinLimits, Reusable, AllMissing, Record, Pairs, IsRecorded;
    NobodyRecorded();
    SharedIff(inputs[j].members, map[], me, u, d);
    if j == 0 {
      var s, calls := AtCall(me, inputs, 0);
      assert Run(me, inputs).1[..1][0] == Run(me, inputs).1[0];
      RunPositions(me, inputs[..0]);
    } else {
      var s, calls, start := StateAfter(me, inputs, j - 1);
      var recorded := s.data[calls[j - 1].session].currently;
      RunPositions(me, inputs[..j]);
      SharedIff(inputs[j].members, recorded, me, u, d);
      RecordedIff(inputs[j - 1].members, recorded, me, u, d);
    }
  }

  lemma RecordedIff(members: Members, recorded: Recorded, me: Me, u: User, d: Device)
    requires MatchesMembers(recorded, members, me)
    ensures IsRecorded(recorded, u, d) <==> Receiver(members, me, u, d)
  {
    if u in members {
      assert d in recorded[u].Keys <==> d in Eligible(members, me, u);
    }
  }

  // ----- What is recorded -----

  /** The index a share is recorded at: the next one, but 0 for those who got the key at its start. */
  function RecordedIndex(keyIndex: nat): nat {
    if keyIndex == 0 then 0 else keyIndex + 1
  }

  ghost predicate RecordedAs(s: Store, call: Call) {
    && call.session in s.data
    && forall u, d :: (u, d) in call.shared ==>
         && IsRecorded(s.data[call.session].currently, u, d)
         && s.data[call.session].currently[u][d] == RecordedIndex(call.keyIndex)
  }

  lemma EncryptRecords(s: Store, calls: seq<Call>, me: Me, i: Input)
    requires OutboundStored(s) && Positioned(s, calls) && forall k :: 0 <= k < |calls| ==> RecordedAs(s, calls[k])
    ensures var (s', call) := Encrypt(s, me, i); forall k :: 0 <= k <= |calls| ==> RecordedAs(s', (calls + [call])[k])
  {
    var (s', call) := Encrypt(s, me, i);
    var before, sent, index := EncryptShape(s, me, i);
    NobodyGetsOwn(i.members, before, me);
    CounterMoves(s, me, i);
    hide Encrypt, Record, Pairs, AllMissing, Reuses;
    assert call.session in s.data ==> call.keyIndex > 0;
    forall k | 0 <= k <= |calls|
      ensures RecordedAs(s', (calls + [call])[k])
    {
      var c := (calls + [call])[k];
      assert k < |calls| ==> c == calls[k];
      forall u, d | (u, d) in c.shared
        ensures IsRecorded(s'.data[c.session].currently, u, d)
        ensures s'.data[c.session].currently[u][d] == RecordedIndex(c.keyIndex)
      {
        RecordAt(before, sent, index, u, d);
      }
    }
  }

  /** Over every run each device that was sent a key is recorded at the index after the one it was sent at, or
      at 0 if it was sent with the session's first message. */
  lemma SharesRecordedAs(me: Me, inputs: seq<Input>, k: nat, u: User, d: Device)
    requires k < |inputs| && (u, d) in Run(me, inputs).1[k].shared
    ensures var (s, calls) := Run(me, inputs);
            && calls[k].session in s.data && IsRecorded(s.data[calls[k].session].currently, u, d)
            && s.data[calls[k].session].currently[u][d] == RecordedIndex(calls[k].keyIndex)
  {
    AllRecorded(me, inputs);
    assert RecordedAs(Run(me, inputs).0, Run(me, inputs).1[k]);
  }

  lemma {:induction false} AllRecorded(me: Me, inputs: seq<Input>)
    ensures var (s, calls) := Run(me, inputs); forall k :: 0 <= k < |calls| ==> RecordedAs(s, calls[k])
  {
    if inputs != [] {
      var front := inputs[..|inputs| - 1];
      AllRecorded(me, front);
      RunKeeps(me, front);
      RunPositions(me, front);
      hide RecordedAs, Positioned;
      EncryptRecords(Run(me, front).0, Run(me, front).1, me, inputs[|inputs| - 1]);
    }
  }
}
