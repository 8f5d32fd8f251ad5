/** What holds over every sequence of steps of the send queue: how often a message is sent, and when an added
    message endangers that. */
module SendQueueRuns {
  import opened Timeline
  import opened SendQueue

  predicate IsPending(pending: map<int, Id>, id: Id) {
    exists ts :: ts in pending && pending[ts] == id
  }

  /** The message is pending and its event is stored, so it can still be sent. */
  predicate IsLive(q: Queue, id: Id) {
    IsPending(q.pending, id) && id in q.stored
  }

  predicate LiveRow(q: Queue, ts: int) {
    ts in q.pending && q.pending[ts] in q.stored
  }

  /** The outstanding request is the last one its message gets. */
  predicate LastTry(q: Queue) {
    q.inFlight != multiset{} && q.errorCount == 10
  }

  /** A message with this timestamp goes before one that has been sent already and may be sent again. */
  predicate Overtakes(q: Queue, ts: int) {
    !LastTry(q) && exists row :: row in q.pending && LiveRow(q, row) && q.pending[row] in q.attempts && ts < row
  }

  predicate FreshId(q: Queue, id: Id) {
    IsTxn(id) && !IsPending(q.pending, id) && id !in q.attempts
  }

  /** New messages have a fresh id, content that can be sent, and overtake nothing. */
  predicate GoodAdd(q: Queue, a: Action) {
    a.DoAdd? ==> FreshId(q, a.id) && a.sendable && !Overtakes(q, a.ts)
  }

  predicate GoodRun(q: Queue, actions: seq<Action>) {
    actions == [] ||
    (GoodRun(q, actions[..|actions| - 1]) && GoodAdd(Play(q, actions[..|actions| - 1]), actions[|actions| - 1]))
  }

  lemma GoodThen(q: Queue, actions: seq<Action>, a: Action)
    ensures GoodRun(q, actions + [a]) <==> GoodRun(q, actions) && GoodAdd(Play(q, actions), a)
  {
    assert (actions + [a])[..|actions|] == actions;
  }

  // ----- Safety -----

  function Slack(q: Queue): nat {
    q.errorCount + |q.inFlight|
  }

  predicate Bounded(q: Queue) {
    forall id :: id in q.attempts ==> 1 <= q.attempts[id] <= 11
  }

  /** A live message that has been sent is the oldest live one, or on its last try, and its failures are
      still counted. */
  predicate AttemptsCounted(q: Queue) {
    && Bounded(q)
    && (forall ts :: ts in q.pending && LiveRow(q, ts) && q.pending[ts] in q.attempts ==>
          && q.attempts[q.pending[ts]] <= Slack(q)
          && (LastTry(q) || forall other :: other in q.pending && LiveRow(q, other) ==> ts <= other))
  }

  predicate AttemptedIsCurrent(q: Queue) {
    && (q.currentTxn != "" ==> q.currentTxn in q.attempts)
    && forall ts :: ts in q.pending && LiveRow(q, ts) && q.pending[ts] in q.attempts ==> q.pending[ts] == q.currentTxn
  }

  predicate Safe(q: Queue) {
    OneOutstanding(q) && AllSendable(q) && AttemptsCounted(q) && AttemptedIsCurrent(q)
  }

  /** What a client starts with: messages left over from earlier, and nothing under way. */
  predicate Starts(q: Queue) {
    && q.currentTxn == "" && q.inFlight == multiset{} && q.timers == 0 && q.errorCount == 0 && q.attempts == map[]
    && AllSendable(q)
  }

  lemma StartIsSafe(q: Queue)
    requires Starts(q)
    ensures Safe(q)
  {
  }

  /** The rows left when the queue looks for a message. */
  function Rows(q: Queue): map<int, Id> {
    SkipUnstored(q.pending, q.stored)
  }

  /** The request for the message of a row. */
  function Pick(q: Queue, k: int): Queue
    requires k in q.pending
  {
    q.(currentTxn := q.pending[k], inFlight := q.inFlight + multiset{q.pending[k]},
       attempts := q.attempts[q.pending[k] := Attempts(q, q.pending[k]) + 1])
  }

  /** The live rows are all left, and the first row left is the oldest of them. */
  lemma RowsAreLive(q: Queue)
    ensures forall ts :: ts in Rows(q) ==> ts in q.pending && Rows(q)[ts] == q.pending[ts]
    ensures forall ts :: ts in q.pending && LiveRow(q, ts) ==> ts in Rows(q)
    ensures Rows(q) != map[] ==> Least(Rows(q).Keys) in q.pending && LiveRow(q, Least(Rows(q).Keys))
  {
  }

  /** An idle queue chooses its oldest live message, if there is one. */
  lemma Chosen(q: Queue)
    requires q.currentTxn == "" && AllSendable(q)
    ensures Process(q) == if Rows(q) == map[] then q.(pending := map[])
                          else Pick(q.(pending := Rows(q)), Least(Rows(q).Keys))
  {
    RowsAreLive(q);
    if Rows(q) == map[] {
    } else {
      assert IsTxn(Rows(q)[Least(Rows(q).Keys)]) && q.stored[Rows(q)[Least(Rows(q).Keys)]];
    }
  }

  lemma ShrunkCounted(q: Queue, p: map<int, Id>)
    requires AllSendable(q) && AttemptsCounted(q)
    requires forall ts :: ts in p ==> ts in q.pending && p[ts] == q.pending[ts]
    ensures AllSendable(q.(pending := p)) && AttemptsCounted(q.(pending := p))
  {
    assert forall ts :: ts in p && LiveRow(q.(pending := p), ts) ==> LiveRow(q, ts);
  }

  /** Sending the oldest message. */
  lemma PickSafe(q: Queue, k: int)
    requires q.currentTxn == "" && q.inFlight == multiset{} && q.timers == 0 && q.errorCount <= 10
    requires AllSendable(q) && AttemptsCounted(q)
    requires k in q.pending && LiveRow(q, k) && forall ts :: ts in q.pending ==> k <= ts
    ensures Safe(Pick(q, k))
  {
    var txn := q.pending[k];
    var q' := Pick(q, k);
    assert |multiset{txn}| == 1;
    forall ts | ts in q.pending && LiveRow(q', ts) && q.pending[ts] in q'.attempts
      ensures ts == k
    {
      assert LiveRow(q, ts);
    }
  }

  lemma EmptiedSafe(q: Queue)
    requires q.currentTxn == "" && q.inFlight == multiset{} && q.timers == 0 && q.errorCount <= 10 && Bounded(q)
    ensures Safe(q.(pending := map[]))
  {
  }

  /** Processing an idle queue keeps it safe. */
  lemma ProcessSafe(q: Queue)
    requires q.currentTxn == "" && q.inFlight == multiset{} && q.timers == 0 && q.errorCount <= 10
    requires AllSendable(q) && AttemptsCounted(q)
    ensures Safe(Process(q))
  {
    Chosen(q);
    RowsAreLive(q);
    hide Process, Rows, Safe, Pick;
    if Rows(q) == map[] {
      EmptiedSafe(q);
    } else {
      var shrunk := q.(pending := Rows(q));
      ShrunkCounted(q, Rows(q));
      hide AllSendable, AttemptsCounted;
      PickSafe(shrunk, Least(Rows(q).Keys));
    }
  }

  lemma FailSafe(q: Queue, txn: Id)
    requires Safe(q) && txn in q.inFlight
    ensures Safe(Failed(q, txn))
  {
    assert q.inFlight == multiset{txn} && q.currentTxn == txn;
    assert q.inFlight - multiset{txn} == multiset{};
  }

  lemma TimeoutSafe(q: Queue)
    requires Safe(q) && q.timers > 0
    ensures Safe(Timeout(q))
  {
    assert q.inFlight == multiset{};
    ProcessSafe(q.(timers := q.timers - 1, currentTxn := ""));
  }

  lemma SentSafe(q: Queue, txn: Id)
    requires Safe(q) && txn in q.inFlight
    ensures Safe(Sent(q, txn))
  {
    assert q.inFlight == multiset{txn} && q.currentTxn == txn;
    assert q.inFlight - multiset{txn} == multiset{};
    ProcessSafe(q.(inFlight := multiset{}, pending := Unsent(q.pending, txn), currentTxn := "", errorCount := 0));
  }

  lemma AddSafe(q: Queue, id: Id, ts: int)
    requires Safe(q) && GoodAdd(q, DoAdd(id, ts, true))
    ensures Safe(Add(q, id, ts, true))
  {
    hide Process;
    var added := q.(pending := q.pending[ts := id], stored := q.stored[id := true]);
    AddedSendable(q, id, ts);
    AddedCounted(q, id, ts);
    hide AllSendable, AttemptsCounted, GoodAdd;
    if q.currentTxn == "" {
      ProcessSafe(added);
    } else {
      ProcessWaits(added);
    }
  }

  lemma AddedSendable(q: Queue, id: Id, ts: int)
    requires AllSendable(q) && IsTxn(id) && !IsPending(q.pending, id)
    ensures var added := q.(pending := q.pending[ts := id], stored := q.stored[id := true]);
            AllSendable(added)
  {
  }

  lemma AddedCounted(q: Queue, id: Id, ts: int)
    requires AttemptsCounted(q) && AttemptedIsCurrent(q) && FreshId(q, id) && !Overtakes(q, ts)
    ensures var added := q.(pending := q.pending[ts := id], stored := q.stored[id := true]);
            AttemptsCounted(added) && AttemptedIsCurrent(added)
  {
  }

  lemma StepSafe(q: Queue, a: Action)
    requires Safe(q) && Enabled(q, a) && GoodAdd(q, a)
    ensures Safe(Step(q, a))
  {
    hide Process, Failed, Sent, Add, Timeout;
    match a
    case DoProcess =>
      if q.currentTxn == "" {
        ProcessSafe(q);
      } else {
        ProcessWaits(q);
      }
    case DoFail(txn) => FailSafe(q, txn);
    case DoTimeout => TimeoutSafe(q);
    case DoSent(txn) => SentSafe(q, txn);
    case DoAdd(id, ts, sendable) => AddSafe(q, id, ts);
    case DoEcho(id) => FewerSafe(q, Unsent(q.pending, id), q.stored - {id});
    case DoGap => FewerSafe(q, map[], q.stored);
    case DoForget(ids) => FewerSafe(q, q.pending, q.stored - ids);
  }

  /** Losing rows or stored events endangers nothing. */
  lemma FewerSafe(q: Queue, pending: map<int, Id>, stored: map<Id, bool>)
    requires Safe(q)
    requires forall ts :: ts in pending ==> ts in q.pending && pending[ts] == q.pending[ts]
    requires forall id :: id in stored ==> id in q.stored && stored[id] == q.stored[id]
    ensures Safe(q.(pending := pending, stored := stored))
  {
    var fewer := q.(pending := pending, stored := stored);
    assert forall ts :: ts in pending && LiveRow(fewer, ts) ==> LiveRow(q, ts);
  }

  /** From every safe queue, whatever a client starts with for instance, at most one request is ever outstanding and no
      message is sent more than 11 times. */
  lemma {:induction false} RunSafe(q: Queue, actions: seq<Action>)
    requires Safe(q) && Playable(q, actions) && GoodRun(q, actions)
    ensures Safe(Play(q, actions)) && Bounded(Play(q, actions)) && |Play(q, actions).inFlight| <= 1
    decreases |actions|
  {
    hide Step, Enabled, GoodAdd;
    if actions != [] {
      var front := actions[..|actions| - 1];
      RunSafe(q, front);
      StepSafe(Play(q, front), actions[|actions| - 1]);
    }
  }

  // ----- Repeated failure -----

  /** `txn` is in flight, oldest and can be sent. */
  predicate Trying(q: Queue, txn: Id, ts: int) {
    && q.currentTxn == txn && q.inFlight == multiset{txn} && q.timers == 0
    && ts in q.pending && q.pending[ts] == txn && (forall other :: other in q.pending ==> ts <= other)
    && IsTxn(txn) && txn in q.stored && q.stored[txn] && txn in q.attempts
  }

  /** `n` failures, each followed by its timer. */
  function Rounds(txn: Id, n: nat): seq<Action> {
    if n == 0 then [] else Rounds(txn, n - 1) + [DoFail(txn)] + [DoTimeout]
  }

  lemma FailRound(q: Queue, txn: Id, ts: int)
    requires Trying(q, txn, ts) && q.errorCount < 10
    ensures Failed(q, txn).timers == q.timers + 1
    ensures Timeout(Failed(q, txn)) == q.(errorCount := q.errorCount + 1,
              attempts := q.attempts[txn := q.attempts[txn] + 1])
  {
    assert q.inFlight - multiset{txn} == multiset{};
    assert Least(q.pending.Keys) == ts;
  }

  lemma {:induction false} FailRounds(start: Queue, actions: seq<Action>, txn: Id, ts: int, n: nat)
    requires var q := Play(start, actions); Playable(start, actions) && Trying(q, txn, ts) && q.errorCount + n <= 10
    ensures var more := actions + Rounds(txn, n);
            Playable(start, more) && (GoodRun(start, actions) ==> GoodRun(start, more))
    ensures var q := Play(start, actions);
            Play(start, actions + Rounds(txn, n)) ==
            q.(errorCount := q.errorCount + n, attempts := q.attempts[txn := q.attempts[txn] + n])
  {
    hide Failed, Timeout, Play, Playable, GoodRun;
    if n == 0 {
      assert actions + Rounds(txn, 0) == actions;
    } else {
      FailRounds(start, actions, txn, ts, n - 1);
      var more := actions + Rounds(txn, n - 1);
      var q, last := Play(start, actions), Play(start, more);
      assert q.attempts[txn := q.attempts[txn] + (n - 1)][txn := q.attempts[txn] + n] ==
            q.attempts[txn := q.attempts[txn] + n];
      FailRound(last, txn, ts);
      Then(start, more, DoFail(txn));
      GoodThen(start, more, DoFail(txn));
      Then(start, more + [DoFail(txn)], DoTimeout);
      GoodThen(start, more + [DoFail(txn)], DoTimeout);
      assert actions + Rounds(txn, n) == more + [DoFail(txn)] + [DoTimeout];
    }
  }

  /** A message that keeps failing is given up at the failure that makes eleven together with those
      counted before: after `11 - errorCount` attempts if this is its first, so after eleven exactly
      when no failure was counted before. */
  lemma FailingGivesUpIff(q: Queue, txn: Id, ts: int, n: nat)
    requires Trying(q, txn, ts) && AllSendable(q) && q.errorCount + n <= 10
    ensures var q' := Play(q, Rounds(txn, n));
            && Playable(q, Rounds(txn, n)) && txn in q'.inFlight && IsPending(q'.pending, txn)
            && Attempts(q', txn) == q.attempts[txn] + n
            && (!IsPending(Failed(q', txn).pending, txn) <==> Attempts(q', txn) == q.attempts[txn] + 10 - q.errorCount)
  {
    NothingPlayed(q);
    FailRounds(q, [], txn, ts, n);
    assert [] + Rounds(txn, n) == Rounds(txn, n);
    assert IsPending(q.pending, txn);
    hide Play, Playable;
  }

  // ----- Overtaking -----

  /** The message that overtakes is sent at once and resets the failure count of the one overtaken. */
  lemma OvertakenIsSentAgain(q: Queue, id: Id, ts: int, row: int) returns (more: seq<Action>)
    requires Safe(q) && FreshId(q, id) && !LastTry(q)
    requires row in q.pending && LiveRow(q, row) && q.pending[row] in q.attempts && ts < row
    ensures var added := Add(q, id, ts, true);
            Playable(added, more) && GoodRun(added, more) && !Bounded(Play(added, more))
  {
    hide Process, Failed, Play, Playable, GoodRun, Unsent, SkipUnstored;
    var txn := q.pending[row];
    assert q.currentTxn == txn;
    var added := q.(pending := q.pending[ts := id], stored := q.stored[id := true]);
    assert forall other :: other in q.pending && LiveRow(q, other) ==> row <= other;
    ProcessWaits(added);
    more := FailsFirst(added, txn);
    var failed := Play(added, more);

    ProcessPicksLive(failed.(timers := 0, currentTxn := ""), ts);
    Then(added, more, DoTimeout);
    GoodThen(added, more, DoTimeout);
    more := more + [DoTimeout];

    var other := Play(added, more);
    assert other.inFlight - multiset{id} == multiset{};
    var left := Unsent(other.pending, id);
    UnsentLeft(other.pending, id, row);
    var freed := other.(inFlight := multiset{}, pending := left, currentTxn := "", errorCount := 0);
    ProcessPicksLive(freed, row);
    Then(added, more, DoSent(id));
    GoodThen(added, more, DoSent(id));
    more := more + [DoSent(id)];

    FailRounds(added, more, txn, row, 10);
    more := more + Rounds(txn, 10);
    assert Play(added, more).attempts[txn] >= 12;
  }

  lemma UnsentLeft(pending: map<int, Id>, id: Id, row: int)
    requires row in pending && pending[row] != id
    ensures var left := Unsent(pending, id);
            && row in left && left[row] == pending[row]
            && forall ts :: ts in left ==> ts in pending && left[ts] == pending[ts] != id
  {
  }

  /** The outstanding request fails first, if there is one. */
  lemma FailsFirst(q: Queue, txn: Id) returns (actions: seq<Action>)
    requires OneOutstanding(q) && q.currentTxn == txn != "" && !LastTry(q)
    ensures Playable(q, actions) && GoodRun(q, actions)
    ensures var failed := Play(q, actions);
            && failed.errorCount <= 10
            && failed == q.(inFlight := multiset{}, timers := 1, errorCount := failed.errorCount)
  {
    NothingPlayed(q);
    if q.inFlight == multiset{} {
      actions := [];
    } else {
      assert q.inFlight - multiset{txn} == multiset{};
      Then(q, [], DoFail(txn));
      GoodThen(q, [], DoFail(txn));
      actions := [] + [DoFail(txn)];
    }
  }

  /** Adding a message keeps the bound over everything that can follow exactly when it does not overtake
      a message that has been sent and may be sent again. */
  lemma AddIsSafeIff(q: Queue, id: Id, ts: int)
    requires Safe(q) && FreshId(q, id)
    ensures !Overtakes(q, ts) <==>
            forall more :: Playable(Add(q, id, ts, true), more) && GoodRun(Add(q, id, ts, true), more) ==>
              Bounded(Play(Add(q, id, ts, true), more))
  {
    hide Add, Safe, FreshId, Bounded, Play, Playable, GoodRun, LastTry;
    var added := Add(q, id, ts, true);
    if Overtakes(q, ts) {
      var row :| row in q.pending && LiveRow(q, row) && q.pending[row] in q.attempts && ts < row;
      var more := OvertakenIsSentAgain(q, id, ts, row);
      assert !(Playable(added, more) && GoodRun(added, more) ==> Bounded(Play(added, more)));
    } else {
      AddSafe(q, id, ts);
      forall more | Playable(added, more) && GoodRun(added, more)
        ensures Bounded(Play(added, more))
      {
        RunSafe(added, more);
      }
    }
  }

  // ----- A clock that moves backwards -----

  lemma FailsOnce(q: Queue)
    requires q.inFlight == multiset{q.currentTxn} && q.errorCount < 10
    ensures Failed(q, q.currentTxn) == q.(inFlight := multiset{}, timers := q.timers + 1,
              errorCount := q.errorCount + 1)
  {
    assert q.inFlight - multiset{q.currentTxn} == multiset{};
  }

  lemma UnsentOther()
    ensures Unsent(map[10 := "m1", 5 := "m0"], "m0") == map[10 := "m1"]
  {
  }

  lemma NothingIsGood(q: Queue)
    ensures GoodRun(q, [])
  {
  }

  lemma FirstPicked(id: Id, ts: int)
    requires IsTxn(id)
    ensures Playable(EMPTY_QUEUE, [DoAdd(id, ts, true)]) && GoodRun(EMPTY_QUEUE, [DoAdd(id, ts, true)])
    ensures Play(EMPTY_QUEUE, [DoAdd(id, ts, true)]) ==
            Queue(map[ts := id], map[id := true], id, 0, multiset{id}, 0, map[id := 1])
  {
    hide Process, Play, Playable, GoodRun;
    var a := DoAdd(id, ts, true);
    assert [] + [a] == [a];
    NothingPlayed(EMPTY_QUEUE);
    NothingIsGood(EMPTY_QUEUE);
    Then(EMPTY_QUEUE, [], a);
    GoodThen(EMPTY_QUEUE, [], a);
    FirstProcessed(id, ts);
  }

  lemma FirstProcessed(id: Id, ts: int)
    requires IsTxn(id)
    ensures Add(EMPTY_QUEUE, id, ts, true) ==
            Queue(map[ts := id], map[id := true], id, 0, multiset{id}, 0, map[id := 1])
  {
    hide Process;
    ProcessPicks(EMPTY_QUEUE.(pending := map[ts := id], stored := map[id := true]), ts);
  }

  lemma TenFailures() returns (actions: seq<Action>)
    ensures Playable(EMPTY_QUEUE, actions)
    ensures Play(EMPTY_QUEUE, actions) ==
              Queue(map[10 := "m1"], map["m1" := true], "m1", 10, multiset{}, 1, map["m1" := 10])
  {
    hide Process, Failed, Unsent, Play, Playable, GoodRun;
    FirstPicked("m1", 10);
    FailRounds(EMPTY_QUEUE, [DoAdd("m1", 10, true)], "m1", 10, 9);
    actions := [DoAdd("m1", 10, true)] + Rounds("m1", 9);
    FailsOnce(Play(EMPTY_QUEUE, actions));
    Then(EMPTY_QUEUE, actions, DoFail("m1"));
    actions := actions + [DoFail("m1")];
  }

  /** A message that slips in before the one being retried resets the failure count: with a clock that
      moves backwards a message can be sent 21 times. */
  lemma OvertakingBreaksBound() returns (actions: seq<Action>)
    ensures Playable(EMPTY_QUEUE, actions)
    ensures Play(EMPTY_QUEUE, actions).attempts == map["m1" := 21, "m0" := 1]
  {
    hide Process, Failed, Unsent, Play, Playable, GoodRun, GoodAdd;
    actions := TenFailures();
    var failed := Play(EMPTY_QUEUE, actions);
    var overtaken := failed.(pending := failed.pending[5 := "m0"], stored := failed.stored["m0" := true]);
    ProcessWaits(overtaken);
    Then(EMPTY_QUEUE, actions, DoAdd("m0", 5, true));
    actions := actions + [DoAdd("m0", 5, true)];

    ProcessPicks(overtaken.(timers := 0, currentTxn := ""), 5);
    Then(EMPTY_QUEUE, actions, DoTimeout);
    actions := actions + [DoTimeout];

    var other := Timeout(overtaken);
    UnsentOther();
    var freed := other.(inFlight := multiset{}, pending := map[10 := "m1"], currentTxn := "", errorCount := 0);
    assert other.inFlight - multiset{"m0"} == multiset{};
    ProcessPicks(freed, 10);
    Then(EMPTY_QUEUE, actions, DoSent("m0"));
    FailRounds(EMPTY_QUEUE, actions + [DoSent("m0")], "m1", 10, 10);
    actions := actions + [DoSent("m0")] + Rounds("m1", 10);
  }
}
