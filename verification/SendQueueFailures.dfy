/** Which failures are counted against a message of the send queue, and when it is given up. */
module SendQueueFailures {
  import opened Timeline
  import opened SendQueue
  import opened SendQueueRuns

  // ----- When a message is given up -----

  /** The failures counted when `txn` was sent first: those it inherits. */
  function Inherited(q: Queue, actions: seq<Action>, txn: Id): nat {
    if actions == [] then 0 else
    var front := actions[..|actions| - 1];
    if txn !in Play(q, front).attempts && txn in Play(q, actions).attempts then Play(q, actions).errorCount
    else Inherited(q, front, txn)
  }

  /** The failure count and the outstanding request are the attempts of the current message and the
      failures it inherited. */
  predicate CountsExactly(q: Queue, inherited: nat) {
    IsPending(q.pending, q.currentTxn) ==> Attempts(q, q.currentTxn) + inherited == Slack(q)
  }

  /** What the current message of the next state has inherited. */
  function Passed(q: Queue, q': Queue, inherited: nat): nat {
    if q'.currentTxn in q.attempts then inherited else q'.errorCount
  }

  lemma ProcessCounts(q: Queue, was: Queue, inherited: nat)
    requires q.currentTxn == "" && q.inFlight == multiset{} && AllSendable(q)
    requires was.attempts == q.attempts
    requires forall ts :: ts in q.pending && LiveRow(q, ts) && q.pending[ts] in q.attempts ==>
              Attempts(q, q.pending[ts]) + inherited == q.errorCount
    ensures CountsExactly(Process(q), Passed(was, Process(q), inherited))
  {
    Chosen(q);
    RowsAreLive(q);
    hide Process, Rows;
    if Rows(q) == map[] {
    } else {
      assert |multiset{Rows(q)[Least(Rows(q).Keys)]}| == 1;
    }
  }

  lemma FailCounts(q: Queue, txn: Id, inherited: nat)
    requires q.inFlight == multiset{txn} && q.currentTxn == txn && q.errorCount <= 10 && txn in q.attempts
    requires CountsExactly(q, inherited)
    ensures CountsExactly(Failed(q, txn), inherited) && Failed(q, txn).currentTxn == txn
  {
    assert q.inFlight - multiset{txn} == multiset{} && |multiset{txn}| == 1;
  }

  /** What is live and has been sent is the current message. */
  lemma SentIsCurrent(q: Queue, inherited: nat)
    requires AttemptedIsCurrent(q) && CountsExactly(q, inherited)
    ensures forall ts :: ts in q.pending && LiveRow(q, ts) && q.pending[ts] in q.attempts ==>
              Attempts(q, q.pending[ts]) + inherited == Slack(q)
  {
    assert forall ts :: ts in q.pending ==> IsPending(q.pending, q.pending[ts]);
  }

  lemma AddCounts(q: Queue, id: Id, ts: int, inherited: nat)
    requires Safe(q) && CountsExactly(q, inherited) && FreshId(q, id)
    ensures CountsExactly(Add(q, id, ts, true), Passed(q, Add(q, id, ts, true), inherited))
  {
    hide Process, AttemptsCounted;
    var added := q.(pending := q.pending[ts := id], stored := q.stored[id := true]);
    SentIsCurrent(q, inherited);
    AddedSendable(q, id, ts);
    if q.currentTxn == "" {
      assert forall other :: other in added.pending && LiveRow(added, other) && other != ts ==> LiveRow(q, other);
      ProcessCounts(added, q, inherited);
    } else {
      ProcessWaits(added);
    }
  }

  lemma SentCounts(q: Queue, txn: Id, inherited: nat)
    requires Safe(q) && CountsExactly(q, inherited) && txn in q.inFlight
    ensures CountsExactly(Sent(q, txn), Passed(q, Sent(q, txn), inherited))
  {
    NoneLeft(q, txn);
    hide Process, AttemptsCounted;
    var idle := q.(inFlight := multiset{}, pending := Unsent(q.pending, txn), currentTxn := "", errorCount := 0);
    assert forall ts :: ts in idle.pending && LiveRow(idle, ts) ==> LiveRow(q, ts);
    ProcessCounts(idle, q, inherited);
  }

  lemma NoneLeft(q: Queue, txn: Id)
    requires OneOutstanding(q) && txn in q.inFlight
    ensures q.inFlight == multiset{txn} && q.inFlight - multiset{txn} == multiset{} && q.currentTxn == txn
  {
  }

  lemma TimeoutCounts(q: Queue, inherited: nat)
    requires Safe(q) && CountsExactly(q, inherited) && q.timers > 0
    ensures CountsExactly(Timeout(q), Passed(q, Timeout(q), inherited))
  {
    hide Process, AttemptsCounted;
    SentIsCurrent(q, inherited);
    var idle := q.(timers := q.timers - 1, currentTxn := "");
    assert forall ts :: ts in idle.pending && LiveRow(idle, ts) ==> LiveRow(q, ts);
    ProcessCounts(idle, q, inherited);
  }

  lemma StepCounts(q: Queue, inherited: nat, a: Action)
    requires Safe(q) && CountsExactly(q, inherited) && Enabled(q, a) && GoodAdd(q, a)
    ensures CountsExactly(Step(q, a), Passed(q, Step(q, a), inherited))
  {
    hide Process, Failed, Sent, Timeout, Add, AttemptsCounted, Overtakes;
    match a
    case DoProcess =>
      if q.currentTxn == "" {
        SentIsCurrent(q, inherited);
        ProcessCounts(q, q, inherited);
      } else {
        ProcessWaits(q);
      }
    case DoFail(txn) =>
      NoneLeft(q, txn);
      FailCounts(q, txn, inherited);
    case DoTimeout => TimeoutCounts(q, inherited);
    case DoSent(txn) => SentCounts(q, txn, inherited);
    case DoAdd(id, ts, sendable) => AddCounts(q, id, ts, inherited);
    case DoEcho(id) =>
    case DoGap =>
    case DoForget(ids) =>
  }

  /** What an idle queue chooses is one of its live messages. */
  lemma ChoosesLive(q: Queue)
    requires AllSendable(q)
    ensures Process(q).errorCount == q.errorCount
    ensures q.currentTxn != "" ==> Process(q) == q
    ensures q.currentTxn == "" ==>
              if Rows(q) == map[] then Process(q).currentTxn == "" && Process(q).pending == map[]
              else IsLive(q, Process(q).currentTxn) && IsLive(Process(q), Process(q).currentTxn)
  {
    if q.currentTxn == "" {
      Chosen(q);
      RowsAreLive(q);
      hide Process, Rows;
      if Rows(q) != map[] {
        var k := Least(Rows(q).Keys);
        assert LiveRow(q, k) && IsPending(q.pending, q.pending[k]) && IsPending(Rows(q), q.pending[k]);
      }
    }
  }

  /** Of the messages sent before only the current one is live. */
  lemma LiveIsCurrent(q: Queue, id: Id)
    requires AttemptedIsCurrent(q) && IsLive(q, id) && id in q.attempts
    ensures id == q.currentTxn
  {
    var ts :| ts in q.pending && q.pending[ts] == id;
    assert LiveRow(q, ts);
  }

  /** Of the messages sent before only the current one can become current again. */
  lemma StaysCurrent(q: Queue, a: Action)
    requires Safe(q) && Enabled(q, a) && GoodAdd(q, a)
    ensures var q' := Step(q, a);
            IsPending(q'.pending, q'.currentTxn) && q'.currentTxn in q.attempts ==> q'.currentTxn == q.currentTxn
  {
    hide Process, AttemptsCounted, Overtakes;
    PendingIsNamed(q);
    match a
    case DoProcess => BackIsCurrent(q, q);
    case DoFail(txn) =>
    case DoTimeout => BackIsCurrent(q, q.(timers := q.timers - 1, currentTxn := ""));
    case DoSent(txn) =>
      BackIsCurrent(q, q.(inFlight := q.inFlight - multiset{txn}, pending := Unsent(q.pending, txn),
                          currentTxn := "", errorCount := 0));
    case DoAdd(id, ts, sendable) =>
      AddedSendable(q, id, ts);
      BackIsCurrent(q, q.(pending := q.pending[ts := id], stored := q.stored[id := true]));
    case DoEcho(id) =>
    case DoGap =>
    case DoForget(ids) =>
  }

  /** The live messages of `idle` that have been sent are live in `q`. */
  lemma BackIsCurrent(q: Queue, idle: Queue)
    requires Safe(q) && AllSendable(idle) && (idle.currentTxn == "" || idle.currentTxn == q.currentTxn)
    requires forall ts :: ts in idle.pending && LiveRow(idle, ts) ==>
              idle.pending[ts] !in q.attempts
                    || (ts in q.pending && LiveRow(q, ts) && q.pending[ts] == idle.pending[ts])
    ensures var q' := Process(idle);
            IsPending(q'.pending, q'.currentTxn) && q'.currentTxn in q.attempts ==> q'.currentTxn == q.currentTxn
  {
    ChoosesLive(idle);
    hide Process, AttemptsCounted;
    var txn := Process(idle).currentTxn;
    if idle.currentTxn == "" && Rows(idle) != map[] && txn in q.attempts {
      var ts :| ts in idle.pending && idle.pending[ts] == txn;
      assert LiveRow(idle, ts);
      assert IsPending(q.pending, txn);
      LiveIsCurrent(q, txn);
    }
  }

  lemma PendingIsNamed(q: Queue)
    requires Safe(q)
    ensures !IsPending(q.pending, "") && (q.currentTxn != "" ==> q.currentTxn in q.attempts)
  {
  }

  /** From every start, in every good run. */
  lemma {:induction false} RunCounts(start: Queue, actions: seq<Action>)
    requires Starts(start) && Playable(start, actions) && GoodRun(start, actions)
    ensures var q := Play(start, actions); CountsExactly(q, Inherited(start, actions, q.currentTxn))
    decreases |actions|
  {
    hide Step, Enabled, GoodAdd, Safe;
    StartIsSafe(start);
    if actions == [] {
      PendingIsNamed(start);
    } else {
      var front := actions[..|actions| - 1];
      var q := Play(start, front);
      RunCounts(start, front);
      RunSafe(start, front);
      StepCounts(q, Inherited(start, front, q.currentTxn), actions[|actions| - 1]);
      StaysCurrent(q, actions[|actions| - 1]);
      RunSafe(start, actions);
      PendingIsNamed(Play(start, actions));
    }
  }

  /** A failure gives the message up exactly when its attempts and the failures it inherited make eleven. */
  lemma GivesUpIff(start: Queue, actions: seq<Action>, txn: Id)
    requires Starts(start) && Playable(start, actions) && GoodRun(start, actions)
    requires var q := Play(start, actions); txn in q.inFlight && IsPending(q.pending, txn)
    ensures var q := Play(start, actions);
            !IsPending(Failed(q, txn).pending, txn) <==> Attempts(q, txn) + Inherited(start, actions, txn) == 11
  {
    hide Play, Playable, GoodRun, Inherited, Starts;
    RunCounts(start, actions);
    StartIsSafe(start);
    RunSafe(start, actions);
  }

  // ----- Where inherited failures come from -----

  /** There are counted failures, but their message can no longer be sent. */
  predicate Carried(q: Queue) {
    q.errorCount > 0 && !IsLive(q, q.currentTxn)
  }

  /** The step leaves carried failures: a failure that comes after its message is gone, or the message
      going (by its echo, a gap, a new message with its timestamp, or its event being forgotten) while
      failures are counted. */
  predicate LeavesFailures(q: Queue, a: Action) {
    match a
    case DoFail(_) => !IsLive(q, q.currentTxn) && q.errorCount < 10
    case DoSent(_) => false
    case DoTimeout => Carried(q) && Rows(q) == map[]
    case DoEcho(id) => q.errorCount > 0 && (id == q.currentTxn || Carried(q))
    case DoGap => q.errorCount > 0
    case DoForget(ids) => q.errorCount > 0 && (q.currentTxn in ids || Carried(q))
    case DoAdd(_, ts, _) =>
      q.currentTxn != "" && q.errorCount > 0 && (Carried(q) || (ts in q.pending && q.pending[ts] == q.currentTxn))
    case DoProcess => Carried(q) && (q.currentTxn != "" || Rows(q) == map[])
  }

  lemma StillPending(pending: map<int, Id>, ts: int, id: Id, other: Id)
    requires id != other && forall a, b :: a in pending && b in pending && pending[a] == pending[b] ==> a == b
    ensures IsPending(pending[ts := id], other) <==>
              IsPending(pending, other) && !(ts in pending && pending[ts] == other)
  {
    if k :| k in pending && pending[k] == other {
      assert ts != k ==> pending[ts := id][k] == other;
    }
  }

  lemma StillPendingElse(pending: map<int, Id>, id: Id, other: Id)
    ensures IsPending(Unsent(pending, id), other) <==> IsPending(pending, other) && id != other
  {
    if k :| k in pending && pending[k] == other && id != other {
      assert Unsent(pending, id)[k] == other;
    }
  }

  lemma FailCarries(q: Queue, txn: Id)
    requires txn == q.currentTxn && q.errorCount <= 10
    ensures Carried(Failed(q, txn)) <==> !IsLive(q, txn) && q.errorCount < 10
  {
    StillPendingElse(q.pending, txn, txn);
  }

  lemma TimeoutCarries(q: Queue)
    requires Safe(q) && q.timers > 0
    ensures Carried(Timeout(q)) <==> Carried(q) && Rows(q) == map[]
  {
    var idle := q.(timers := q.timers - 1, currentTxn := "");
    ChoosesLive(idle);
    RowsAreLive(q);
    LiveHasRow(q);
    hide Process;
    assert Rows(idle) == Rows(q);
    hide Rows;
  }

  lemma LiveHasRow(q: Queue)
    ensures IsLive(q, q.currentTxn) ==> Rows(q) != map[]
  {
    RowsAreLive(q);
    hide Rows;
    if ts :| ts in q.pending && q.pending[ts] == q.currentTxn && q.currentTxn in q.stored {
      assert LiveRow(q, ts);
    }
  }

  lemma AddCarries(q: Queue, id: Id, ts: int)
    requires Safe(q) && FreshId(q, id)
    ensures Carried(Add(q, id, ts, true)) <==> LeavesFailures(q, DoAdd(id, ts, true))
  {
    var added := q.(pending := q.pending[ts := id], stored := q.stored[id := true]);
    AddedSendable(q, id, ts);
    ChoosesLive(added);
    RowsAreLive(added);
    assert LiveRow(added, ts);
    hide Process, Rows, AttemptsCounted;
    if q.currentTxn != "" {
      StillPending(q.pending, ts, id, q.currentTxn);
    }
  }

  /** From a safe queue exactly these steps leave carried failures. */
  lemma CarriedIff(q: Queue, a: Action)
    requires Safe(q) && Enabled(q, a) && GoodAdd(q, a)
    ensures Carried(Step(q, a)) <==> LeavesFailures(q, a)
  {
    hide Process, Failed, Timeout, Add, AttemptsCounted, Overtakes, Rows;
    PendingIsNamed(q);
    match a
    case DoProcess =>
      ChoosesLive(q);
      LiveHasRow(q);
    case DoFail(txn) =>
      NoneLeft(q, txn);
      FailCarries(q, txn);
    case DoTimeout => TimeoutCarries(q);
    case DoSent(txn) =>
      ChoosesLive(q.(inFlight := q.inFlight - multiset{txn}, pending := Unsent(q.pending, txn),
                     currentTxn := "", errorCount := 0));
    case DoAdd(id, ts, sendable) => AddCarries(q, id, ts);
    case DoEcho(id) => StillPendingElse(q.pending, id, q.currentTxn);
    case DoGap =>
    case DoForget(ids) =>
  }

  /** The step makes the queue choose a message. */
  predicate Serves(q: Queue, a: Action) {
    match a
    case DoTimeout => Rows(q) != map[]
    case DoProcess => q.currentTxn == "" && Rows(q) != map[]
    case DoAdd(_, _, _) => q.currentTxn == ""
    case _ => false
  }

  /** A first request. */
  predicate SendsFirst(q: Queue, q': Queue, txn: Id) {
    txn !in q.attempts && txn in q'.attempts
  }

  ghost predicate SomeFirst(q: Queue, q': Queue) {
    exists txn :: SendsFirst(q, q', txn)
  }

  /** Some message is sent first with failures already counted exactly when the failures are carried. */
  lemma InheritsIff(q: Queue, a: Action)
    requires Safe(q) && Enabled(q, a) && GoodAdd(q, a)
    ensures Step(q, a).errorCount > 0 && SomeFirst(q, Step(q, a)) <==> Carried(q) && Serves(q, a)
  {
    hide Safe, Failed, Process, Timeout, Sent, Add, Overtakes, SomeFirst, Carried, IsPending, Rows;
    match a
    case DoProcess => ProcessInherits(q);
    case DoFail(txn) => SameAttempts(q, txn);
    case DoTimeout => TimeoutInherits(q);
    case DoSent(txn) => SentInherits(q, txn);
    case DoAdd(id, ts, sendable) => AddInherits(q, id, ts);
    case DoEcho(id) => NotFirst(q, Echoed(q, id));
    case DoGap => NotFirst(q, Step(q, a));
    case DoForget(ids) => NotFirst(q, Step(q, a));
  }

  lemma ProcessInherits(q: Queue)
    requires Safe(q)
    ensures Process(q).errorCount > 0 && SomeFirst(q, Process(q)) <==> Carried(q) && Serves(q, DoProcess)
  {
    PendingIsNamed(q);
    ServeIff(q, q);
    NoneIsCurrent(q);
    hide Process, SomeFirst, AttemptsCounted, Rows;
  }

  lemma SameRows(q: Queue, idle: Queue)
    requires idle.pending == q.pending && idle.stored == q.stored
    ensures Rows(idle) == Rows(q) && (AllSendable(q) ==> AllSendable(idle))
  {
  }

  lemma TimeoutInherits(q: Queue)
    requires Safe(q) && q.timers > 0
    ensures Timeout(q).errorCount > 0 && SomeFirst(q, Timeout(q)) <==> Carried(q) && Serves(q, DoTimeout)
  {
    hide Process, SomeFirst, IsPending, Rows, AttemptsCounted, AttemptedIsCurrent;
    var idle := q.(timers := q.timers - 1, currentTxn := "");
    OldestIsCurrent(q);
    SameRows(q, idle);
    ServeIff(idle, q);
  }

  lemma SentInherits(q: Queue, txn: Id)
    requires Safe(q)
    ensures Sent(q, txn).errorCount == 0
  {
    ChoosesLive(q.(inFlight := q.inFlight - multiset{txn}, pending := Unsent(q.pending, txn),
                   currentTxn := "", errorCount := 0));
  }

  lemma AddInherits(q: Queue, id: Id, ts: int)
    requires Safe(q) && FreshId(q, id)
    ensures Add(q, id, ts, true).errorCount > 0 && SomeFirst(q, Add(q, id, ts, true)) <==>
            Carried(q) && Serves(q, DoAdd(id, ts, true))
  {
    PendingIsNamed(q);
    AddedSendable(q, id, ts);
    var added := q.(pending := q.pending[ts := id], stored := q.stored[id := true]);
    RowsAreLive(added);
    assert LiveRow(added, ts);
    if q.currentTxn == "" {
      NoneAdded(q, id, ts);
      NoneIsCurrent(added);
    }
    ServeIff(added, q);
    hide Process, SomeFirst, Safe, IsPending, Rows;
  }

  lemma NoneAdded(q: Queue, id: Id, ts: int)
    requires AttemptedIsCurrent(q) && FreshId(q, id)
    ensures AttemptedIsCurrent(q.(pending := q.pending[ts := id], stored := q.stored[id := true]))
  {
    var added := q.(pending := q.pending[ts := id], stored := q.stored[id := true]);
    assert forall other :: other in added.pending && LiveRow(added, other) && other != ts ==> LiveRow(q, other);
  }

  lemma SameAttempts(q: Queue, txn: Id)
    ensures !SomeFirst(q, Failed(q, txn))
  {
  }

  lemma NotFirst(q: Queue, q': Queue)
    requires q'.attempts == q.attempts
    ensures !SomeFirst(q, q')
  {
  }

  /** An idle queue makes a first request exactly when its oldest live message has not been sent. */
  lemma ServeIff(idle: Queue, was: Queue)
    requires AllSendable(idle) && was.attempts == idle.attempts
    ensures Process(idle).errorCount == idle.errorCount
    ensures Rows(idle) != map[] ==> Least(Rows(idle).Keys) in idle.pending
    ensures SomeFirst(was, Process(idle)) <==>
            idle.currentTxn == "" && Rows(idle) != map[] && idle.pending[Least(Rows(idle).Keys)] !in idle.attempts
  {
    RowsAreLive(idle);
    if idle.currentTxn == "" {
      Chosen(idle);
      hide Process, Rows;
      if Rows(idle) != map[] {
        var txn := idle.pending[Least(Rows(idle).Keys)];
        assert SendsFirst(was, Process(idle), txn) <==> txn !in idle.attempts;
      }
    }
  }

  /** With no current message no live one has been sent. */
  lemma NoneIsCurrent(q: Queue)
    requires AttemptedIsCurrent(q) && AllSendable(q)
    ensures q.currentTxn == "" && Rows(q) != map[] ==>
              Least(Rows(q).Keys) in q.pending && q.pending[Least(Rows(q).Keys)] !in q.attempts
  {
    RowsAreLive(q);
    hide Rows;
  }

  /** Between attempts the oldest live message has been sent exactly when the current one is live. */
  lemma OldestIsCurrent(q: Queue)
    requires Safe(q) && q.timers > 0
    ensures IsLive(q, q.currentTxn) ==> Rows(q) != map[]
    ensures Rows(q) != map[] ==>
              && Least(Rows(q).Keys) in q.pending
              && (q.pending[Least(Rows(q).Keys)] in q.attempts <==> IsLive(q, q.currentTxn))
  {
    RowsAreLive(q);
    LiveHasRow(q);
    hide Rows;
    if Rows(q) != map[] {
      var k := Least(Rows(q).Keys);
      assert LiveRow(q, k);
      if IsLive(q, q.currentTxn) {
        var ts :| ts in q.pending && q.pending[ts] == q.currentTxn;
        assert LiveRow(q, ts) && ts in Rows(q);
        assert ts <= k && k <= ts;
      }
      if q.pending[k] in q.attempts {
        assert q.pending[k] == q.currentTxn;
      }
    }
  }

  /** `txn` is first sent at step `n`, and finds carried failures. */
  predicate FirstSentCarried(start: Queue, actions: seq<Action>, txn: Id, n: nat)
    requires n < |actions|
  {
    var q := Play(start, actions[..n]);
    SendsFirst(q, Play(start, actions[..n + 1]), txn) && Carried(q) && Serves(q, actions[n])
  }

  lemma {:induction false} SentStaysSent(start: Queue, actions: seq<Action>, n: nat, txn: Id)
    requires n <= |actions| && txn in Play(start, actions[..n]).attempts
    ensures txn in Play(start, actions).attempts
    decreases |actions|
  {
    hide Step, Enabled;
    if n == |actions| {
      assert actions[..n] == actions;
    } else {
      var front := actions[..|actions| - 1];
      assert front[..n] == actions[..n];
      SentStaysSent(start, front, n, txn);
      StepKeepsSent(Play(start, front), actions[|actions| - 1], txn);
    }
  }

  lemma StepKeepsSent(q: Queue, a: Action, txn: Id)
    requires txn in q.attempts
    ensures Enabled(q, a) ==> txn in Step(q, a).attempts
  {
  }

  /** A message inherits failures exactly when carried failures are there when it is first sent. */
  lemma {:induction false} InheritedIff(start: Queue, actions: seq<Action>, txn: Id)
    requires Starts(start) && Playable(start, actions) && GoodRun(start, actions)
    ensures Inherited(start, actions, txn) > 0 <==>
              exists n :: 0 <= n < |actions| && FirstSentCarried(start, actions, txn, n)
    decreases |actions|
  {
    hide Step, Enabled, GoodAdd, Safe, Carried, Serves, Starts;
    if actions != [] {
      var last := |actions| - 1;
      var front, a := actions[..last], actions[last];
      var q, q' := Play(start, front), Play(start, actions);
      InheritedIff(start, front, txn);
      StartIsSafe(start);
      RunSafe(start, front);
      InheritsIff(q, a);
      assert SendsFirst(q, q', txn) ==> SomeFirst(q, q');
      assert actions[..last + 1] == actions;
      forall n | 0 <= n < last
        ensures FirstSentCarried(start, actions, txn, n) <==> FirstSentCarried(start, front, txn, n)
        ensures FirstSentCarried(start, front, txn, n) ==> txn in q.attempts
      {
        assert front[..n] == actions[..n] && front[..n + 1] == actions[..n + 1];
        if FirstSentCarried(start, front, txn, n) {
          SentStaysSent(start, front, n + 1, txn);
        }
      }
      if SendsFirst(q, q', txn) {
        assert q'.errorCount > 0 <==> FirstSentCarried(start, actions, txn, last);
      } else {
        assert !FirstSentCarried(start, actions, txn, last);
      }
    }
  }

  // ----- Two runs -----

  lemma FailsLast(q: Queue)
    requires q.errorCount == 10
    ensures Failed(q, q.currentTxn).pending == Unsent(q.pending, q.currentTxn)
              && Failed(q, q.currentTxn).attempts == q.attempts
  {
  }

  lemma UnsentOnly(ts: int, id: Id)
    ensures Unsent(map[ts := id], id) == map[]
  {
  }

  lemma {:induction false} RoundsFail(txn: Id, n: nat)
    ensures forall a :: a in Rounds(txn, n) ==> a.DoFail? || a.DoTimeout?
  {
    if n > 0 {
      RoundsFail(txn, n - 1);
    }
  }

  /** No send and no echo of "m2". */
  predicate LeftAlone(actions: seq<Action>) {
    forall a :: a in actions ==> !a.DoSent? && a != DoEcho("m2")
  }

  lemma EchoLeavesFailure() returns (actions: seq<Action>)
    ensures Playable(EMPTY_QUEUE, actions) && GoodRun(EMPTY_QUEUE, actions) && LeftAlone(actions)
    ensures Play(EMPTY_QUEUE, actions) ==
              Queue(map[20 := "m2"], map["m2" := true], "m1", 1, multiset{}, 1, map["m1" := 1])
  {
    hide Process, Failed, Unsent, Play, Playable, GoodRun;
    FirstPicked("m1", 10);
    actions := [DoAdd("m1", 10, true)];
    UnsentOnly(10, "m1");
    Then(EMPTY_QUEUE, actions, DoEcho("m1"));
    GoodThen(EMPTY_QUEUE, actions, DoEcho("m1"));
    actions := actions + [DoEcho("m1")];

    var echoed := Play(EMPTY_QUEUE, actions);
    assert echoed.pending == map[] && echoed.stored == map[];
    var waiting := echoed.(pending := map[20 := "m2"], stored := map["m2" := true]);
    ProcessWaits(waiting);
    Then(EMPTY_QUEUE, actions, DoAdd("m2", 20, true));
    GoodThen(EMPTY_QUEUE, actions, DoAdd("m2", 20, true));
    actions := actions + [DoAdd("m2", 20, true)];

    FailsOnce(waiting);
    Then(EMPTY_QUEUE, actions, DoFail("m1"));
    GoodThen(EMPTY_QUEUE, actions, DoFail("m1"));
    actions := actions + [DoFail("m1")];
  }

  lemma FailureIsPassedOn() returns (actions: seq<Action>)
    ensures Playable(EMPTY_QUEUE, actions) && GoodRun(EMPTY_QUEUE, actions) && LeftAlone(actions)
    ensures Play(EMPTY_QUEUE, actions) == PASSED_ON
  {
    hide Process, Failed, Unsent, Play, Playable, GoodRun;
    actions := EchoLeavesFailure();
    ProcessPicks(Play(EMPTY_QUEUE, actions).(timers := 0, currentTxn := ""), 20);
    Then(EMPTY_QUEUE, actions, DoTimeout);
    GoodThen(EMPTY_QUEUE, actions, DoTimeout);
    actions := actions + [DoTimeout];
  }

  /** "m2" in flight for the first time, with the failure of "m1". */
  const PASSED_ON := Queue(map[20 := "m2"], map["m2" := true], "m2", 1, multiset{"m2"}, 0, map["m1" := 1, "m2" := 1])

  lemma GivenUpAfterTen(actions: seq<Action>) returns (more: seq<Action>)
    requires Playable(EMPTY_QUEUE, actions) && GoodRun(EMPTY_QUEUE, actions) && LeftAlone(actions)
    requires Play(EMPTY_QUEUE, actions) == PASSED_ON
    ensures Playable(EMPTY_QUEUE, more) && GoodRun(EMPTY_QUEUE, more) && LeftAlone(more)
    ensures var q := Play(EMPTY_QUEUE, more); q.attempts == map["m1" := 1, "m2" := 10] && q.pending == map[]
  {
    hide Process, Failed, Unsent, Play, Playable, GoodRun;
    FailRounds(EMPTY_QUEUE, actions, "m2", 20, 9);
    RoundsFail("m2", 9);
    more := actions + Rounds("m2", 9);

    UnsentOnly(20, "m2");
    FailsLast(Play(EMPTY_QUEUE, more));
    Then(EMPTY_QUEUE, more, DoFail("m2"));
    GoodThen(EMPTY_QUEUE, more, DoFail("m2"));
    more := more + [DoFail("m2")];
  }

  /** An echo that overtakes the response leaves a failure to the next message, which is then given up
      after ten attempts, although it was neither sent nor echoed. */
  lemma EchoShortensRetries() returns (actions: seq<Action>)
    ensures Playable(EMPTY_QUEUE, actions) && GoodRun(EMPTY_QUEUE, actions) && LeftAlone(actions)
    ensures var q := Play(EMPTY_QUEUE, actions); q.attempts == map["m1" := 1, "m2" := 10] && q.pending == map[]
  {
    actions := FailureIsPassedOn();
    actions := GivenUpAfterTen(actions);
    hide Play, Playable, GoodRun;
  }

  lemma OneFailure() returns (actions: seq<Action>)
    ensures Playable(EMPTY_QUEUE, actions) && GoodRun(EMPTY_QUEUE, actions) && LeftAlone(actions)
    ensures Play(EMPTY_QUEUE, actions) ==
            Queue(map[10 := "m1"], map["m1" := true], "m1", 1, multiset{}, 1, map["m1" := 1])
  {
    hide Process, Failed, Unsent, Play, Playable, GoodRun;
    FirstPicked("m1", 10);
    actions := [DoAdd("m1", 10, true)];
    FailsOnce(Play(EMPTY_QUEUE, actions));
    Then(EMPTY_QUEUE, actions, DoFail("m1"));
    GoodThen(EMPTY_QUEUE, actions, DoFail("m1"));
    actions := actions + [DoFail("m1")];
  }

  lemma AnotherWaits() returns (actions: seq<Action>)
    ensures Playable(EMPTY_QUEUE, actions) && GoodRun(EMPTY_QUEUE, actions) && LeftAlone(actions)
    ensures Play(EMPTY_QUEUE, actions) ==
            Queue(map[10 := "m1", 20 := "m2"], map["m1" := true, "m2" := true], "m1", 1, multiset{}, 1, map["m1" := 1])
  {
    hide Process, Failed, Unsent, Play, Playable, GoodRun;
    actions := OneFailure();
    var failed := Play(EMPTY_QUEUE, actions);
    ProcessWaits(failed.(pending := failed.pending[20 := "m2"], stored := failed.stored["m2" := true]));
    Then(EMPTY_QUEUE, actions, DoAdd("m2", 20, true));
    GoodThen(EMPTY_QUEUE, actions, DoAdd("m2", 20, true));
    actions := actions + [DoAdd("m2", 20, true)];
  }

  /** "m1" has failed once, "m2" waits, and the event of "m1" is forgotten while its row stays. */
  lemma ForgottenWhileFailing() returns (actions: seq<Action>)
    ensures Playable(EMPTY_QUEUE, actions) && GoodRun(EMPTY_QUEUE, actions) && LeftAlone(actions)
    ensures Play(EMPTY_QUEUE, actions) ==
            Queue(map[10 := "m1", 20 := "m2"], map["m2" := true], "m1", 1, multiset{}, 1, map["m1" := 1])
  {
    hide Play, Playable, GoodRun;
    actions := AnotherWaits();
    Then(EMPTY_QUEUE, actions, DoForget({"m1"}));
    GoodThen(EMPTY_QUEUE, actions, DoForget({"m1"}));
    actions := actions + [DoForget({"m1"})];
    assert map["m1" := true, "m2" := true] - {"m1"} == map["m2" := true];
  }

  lemma SkipsForgotten()
    ensures SkipUnstored(map[10 := "m1", 20 := "m2"], map["m2" := true]) == map[20 := "m2"]
  {
    var pending: map<int, Id> := map[10 := "m1", 20 := "m2"];
    var p := SkipUnstored(pending, map["m2" := true]);
    assert 20 in pending && pending[20] in map["m2" := true];
    assert 20 in p;
    var k := Least(p.Keys);
    assert k in pending && p[k] == pending[k];
    assert k == 20;
    assert p.Keys == {20};
  }

  /** Clearing the timeline does the same: the message is still pending, but its failure goes to the next. */
  lemma ForgettingShortensRetries() returns (actions: seq<Action>)
    ensures Playable(EMPTY_QUEUE, actions) && GoodRun(EMPTY_QUEUE, actions) && LeftAlone(actions)
    ensures var q := Play(EMPTY_QUEUE, actions); q.attempts == map["m1" := 1, "m2" := 10] && q.pending == map[]
  {
    actions := ForgottenWhileFailing();
    hide Process, Failed, Unsent, Play, Playable, GoodRun, SkipUnstored;
    var idle := Play(EMPTY_QUEUE, actions).(timers := 0, currentTxn := "");
    ProcessPicksLive(idle, 20);
    SkipsForgotten();
    Then(EMPTY_QUEUE, actions, DoTimeout);
    GoodThen(EMPTY_QUEUE, actions, DoTimeout);
    actions := GivenUpAfterTen(actions + [DoTimeout]);
  }
}
