/** The queue that drains pending messages (`src/timeline/EventStore.cpp`, `firstPendingMessage` and
    `removePendingStatus` of `src/Cache.cpp`). Each slot and each response is one step. */
module SendQueue {
  import opened Wrappers
  import opened Timeline

  /** `stored` says for each stored event whether its content type can be sent. `inFlight` holds the
      requests without a response and `timers` the retry timers running; `attempts` counts requests. */
  datatype Queue = Queue(
    pending: map<int, Id>,
    stored: map<Id, bool>,
    currentTxn: Id,
    errorCount: nat,
    inFlight: multiset<Id>,
    timers: nat,
    attempts: map<Id, nat>)

  const EMPTY_QUEUE := Queue(map[], map[], "", 0, multiset{}, 0, map[])

  function Attempts(q: Queue, id: Id): nat {
    if id in q.attempts then q.attempts[id] else 0
  }

  /** `firstPendingMessage` deletes the rows it passes whose event is gone. */
  function SkipUnstored(pending: map<int, Id>, stored: map<Id, bool>): (p: map<int, Id>)
    ensures forall ts :: ts in p ==> ts in pending && p[ts] == pending[ts]
    ensures forall ts :: ts in pending && ts !in p ==> pending[ts] !in stored
    ensures p != map[] ==> p[Least(p.Keys)] in stored
    decreases |pending|
  {
    if pending == map[] then pending else
    var k := Least(pending.Keys);
    if pending[k] in stored then pending else
    assert |Without(pending, k)| < |pending| by { WithoutIsSmaller(pending, k); }
    SkipUnstored(Without(pending, k), stored)
  }

  lemma WithoutIsSmaller<V>(m: map<int, V>, k: int)
    requires k in m
    ensures |Without(m, k)| < |m|
  {
    assert Without(m, k).Keys == m.Keys - {k};
    assert |Without(m, k).Keys| < |m.Keys|;
  }

  // ----- The slots -----

  function Process(q: Queue): Queue {
    if q.currentTxn != "" then q else
    var pending := SkipUnstored(q.pending, q.stored);
    if pending == map[] then q.(pending := pending) else
    var txn := pending[Least(pending.Keys)];
    var chosen := q.(pending := pending, currentTxn := txn);
    if !IsTxn(txn) then chosen.(pending := Unsent(pending, txn))
    else if !q.stored[txn] then chosen
    else chosen.(inFlight := q.inFlight + multiset{txn}, attempts := q.attempts[txn := Attempts(q, txn) + 1])
  }

  function Failed(q: Queue, txn: Id): Queue {
    var answered := q.(inFlight := q.inFlight - multiset{txn}, timers := q.timers + 1);
    if q.currentTxn != txn then answered
    else if q.errorCount + 1 > 10 then answered.(pending := Unsent(q.pending, txn), errorCount := 0)
    else answered.(errorCount := q.errorCount + 1)
  }

  function Timeout(q: Queue): Queue
    requires q.timers > 0
  {
    Process(q.(timers := q.timers - 1, currentTxn := ""))
  }

  function Sent(q: Queue, txn: Id): Queue {
    Process(q.(inFlight := q.inFlight - multiset{txn}, pending := Unsent(q.pending, txn),
          currentTxn := "", errorCount := 0))
  }

  function Add(q: Queue, id: Id, ts: int, sendable: bool): Queue {
    Process(q.(pending := q.pending[ts := id], stored := q.stored[id := sendable]))
  }

  /** A sync brings the echo of a message. */
  function Echoed(q: Queue, id: Id): Queue {
    q.(pending := Unsent(q.pending, id), stored := q.stored - {id})
  }

  /** A gap is a limited sync, which drops the pending table but not the stored events; clearing the
      timeline and retention do the opposite, they forget stored events and keep their pending rows. */
  datatype Action =
    | DoProcess
    | DoFail(txn: Id)
    | DoTimeout
    | DoSent(txn: Id)
    | DoAdd(id: Id, ts: int, sendable: bool)
    | DoEcho(id: Id)
    | DoGap
    | DoForget(ids: set<Id>)

  predicate Enabled(q: Queue, a: Action) {
    match a
    case DoFail(txn) => txn in q.inFlight
    case DoSent(txn) => txn in q.inFlight
    case DoTimeout => q.timers > 0
    case _ => true
  }

  function Step(q: Queue, a: Action): Queue
    requires Enabled(q, a)
  {
    match a
    case DoProcess => Process(q)
    case DoFail(txn) => Failed(q, txn)
    case DoTimeout => Timeout(q)
    case DoSent(txn) => Sent(q, txn)
    case DoAdd(id, ts, sendable) => Add(q, id, ts, sendable)
    case DoEcho(id) => Echoed(q, id)
    case DoGap => q.(pending := map[])
    case DoForget(ids) => q.(stored := q.stored - ids)
  }

  /** The queue after the actions, in order; an action that is not enabled does nothing. */
  function Play(q: Queue, actions: seq<Action>): Queue {
    if actions == [] then q else
    var before, a := Play(q, actions[..|actions| - 1]), actions[|actions| - 1];
    if Enabled(before, a) then Step(before, a) else before
  }

  predicate Playable(q: Queue, actions: seq<Action>) {
    actions == [] ||
    (Playable(q, actions[..|actions| - 1]) && Enabled(Play(q, actions[..|actions| - 1]), actions[|actions| - 1]))
  }

  lemma Then(q: Queue, actions: seq<Action>, a: Action)
    requires Playable(q, actions) && Enabled(Play(q, actions), a)
    ensures Playable(q, actions + [a]) && Play(q, actions + [a]) == Step(Play(q, actions), a)
  {
    assert (actions + [a])[..|actions|] == actions;
  }

  lemma NothingPlayed(q: Queue)
    ensures Playable(q, []) && Play(q, []) == q
  {
  }

  lemma ProcessPicks(q: Queue, ts: int)
    requires q.currentTxn == "" && q.inFlight == multiset{}
    requires ts in q.pending && forall other :: other in q.pending ==> ts <= other
    requires var txn := q.pending[ts]; IsTxn(txn) && txn in q.stored && q.stored[txn]
    ensures var txn := q.pending[ts];
            Process(q) == q.(currentTxn := txn, inFlight := multiset{txn},
                  attempts := q.attempts[txn := Attempts(q, txn) + 1])
  {
    assert Least(q.pending.Keys) == ts;
  }

  /** The same with rows before it whose events are gone. */
  lemma ProcessPicksLive(q: Queue, ts: int)
    requires q.currentTxn == "" && q.inFlight == multiset{}
    requires ts in q.pending && q.pending[ts] in q.stored && q.stored[q.pending[ts]] && IsTxn(q.pending[ts])
    requires forall other :: other in q.pending && q.pending[other] in q.stored ==> ts <= other
    ensures var p, txn := SkipUnstored(q.pending, q.stored), q.pending[ts];
            && ts in p && p[ts] == txn && (forall other :: other in p ==> ts <= other)
            && Process(q) == q.(pending := p, currentTxn := txn, inFlight := multiset{txn},
                                attempts := q.attempts[txn := Attempts(q, txn) + 1])
  {
    var p := SkipUnstored(q.pending, q.stored);
    assert ts in p;
    assert Least(p.Keys) == ts;
  }

  lemma ProcessWaits(q: Queue)
    requires q.currentTxn != ""
    ensures Process(q) == q
  {
  }

  // ----- Messages that cannot be sent -----

  /** A current transaction without a request or a timer. */
  predicate Blocked(q: Queue) {
    q.currentTxn != "" && q.inFlight == multiset{} && q.timers == 0
  }

  /** An idle queue blocks exactly when the oldest message still stored has a foreign id or content that
      cannot be sent: it becomes the current transaction without a request. */
  lemma BlocksIff(q: Queue)
    requires q.currentTxn == "" && q.inFlight == multiset{} && q.timers == 0
    ensures var p := SkipUnstored(q.pending, q.stored);
            Blocked(Process(q)) <==>
            p != map[] && var txn := p[Least(p.Keys)]; txn != "" && (!IsTxn(txn) || !q.stored[txn])
    ensures Blocked(Process(q)) ==> Process(q).attempts == q.attempts
    ensures Blocked(Process(q)) ==>
              var p := SkipUnstored(q.pending, q.stored);
              forall ts :: ts in p ==> (ts !in Process(q).pending <==> p[ts] == p[Least(p.Keys)] && !IsTxn(p[ts]))
  {
    var p := SkipUnstored(q.pending, q.stored);
    if p != map[] {
      var txn := p[Least(p.Keys)];
      assert txn in q.inFlight + multiset{txn};
    }
  }

  /** From then on nothing is ever sent again, whatever is added, echoed or processed. */
  lemma {:induction false} BlockedForever(q: Queue, actions: seq<Action>)
    requires Blocked(q)
    ensures Blocked(Play(q, actions)) && Play(q, actions).attempts == q.attempts
  {
    if actions != [] {
      BlockedForever(q, actions[..|actions| - 1]);
    }
  }

  /** An id that can be sent, other than `txn`. */
  function OtherId(txn: Id): (id: Id)
    ensures IsTxn(id) && id != txn
  {
    if txn == "m" then "mm" else "m"
  }

  function Before(pending: map<int, Id>): (ts: int)
    ensures forall other :: other in pending ==> ts < other
  {
    if pending == map[] then 0 else Least(pending.Keys) - 1
  }

  /** A message that goes first is sent as soon as the queue is idle. */
  lemma FirstIsSent(q: Queue, id: Id, ts: int)
    requires q.currentTxn == "" && IsTxn(id) && id in q.stored && q.stored[id]
    requires ts in q.pending && q.pending[ts] == id && forall other :: other in q.pending ==> ts <= other
    ensures Process(q).attempts != q.attempts
  {
    assert Least(q.pending.Keys) == ts;
    assert Process(q).attempts[id] == Attempts(q, id) + 1;
  }

  lemma IdleSends(q: Queue) returns (actions: seq<Action>)
    requires q.currentTxn == ""
    ensures Playable(q, actions) && Play(q, actions).attempts != q.attempts
  {
    hide Process;
    var ts := Before(q.pending);
    FirstIsSent(q.(pending := q.pending[ts := "m"], stored := q.stored["m" := true]), "m", ts);
    NothingPlayed(q);
    Then(q, [], DoAdd("m", ts, true));
    actions := [] + [DoAdd("m", ts, true)];
  }

  lemma TimerSends(q: Queue) returns (actions: seq<Action>)
    requires q.currentTxn != "" && q.timers > 0
    ensures Playable(q, actions) && Play(q, actions).attempts != q.attempts
  {
    hide Process, Play, Playable;
    actions := AddsFirst(q, "m");
    FirstIsSent(Play(q, actions).(timers := q.timers - 1, currentTxn := ""), "m", Before(q.pending));
    Then(q, actions, DoTimeout);
    actions := actions + [DoTimeout];
  }

  lemma ResponseSends(q: Queue, txn: Id) returns (actions: seq<Action>)
    requires q.currentTxn != "" && txn in q.inFlight
    ensures Playable(q, actions) && Play(q, actions).attempts != q.attempts
  {
    hide Process, Play, Playable;
    var id := OtherId(txn);
    actions := AddsFirst(q, id);
    var added := Play(q, actions);
    FirstIsSent(added.(inFlight := q.inFlight - multiset{txn}, pending := Unsent(added.pending, txn),
          currentTxn := "", errorCount := 0),
                id, Before(q.pending));
    Then(q, actions, DoSent(txn));
    actions := actions + [DoSent(txn)];
  }

  /** Unless the queue is blocked, some message can still be sent. */
  lemma SomethingIsSent(q: Queue) returns (actions: seq<Action>)
    requires !Blocked(q)
    ensures Playable(q, actions) && Play(q, actions).attempts != q.attempts
  {
    hide Play, Playable;
    if q.currentTxn == "" {
      actions := IdleSends(q);
    } else if q.inFlight == multiset{} {
      actions := TimerSends(q);
    } else {
      var txn := Outstanding(q.inFlight);
      actions := ResponseSends(q, txn);
    }
  }

  lemma Outstanding(requests: multiset<Id>) returns (txn: Id)
    requires requests != multiset{}
    ensures txn in requests
  {
    txn :| txn in requests;
  }

  /** While something is under way an added message only waits. */
  lemma AddsFirst(q: Queue, id: Id) returns (actions: seq<Action>)
    requires q.currentTxn != ""
    ensures Playable(q, actions)
    ensures Play(q, actions) == q.(pending := q.pending[Before(q.pending) := id], stored := q.stored[id := true])
  {
    var ts := Before(q.pending);
    ProcessWaits(q.(pending := q.pending[ts := id], stored := q.stored[id := true]));
    NothingPlayed(q);
    Then(q, [], DoAdd(id, ts, true));
    actions := [] + [DoAdd(id, ts, true)];
  }

  /** A queue never sends again, whatever happens, exactly when it is blocked. */
  lemma NeverSendsAgainIff(q: Queue)
    ensures Blocked(q) <==> forall actions :: Play(q, actions).attempts == q.attempts
  {
    if Blocked(q) {
      forall actions
        ensures Play(q, actions).attempts == q.attempts
      {
        BlockedForever(q, actions);
      }
    } else {
      var actions := SomethingIsSent(q);
    }
  }

  // ----- Draining -----

  /** At most one request or retry timer. */
  predicate OneOutstanding(q: Queue) {
    && (q.currentTxn == "" ==> q.inFlight == multiset{} && q.timers == 0)
    && (q.currentTxn != "" ==>
          (q.inFlight == multiset{q.currentTxn} && q.timers == 0) || (q.inFlight == multiset{} && q.timers == 1))
    && q.errorCount <= 10
  }

  predicate AllSendable(q: Queue) {
    && (forall ts :: ts in q.pending ==> IsTxn(q.pending[ts]))
    && (forall ts :: ts in q.pending && q.pending[ts] in q.stored ==> q.stored[q.pending[ts]])
    && (forall a, b :: a in q.pending && b in q.pending && q.pending[a] == q.pending[b] ==> a == b)
  }

  lemma UnsentIsSmaller(pending: map<int, Id>, txn: Id)
    requires txn in pending.Values
    ensures |Unsent(pending, txn)| < |pending|
  {
    var rest := Unsent(pending, txn);
    assert rest.Keys <= pending.Keys;
    assert rest.Keys == pending.Keys ==> rest == pending;
    assert txn !in rest.Values;
    SubsetSize(rest.Keys, pending.Keys);
    assert |rest.Keys| == |rest| && |pending.Keys| == |pending|;
  }

  lemma SubsetSize<T>(a: set<T>, b: set<T>)
    requires a <= b
    ensures |a| <= |b| && (a != b ==> |a| < |b|)
  {
    if a != {} {
      var x :| x in a;
      SubsetSize(a - {x}, b - {x});
    }
  }

  lemma SkipIsSmaller(pending: map<int, Id>, stored: map<Id, bool>)
    ensures |SkipUnstored(pending, stored)| <= |pending|
  {
    var rest := SkipUnstored(pending, stored);
    assert rest.Keys <= pending.Keys;
    SubsetSize(rest.Keys, pending.Keys);
    assert |rest.Keys| == |rest| && |pending.Keys| == |pending|;
  }

  /** How many requests the queue can still cause. */
  function Work(q: Queue): nat
    requires q.errorCount <= 10
  {
    if q.pending == map[] then 0 else 11 * |q.pending| - q.errorCount
  }

  predicate Draining(q: Queue) {
    && OneOutstanding(q) && AllSendable(q)
    && (q.currentTxn == "" ==> q.pending == map[])
    && (q.inFlight != multiset{} ==> q.currentTxn in q.pending.Values)
  }

  lemma ProcessDrains(q: Queue)
    requires q.currentTxn == "" && q.inFlight == multiset{} && q.timers == 0 && q.errorCount <= 10 && AllSendable(q)
    ensures Draining(Process(q)) && Work(Process(q)) <= Work(q) && Process(q).timers == 0
  {
    var pending := SkipUnstored(q.pending, q.stored);
    SkipIsSmaller(q.pending, q.stored);
    if pending != map[] {
      var k := Least(pending.Keys);
      assert IsTxn(pending[k]) && q.stored[pending[k]];
      assert pending[k] in pending.Values;
      assert |multiset{pending[k]}| == 1;
    }
  }

  lemma ResponseDrains(q: Queue, sent: bool)
    requires Draining(q) && q.inFlight != multiset{}
    ensures var q' := if sent then Sent(q, q.currentTxn) else Timeout(Failed(q, q.currentTxn));
            Draining(q') && Work(q') < Work(q) && q'.timers == 0
  {
    var txn := q.currentTxn;
    assert q.inFlight - multiset{txn} == multiset{};
    UnsentIsSmaller(q.pending, txn);
    if sent {
      ProcessDrains(q.(inFlight := multiset{}, pending := Unsent(q.pending, txn), currentTxn := "", errorCount := 0));
    } else {
      ProcessDrains(Failed(q, txn).(timers := 0, currentTxn := ""));
    }
  }

  // ----- The object -----

  class MessageQueue {
    var pending: map<int, Id>
    var stored: map<Id, bool>
    var currentTxn: Id
    var errorCount: nat
    var inFlight: multiset<Id>
    var timers: nat
    ghost var attempts: map<Id, nat>

    constructor (pending: map<int, Id>, stored: map<Id, bool>)
      ensures View() == EMPTY_QUEUE.(pending := pending, stored := stored)
    {
      this.pending, this.stored := pending, stored;
      currentTxn, errorCount, inFlight, timers, attempts := "", 0, multiset{}, 0, map[];
    }

    ghost function View(): Queue
      reads this
    {
      Queue(pending, stored, currentTxn, errorCount, inFlight, timers, attempts)
    }

    method RemovePendingStatus(txn: Id)
      modifies this`pending
      ensures pending == Unsent(old(pending), txn)
    {
      pending := Unsend(pending, txn);
    }

    method FirstPendingMessage() returns (txn: Option<Id>)
      modifies this`pending
      ensures pending == SkipUnstored(old(pending), stored)
      ensures txn == if pending == map[] then None else Some(pending[Least(pending.Keys)])
    {
      while pending != map[]
        invariant SkipUnstored(pending, stored) == SkipUnstored(old(pending), stored)
        decreases |pending|
      {
        var ts := Least(pending.Keys);
        if pending[ts] in stored {
          return Some(pending[ts]);
        }
        WithoutIsSmaller(pending, ts);
        pending := Without(pending, ts);
      }
      return None;
    }

    method ProcessPending()
      modifies this
      ensures View() == Process(old(View()))
    {
      if currentTxn != "" {
        return;
      }
      var event := FirstPendingMessage();
      if event.None? {
        return;
      }
      currentTxn := event.value;
      if !IsTxn(currentTxn) {
        RemovePendingStatus(currentTxn);
        return;
      }
      if stored[currentTxn] {
        inFlight := inFlight + multiset{currentTxn};
        attempts := attempts[currentTxn := Attempts(View(), currentTxn) + 1];
      }
    }

    method MessageFailed(txn: Id)
      modifies this
      ensures View() == Failed(old(View()), txn)
      ensures timers == old(timers) + 1
    {
      inFlight := inFlight - multiset{txn};
      if currentTxn == txn {
        errorCount := errorCount + 1;
        if errorCount > 10 {
          RemovePendingStatus(txn);
          errorCount := 0;
        }
      }
      timers := timers + 1;
    }

    method RetryTimeout()
      requires timers > 0
      modifies this
      ensures View() == Timeout(old(View()))
    {
      timers := timers - 1;
      currentTxn := "";
      ProcessPending();
    }

    method MessageSent(txn: Id)
      modifies this
      ensures View() == Sent(old(View()), txn)
    {
      hide Process, Unsent;
      inFlight := inFlight - multiset{txn};
      RemovePendingStatus(txn);
      currentTxn := "";
      errorCount := 0;
      ProcessPending();
    }

    /** With nothing added, any pattern of successes and failures drains the queue in at most 11
        requests a message. */
    method Drain(outcome: nat -> bool) returns (responses: nat)
      requires currentTxn == "" && inFlight == multiset{} && timers == 0 && errorCount <= 10
      requires AllSendable(View())
      modifies this
      ensures pending == map[] && inFlight == multiset{}
      ensures responses <= 11 * |old(pending)|
    {
      hide Process, Failed, Sent, Timeout, AllSendable, Unsent;
      ghost var n := |pending|;
      ProcessDrains(View());
      ProcessPending();
      responses := 0;
      while inFlight != multiset{}
        invariant Draining(View()) && timers == 0
        invariant responses + Work(View()) <= 11 * n
        decreases Work(View())
      {
        var txn := currentTxn;
        ResponseDrains(View(), outcome(responses));
        UnsentIsSmaller(pending, txn);
        if outcome(responses) {
          MessageSent(txn);
        } else {
          MessageFailed(txn);
          RetryTimeout();
        }
        responses := responses + 1;
      }
    }
  }
}
