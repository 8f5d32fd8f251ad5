/** Which messages leave the send queue, and which one is sent: no message is lost on the way. */
module SendQueueRows {
  import opened Timeline
  import opened SendQueue
  import opened SendQueueRuns

  /** The row is that of a message of ours whose event is stored. */
  predicate Queued(q: Queue, ts: int, id: Id) {
    ts in q.pending && q.pending[ts] == id && id in q.stored && IsTxn(id)
  }

  /** The action ends the wait of a queued message: it has been sent, its echo has come, a gap has dropped it,
      it has failed for the eleventh time, its event is forgotten or another message takes its timestamp. */
  predicate Takes(q: Queue, a: Action, ts: int, id: Id) {
    match a
    case DoSent(txn) => txn == id
    case DoEcho(txn) => txn == id
    case DoGap => true
    case DoFail(txn) => txn == id && q.currentTxn == id && q.errorCount >= 10
    case DoForget(ids) => id in ids
    case DoAdd(other, at, _) => at == ts && other != id
    case _ => false
  }

  lemma ProcessKeeps(q: Queue, ts: int, id: Id)
    requires Queued(q, ts, id)
    ensures Queued(Process(q), ts, id)
  {
    hide IsTxn;
  }

  lemma UnsentKeeps(q: Queue, txn: Id, ts: int, id: Id)
    requires Queued(q, ts, id)
    ensures Queued(q.(pending := Unsent(q.pending, txn)), ts, id) <==> txn != id
  {
    hide IsTxn;
  }

  lemma ProcessAdds(q: Queue, ts: int, id: Id)
    requires !(ts in q.pending && q.pending[ts] == id)
    ensures !Queued(Process(q), ts, id)
  {
    hide IsTxn;
  }

  /** A queued message leaves the queue exactly by such an action. */
  lemma LeavesIff(q: Queue, a: Action, ts: int, id: Id)
    requires Enabled(q, a) && Queued(q, ts, id)
    ensures !Queued(Step(q, a), ts, id) <==> Takes(q, a, ts, id)
  {
    hide Process, Unsent, Queued;
    match a
    case DoProcess => ProcessKeeps(q, ts, id);
    case DoFail(txn) => FailLeaves(q, txn, ts, id);
    case DoTimeout =>
      SameRows(q, q.(timers := q.timers - 1, currentTxn := ""), ts, id);
      ProcessKeeps(q.(timers := q.timers - 1, currentTxn := ""), ts, id);
    case DoSent(txn) => SentLeaves(q, txn, ts, id);
    case DoAdd(other, at, sendable) => AddLeaves(q, other, at, sendable, ts, id);
    case DoEcho(txn) => EchoLeaves(q, txn, ts, id);
    case DoGap => GapLeaves(q, ts, id);
    case DoForget(ids) => ForgetLeaves(q, ids, ts, id);
  }

  lemma SameRows(q: Queue, q': Queue, ts: int, id: Id)
    requires q'.pending == q.pending && q'.stored == q.stored
    ensures Queued(q', ts, id) <==> Queued(q, ts, id)
  {
  }

  lemma FailLeaves(q: Queue, txn: Id, ts: int, id: Id)
    requires Queued(q, ts, id)
    ensures !Queued(Failed(q, txn), ts, id) <==> Takes(q, DoFail(txn), ts, id)
  {
    UnsentKeeps(q, txn, ts, id);
    hide IsTxn, Unsent;
  }

  lemma SentLeaves(q: Queue, txn: Id, ts: int, id: Id)
    requires Queued(q, ts, id)
    ensures !Queued(Sent(q, txn), ts, id) <==> txn == id
  {
    var before := q.(inFlight := q.inFlight - multiset{txn}, pending := Unsent(q.pending, txn),
                     currentTxn := "", errorCount := 0);
    UnsentKeeps(q, txn, ts, id);
    SameRows(q.(pending := Unsent(q.pending, txn)), before, ts, id);
    if txn == id {
      ProcessAdds(before, ts, id);
    } else {
      ProcessKeeps(before, ts, id);
    }
  }

  lemma AddLeaves(q: Queue, other: Id, at: int, sendable: bool, ts: int, id: Id)
    requires Queued(q, ts, id)
    ensures !Queued(Add(q, other, at, sendable), ts, id) <==> at == ts && other != id
  {
    var before := q.(pending := q.pending[at := other], stored := q.stored[other := sendable]);
    if at == ts && other != id {
      ProcessAdds(before, ts, id);
    } else {
      ProcessKeeps(before, ts, id);
    }
    hide Process;
  }

  lemma EchoLeaves(q: Queue, txn: Id, ts: int, id: Id)
    requires Queued(q, ts, id)
    ensures !Queued(Echoed(q, txn), ts, id) <==> txn == id
  {
    hide IsTxn;
  }

  lemma GapLeaves(q: Queue, ts: int, id: Id)
    ensures !Queued(q.(pending := map[]), ts, id)
  {
  }

  lemma ForgetLeaves(q: Queue, ids: set<Id>, ts: int, id: Id)
    requires Queued(q, ts, id)
    ensures !Queued(q.(stored := q.stored - ids), ts, id) <==> id in ids
  {
    hide IsTxn;
  }

  /** Over every run a queued message stays queued until one of these actions happens. */
  lemma {:induction false} StaysQueued(q: Queue, actions: seq<Action>, ts: int, id: Id)
    requires Queued(q, ts, id)
    requires forall n {:trigger actions[n]} :: 0 <= n < |actions| ==> !Takes(Play(q, actions[..n]), actions[n], ts, id)
    ensures Queued(Play(q, actions), ts, id)
  {
    hide Queued, Takes, Step;
    if actions != [] {
      var front, a := actions[..|actions| - 1], actions[|actions| - 1];
      forall n | 0 <= n < |front|
        ensures !Takes(Play(q, front[..n]), front[n], ts, id)
      {
        assert front[..n] == actions[..n] && front[n] == actions[n];
      }
      StaysQueued(q, front, ts, id);
      assert actions[..|front|] == front;
      if Enabled(Play(q, front), a) {
        LeavesIff(Play(q, front), a, ts, id);
      }
    }
  }

  // ----- Which message is sent -----

  /** The oldest message whose event is stored. */
  predicate IsOldest(q: Queue, ts: int) {
    ts in q.pending && LiveRow(q, ts) && forall row :: row in q.pending && LiveRow(q, row) ==> ts <= row
  }

  /** Processing makes one request, for the oldest stored message, if nothing is under way, the message is
      ours and can be sent; otherwise it makes none. */
  lemma RequestsIff(q: Queue, id: Id)
    ensures var sends := q.currentTxn == "" && IsTxn(id) && id in q.stored && q.stored[id] &&
                         exists ts :: IsOldest(q, ts) && q.pending[ts] == id;
            && Attempts(Process(q), id) == Attempts(q, id) + (if sends then 1 else 0)
            && Process(q).inFlight[id] == q.inFlight[id] + (if sends then 1 else 0)
            && (sends ==> Process(q).currentTxn == id)
  {
    hide IsTxn;
  }
}
