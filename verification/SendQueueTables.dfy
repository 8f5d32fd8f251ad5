/** The send queue over the room's tables: what the table operations do to it, and which unsent messages
    clearing and retention leave to be sent. */
module SendQueueTables {
  import opened Wrappers
  import opened Timeline
  import opened TimelineProofs
  import opened TimelineResults
  import opened TimelineClear
  import opened SendQueue
  import opened SendQueueRuns

  /** The queue has the rows of the pending table, and knows for each whether its event is stored. */
  ghost predicate Backs(t: Tables, q: Queue) {
    && q.pending == t.pending
    && forall ts :: ts in t.pending ==> (t.pending[ts] in q.stored <==> t.pending[ts] in t.events)
  }

  // ----- Each table operation is a step of the queue -----

  lemma StripBacks(t: Tables, q: Queue, ids: set<Id>)
    requires Backs(t, q)
    ensures Backs(Strip(t, ids), Step(q, DoForget(ids)))
  {
  }

  /** Clearing forgets the events before the newest pagination token and keeps every pending row. */
  lemma ClearBacks(t: Tables, log: seq<Entry>, base: int, msgBase: int, q: Queue)
    requires Represents(t, log, base, msgBase) && Backs(t, q)
    ensures Backs(Clear(t), Step(q, DoForget(Names(log[..NewestToken(log)]))))
  {
    DropsToSuffix(t, log, base, msgBase);
    StripBacks(t, q, Names(log[..NewestToken(log)]));
    hide Clear;
  }

  /** Retention forgets the events it drops and keeps every pending row. */
  lemma RetentionBacks(t: Tables, log: seq<Entry>, base: int, msgBase: int, q: Queue) returns (n: nat)
    requires Represents(t, log, base, msgBase) && Backs(t, q)
    ensures n <= |log| && log[n..] == LogRetain(log)
    ensures Backs(Retain(t), Step(q, DoForget(Names(log[..n]))))
  {
    n := RetentionSimulates(t, log, base, msgBase);
    StripBacks(t, q, Names(log[..n]));
    hide Retain;
  }

  /** A gap drops the pending rows. */
  lemma GapBacks(t: Tables, q: Queue)
    requires Backs(t, q)
    ensures Backs(Timeline.Forget(t), Step(q, DoGap))
  {
  }

  /** An echo takes the message out of the queue. */
  lemma EchoBacks(t: Tables, q: Queue, e: Event, token: Option<string>)
    requires Backs(t, q) && e.txn in t.event2order && e.id != e.txn
    requires forall ts :: ts in t.pending ==> t.pending[ts] != e.id
    ensures Backs(Echo(t, e, token), Step(q, DoEcho(e.txn)))
  {
  }

  /** A pending save adds the row that the queue then looks at. */
  lemma SendBacks(t: Tables, log: seq<Entry>, base: int, msgBase: int, q: Queue, e: Event, now: int, sendable: bool)
    requires Represents(t, log, base, msgBase) && Backs(t, q)
    requires e.id != "" && e.txn == "" && e.redacts.None? && !Has(log, e.id)
    ensures Backs(SavePending(t, e, now),
                  q.(pending := q.pending[now := e.id], stored := q.stored[e.id := sendable]))
  {
    var b, m := SendPlaces(t, log, base, msgBase, e, now);
    var s := SyncStart(t, false);
    assert [e][..0] == [];
    assert SyncFold(s, [], "") == s && SyncFold(s, [e], "") == SaveNewest(s, e, None);
  }

  // ----- What is left to be sent -----

  lemma LiveAfterForgetting(t: Tables, log: seq<Entry>, base: int, msgBase: int, q: Queue, n: nat, i: nat)
    requires Represents(t, log, base, msgBase) && Stocked(t) && Backs(t, q)
    requires n <= |log| && i < |log| && IsPending(t.pending, log[i].id)
    ensures IsLive(Step(q, DoForget(Names(log[..n]))), log[i].id) <==> n <= i
  {
    var id := log[i].id;
    assert Has(log, id);
    HasIsOrdered(t, log, base, msgBase, id);
    DistinctIds(t, log, base, msgBase, i, Find(log, id));
    NamedBefore(t, log, base, msgBase, n, id);
    var ts :| ts in t.pending && t.pending[ts] == id;
    assert t.pending[ts] in q.stored;
    hide Represents, Find;
  }

  /** A pending message is still sent after a clear exactly when it is not older than the newest
      pagination token. */
  lemma SentAfterClearIff(t: Tables, log: seq<Entry>, base: int, msgBase: int, q: Queue, i: nat)
    requires Represents(t, log, base, msgBase) && Stocked(t) && Backs(t, q)
    requires i < |log| && IsPending(t.pending, log[i].id)
    ensures Backs(Clear(t), Step(q, DoForget(Names(log[..NewestToken(log)]))))
    ensures IsLive(Step(q, DoForget(Names(log[..NewestToken(log)]))), log[i].id) <==> NewestToken(log) <= i
  {
    ClearBacks(t, log, base, msgBase, q);
    LiveAfterForgetting(t, log, base, msgBase, q, NewestToken(log), i);
  }

  /** After retention exactly when it is among the newest MAX_RESTORED_MESSAGES + 1. */
  lemma SentAfterRetentionIff(t: Tables, log: seq<Entry>, base: int, msgBase: int, q: Queue, i: nat) returns (n: nat)
    requires Represents(t, log, base, msgBase) && Stocked(t) && Backs(t, q)
    requires i < |log| && IsPending(t.pending, log[i].id)
    ensures n <= |log| && Backs(Retain(t), Step(q, DoForget(Names(log[..n]))))
    ensures IsLive(Step(q, DoForget(Names(log[..n]))), log[i].id) <==> |log| - i <= MAX_RESTORED_MESSAGES + 1
  {
    n := RetentionBacks(t, log, base, msgBase, q);
    LiveAfterForgetting(t, log, base, msgBase, q, n, i);
    assert |log[n..]| == |LogRetain(log)|;
  }
}
