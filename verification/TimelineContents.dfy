/** What the event table and the pending table hold after a sync, a page or a run: which version of an event,
    what a redaction leaves of it, and which unsent messages. */
module TimelineContents {
  import opened Wrappers
  import opened Timeline
  import opened TimelineProofs
  import opened TimelineResults

  function Row(t: Tables, id: Id): Option<Stored> {
    if id in t.events then Some(t.events[id]) else None
  }

  /** The tables when event `n` of the batch is reached. */
  function Reached(t: Tables, batch: Batch, n: nat): Tables
    requires n <= |batch.events|
  {
    SyncFold(SyncStart(t, batch.limited), batch.events[..n], batch.prevBatch).t
  }

  lemma ReachedAll(t: Tables, batch: Batch)
    requires batch.events != []
    ensures Reached(t, batch, |batch.events|) == SaveTimeline(t, batch)
    ensures Reached(t, batch, 0).events == t.events
  {
    assert batch.events[..|batch.events|] == batch.events;
  }

  lemma ReachedNext(t: Tables, batch: Batch, n: nat) returns (s: SyncState)
    requires n < |batch.events|
    ensures s.t == Reached(t, batch, n)
    ensures SyncStep(s, batch.events[n], batch.prevBatch).t == Reached(t, batch, n + 1)
  {
    s := SyncFold(SyncStart(t, batch.limited), batch.events[..n], batch.prevBatch);
    assert batch.events[..n + 1][..n] == batch.events[..n];
  }

  /** The event names a pending entry that is ordered: it is the echo of a message. */
  predicate IsEcho(t: Tables, e: Event) {
    e.id != "" && e.txn != "" && e.txn in t.event2order
  }

  /** Event `n` of the batch is a redaction of `target` when it is reached. */
  predicate Redacts(t: Tables, batch: Batch, n: nat, target: Id)
    requires n < |batch.events|
  {
    var e := batch.events[n];
    e.id != "" && e.redacts == Some(target) && target != "" && !IsEcho(Reached(t, batch, n), e)
  }

  /** The event brings the row of an id or echoes it away. */
  predicate Saves(e: Event, id: Id) {
    e.id != "" && (e.id == id || e.txn == id)
  }

  lemma StepLeaves(s: SyncState, e: Event, prevBatch: string, id: Id)
    requires !Saves(e, id)
    requires e.redacts == Some(id) ==> id == "" || e.id == "" || IsEcho(s.t, e)
    ensures Row(SyncStep(s, e, prevBatch).t, id) == Row(s.t, id)
  {
  }

  /** What is not saved and not redacted from event `n` on keeps its row. */
  lemma {:induction false} KeepsRow(t: Tables, batch: Batch, n: nat, m: nat, id: Id)
    requires n <= m <= |batch.events|
    requires forall k :: n <= k < m ==> !Saves(batch.events[k], id) && !Redacts(t, batch, k, id)
    ensures Row(Reached(t, batch, m), id) == Row(Reached(t, batch, n), id)
    decreases m
  {
    if n < m {
      KeepsRow(t, batch, n, m - 1, id);
      var s := ReachedNext(t, batch, m - 1);
      assert !Saves(batch.events[m - 1], id) && !Redacts(t, batch, m - 1, id);
      hide Reached, SyncStep;
      StepLeaves(s, batch.events[m - 1], batch.prevBatch, id);
    }
  }

  /** An event that a sync neither brings, echoes nor redacts keeps its row, whether or not there is a gap. */
  lemma UntouchedKeepsRow(t: Tables, batch: Batch, id: Id)
    requires forall n :: 0 <= n < |batch.events| ==> !Saves(batch.events[n], id) && !Redacts(t, batch, n, id)
    ensures Row(SaveTimeline(t, batch), id) == Row(t, id)
  {
    if batch.events != [] {
      ReachedAll(t, batch);
      KeepsRow(t, batch, 0, |batch.events|, id);
    }
  }

  /** After a sync an id holds the last event with that id, be it new, a duplicate or an echo, unless it is
      redacted afterwards. */
  lemma LastBroughtIsStored(t: Tables, batch: Batch, n: nat)
    requires n < |batch.events|
    requires var e := batch.events[n];
             && e.id != "" && e.id != e.txn && (e.redacts.None? || IsEcho(Reached(t, batch, n), e))
             && forall k :: n < k < |batch.events| ==> !Saves(batch.events[k], e.id) && !Redacts(t, batch, k, e.id)
    ensures Row(SaveTimeline(t, batch), batch.events[n].id) == Some(Stored(batch.events[n], None))
  {
    ReachedAll(t, batch);
    var s := ReachedNext(t, batch, n);
    KeepsRow(t, batch, n + 1, |batch.events|, batch.events[n].id);
    hide Reached;
  }

  /** The last redaction of a stored event leaves it without its text and marked by that redaction, if the
      event is not saved again; the redaction is stored under its own id. */
  lemma RedactedIsEmptied(t: Tables, batch: Batch, n: nat, target: Id)
    requires n < |batch.events| && Redacts(t, batch, n, target) && target in Reached(t, batch, n).events
    requires batch.events[n].id != target
    requires forall k :: n < k < |batch.events| ==> !Saves(batch.events[k], target) && !Redacts(t, batch, k, target)
    ensures var row := Row(SaveTimeline(t, batch), target);
            && row.Some? && row.value.event.body == "" && row.value.redactedBy == Some(batch.events[n].id)
            && row.value.event == Reached(t, batch, n).events[target].event.(body := "")
    ensures var e := batch.events[n];
            (forall k :: n < k < |batch.events| ==> !Saves(batch.events[k], e.id) && !Redacts(t, batch, k, e.id)) ==>
              Row(SaveTimeline(t, batch), e.id) == Some(Stored(e, None))
  {
    var e := batch.events[n];
    ReachedAll(t, batch);
    var s := ReachedNext(t, batch, n);
    KeepsRow(t, batch, n + 1, |batch.events|, target);
    if forall k :: n < k < |batch.events| ==> !Saves(batch.events[k], e.id) && !Redacts(t, batch, k, e.id) {
      KeepsRow(t, batch, n + 1, |batch.events|, e.id);
    }
    hide Reached, Redacts;
  }

  /** A redaction of an event that is not stored leaves nothing behind, not even itself. */
  lemma RedactionWithoutTarget(t: Tables, batch: Batch, n: nat, target: Id)
    requires n < |batch.events| && Redacts(t, batch, n, target) && target !in Reached(t, batch, n).events
    ensures Reached(t, batch, n + 1) == Reached(t, batch, n)
  {
    var s := ReachedNext(t, batch, n);
    hide Reached;
  }

  // ----- Pages and pending saves -----

  /** The last event of a page that has this id and is not a redaction. */
  function Latest(chunk: seq<Event>, id: Id): Option<Event> {
    if chunk == [] then None else
    var e := chunk[|chunk| - 1];
    if e.redacts.None? && e.id == id then Some(e) else Latest(chunk[..|chunk| - 1], id)
  }

  lemma {:induction false} PageFoldRows(s: PageState, chunk: seq<Event>, id: Id)
    ensures Row(PageFold(s, chunk).t, id) ==
            if Latest(chunk, id).Some? then Some(Stored(Latest(chunk, id).value, None)) else Row(s.t, id)
    ensures PageFold(s, chunk).t.pending == s.t.pending
  {
    if chunk != [] {
      PageFoldRows(s, chunk[..|chunk| - 1], id);
    }
  }

  /** A page stores for each id the last of its events that is not a redaction, and changes nothing else in
      the event table and nothing in the pending table. */
  lemma PageRows(t: Tables, page: Page, id: Id)
    ensures Row(SaveOld(t, page), id) ==
            if Latest(page.chunk, id).Some? then Some(Stored(Latest(page.chunk, id).value, None)) else Row(t, id)
    ensures SaveOld(t, page).pending == t.pending
  {
    if page.chunk != [] {
      PageFoldRows(PageStart(t), page.chunk, id);
    }
  }

  /** A new pending message is stored as it is, and no other row changes. */
  lemma SendRows(t: Tables, e: Event, now: int, id: Id)
    requires e.id != "" && e.txn == "" && e.redacts.None?
    ensures Row(SavePending(t, e, now), id) == if id == e.id then Some(Stored(e, None)) else Row(t, id)
  {
    assert [e][..0] == [];
    assert SyncFold(SyncStart(t, false), [e], "") == SyncStep(SyncFold(SyncStart(t, false), [], ""), e, "");
  }

  // ----- A redacted text does not come back -----

  /** Some event of the operation, redactions of a page aside, has this id. */
  predicate BringsBack(op: Op, id: Id) {
    match op
    case Sync(batch) => exists n :: 0 <= n < |batch.events| && batch.events[n].id == id
    case Send(e, _) => e.id == id
    case History(page) => Latest(page.chunk, id).Some?
    case Retention => false
  }

  predicate TextGone(t: Tables, id: Id) {
    id in t.events ==> t.events[id].event.body == ""
  }

  lemma {:induction false} SyncKeepsGone(s: SyncState, events: seq<Event>, prevBatch: string, id: Id)
    requires TextGone(s.t, id) && forall n :: 0 <= n < |events| ==> events[n].id != id
    ensures TextGone(SyncFold(s, events, prevBatch).t, id)
  {
    if events != [] {
      SyncKeepsGone(s, events[..|events| - 1], prevBatch, id);
    }
  }

  lemma {:induction false} DropKeepsGone(t: Tables, n: nat, id: Id)
    requires TextGone(t, id)
    ensures TextGone(DropOldest(t, n), id)
    decreases n
  {
    if n > 0 && t.eventOrder != map[] {
      DropKeepsGone(RemoveSlot(t, FirstKey(t.eventOrder)), n - 1, id);
    }
  }

  lemma StepKeepsGone(t: Tables, op: Op, id: Id)
    requires TextGone(t, id) && !BringsBack(op, id)
    ensures TextGone(Apply(t, op), id)
  {
    hide SyncFold, PageFold, DropOldest;
    match op
    case Sync(batch) =>
      SyncKeepsGone(SyncStart(t, batch.limited), batch.events, batch.prevBatch, id);
    case Send(e, _) =>
      SyncKeepsGone(SyncStart(t, false), [e], "", id);
    case History(page) =>
      PageRows(t, page, id);
    case Retention => DropKeepsGone(t, if t.eventOrder != map[] then Drops(t) else 0, id);
  }

  /** Over every run the text of a redacted event stays away unless an event with its id is brought again. */
  lemma {:induction false} RunKeepsGone(t: Tables, ops: seq<Op>, id: Id)
    requires TextGone(t, id) && forall n :: 0 <= n < |ops| ==> !BringsBack(ops[n], id)
    ensures TextGone(Run(t, ops), id)
  {
    hide Apply, TextGone;
    if ops != [] {
      RunKeepsGone(t, ops[..|ops| - 1], id);
      StepKeepsGone(Run(t, ops[..|ops| - 1]), ops[|ops| - 1], id);
    }
  }

  // ----- The pending table -----

  lemma {:induction false} NeverOrdered(s: SyncState, events: seq<Event>, prevBatch: string, txn: Id)
    requires ServerBatch(events) && IsTxn(txn) && txn !in s.t.event2order
    ensures txn !in SyncFold(s, events, prevBatch).t.event2order
  {
    if events != [] {
      NeverOrdered(s, events[..|events| - 1], prevBatch, txn);
    }
  }

  lemma {:induction false} KeepsPending(s: SyncState, events: seq<Event>, prevBatch: string, ts: int)
    requires ServerBatch(events) && ts in s.t.pending && IsTxn(s.t.pending[ts])
    requires s.t.pending[ts] !in s.t.event2order || !Echoes(events, s.t.pending[ts])
    ensures var p := SyncFold(s, events, prevBatch).t.pending; ts in p && p[ts] == s.t.pending[ts]
  {
    if events != [] {
      var front, e, txn := events[..|events| - 1], events[|events| - 1], s.t.pending[ts];
      assert Echoes(front, txn) ==> Echoes(events, txn) by {
        if Echoes(front, txn) {
          var n :| 0 <= n < |front| && front[n].id != "" && front[n].txn == txn;
          assert events[n] == front[n];
        }
      }
      KeepsPending(s, front, prevBatch, ts);
      if txn !in s.t.event2order {
        NeverOrdered(s, front, prevBatch, txn);
      }
    }
  }

  lemma {:induction false} NoNewPending(s: SyncState, events: seq<Event>, prevBatch: string)
    ensures var p := SyncFold(s, events, prevBatch).t.pending;
            forall ts :: ts in p ==> ts in s.t.pending && p[ts] == s.t.pending[ts]
  {
    if events != [] {
      NoNewPending(s, events[..|events| - 1], prevBatch);
    }
  }

  /** A sync without a gap takes exactly those messages off the pending table that are ordered and that it
      echoes; a gap with events empties it. */
  lemma PendingAfterSync(t: Tables, log: seq<Entry>, base: int, msgBase: int, batch: Batch, ts: int)
    requires Represents(t, log, base, msgBase) && GoodBatch(log, batch) && ServerBatch(batch.events)
    requires ts in t.pending && IsTxn(t.pending[ts])
    ensures var t', txn := SaveTimeline(t, batch), t.pending[ts];
            && (ts in t'.pending <==>
                  batch.events == [] || (!batch.limited && !(txn in t.event2order && Echoes(batch.events, txn))))
            && (ts in t'.pending ==> t'.pending[ts] == txn)
  {
    var txn := t.pending[ts];
    hide Tracks, FreshEchoes;
    if batch.events != [] {
      var s := SyncStart(t, batch.limited);
      NoNewPending(s, batch.events, batch.prevBatch);
      if !batch.limited {
        if txn in t.event2order && Echoes(batch.events, txn) {
          var b, m := SyncStartTracks(t, log, base, msgBase, false);
          HasIsOrdered(t, log, base, msgBase, txn);
          EchoedIsGone(s, LogState(log, true), b, m, batch.events, batch.prevBatch, txn);
        } else {
          KeepsPending(s, batch.events, batch.prevBatch, ts);
        }
      }
    }
  }
}
