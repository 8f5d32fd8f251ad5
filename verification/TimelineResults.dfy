/** What the timeline index guarantees: over runs, for one echo, for retention and for clearing. */
module TimelineResults {
  import opened Wrappers
  import opened Timeline
  import opened TimelineProofs

  // ----- Forgetting events -----

  /** The tables without every row that belongs to one of the ids. */
  function Strip(t: Tables, ids: set<Id>): Tables {
    t.(eventOrder := map k | k in t.eventOrder && t.eventOrder[k].id !in ids :: t.eventOrder[k],
       event2order := t.event2order - ids,
       events := t.events - ids,
       order2msg := map r | r in t.order2msg && t.order2msg[r] !in ids :: t.order2msg[r],
       msg2order := t.msg2order - ids)
  }

  function Names(log: seq<Entry>): set<Id> {
    set e | e in log :: e.id
  }

  /** The pairs of tables are inverses of each other. */
  ghost predicate Paired(t: Tables) {
    && (forall k :: k in t.eventOrder ==> t.eventOrder[k].id in t.event2order && t.event2order[t.eventOrder[k].id] == k)
    && (forall id :: id in t.event2order ==>
          t.event2order[id] in t.eventOrder && t.eventOrder[t.event2order[id]].id == id)
    && (forall r :: r in t.order2msg ==> t.order2msg[r] in t.msg2order && t.msg2order[t.order2msg[r]] == r)
    && (forall id :: id in t.msg2order ==> t.msg2order[id] in t.order2msg && t.order2msg[t.msg2order[id]] == id)
  }

  lemma StripOne(t: Tables, ids: set<Id>, k: int)
    requires Paired(t) && k in t.eventOrder && t.eventOrder[k].id !in ids
    ensures k in Strip(t, ids).eventOrder
    ensures RemoveSlot(Strip(t, ids), k) == Strip(t, ids + {t.eventOrder[k].id})
  {
    var id := t.eventOrder[k].id;
    var r, d := RemoveSlot(Strip(t, ids), k), Strip(t, ids + {id});
    assert r.eventOrder == d.eventOrder;
    assert r.event2order == d.event2order;
    assert r.events == d.events;
    assert r.msg2order == d.msg2order;
    forall row | row in t.order2msg
      ensures row in r.order2msg <==> row in d.order2msg
    {
      assert t.order2msg[row] == id <==> id in t.msg2order && t.msg2order[id] == row;
    }
    assert r.order2msg == d.order2msg;
  }

  lemma StripNothing(t: Tables)
    ensures Strip(t, {}) == t
  {
    var c := Strip(t, {});
    assert c.eventOrder == t.eventOrder && c.event2order == t.event2order && c.order2msg == t.order2msg;
    assert c.msg2order == t.msg2order && c.events == t.events;
  }

  lemma KeysOf(t: Tables, log: seq<Entry>, base: int, msgBase: int)
    requires Represents(t, log, base, msgBase)
    ensures Paired(t)
    ensures forall k :: k in t.eventOrder <==> base <= k < base + |log|
    ensures forall i :: 0 <= i < |log| ==>
              base + i in t.eventOrder && t.eventOrder[base + i] == Slot(log[i].id, log[i].token)
  {
    ConsistentTables(t);
    forall k
      ensures k in t.eventOrder <==> base <= k < base + |log|
    {
      NumberedKey(SlotIds(t.eventOrder), t.event2order, Ids(log), base, k);
      assert k in SlotIds(t.eventOrder) <==> k in t.eventOrder;
    }
    forall i | 0 <= i < |log|
      ensures base + i in t.eventOrder && t.eventOrder[base + i] == Slot(log[i].id, log[i].token)
    {
      NumberedAt(SlotIds(t.eventOrder), t.event2order, Ids(log), base, i);
    }
  }

  /** An ordered id is among the first `n` exactly when its slot is. */
  lemma NamedBefore(t: Tables, log: seq<Entry>, base: int, msgBase: int, n: nat, id: Id)
    requires Represents(t, log, base, msgBase) && n <= |log| && id in t.event2order
    ensures id in Names(log[..n]) <==> t.event2order[id] < base + n
  {
    NumberedId(SlotIds(t.eventOrder), t.event2order, Ids(log), base, id);
    var i := t.event2order[id] - base;
    assert log[i].id == id;
    if i < n {
      assert log[..n][i] in log[..n];
    }
    if id in Names(log[..n]) {
      var e :| e in log[..n] && e.id == id;
      var j :| 0 <= j < n && log[..n][j] == e;
      DistinctIds(t, log, base, msgBase, i, j);
    }
  }

  /** The same for visible rows. */
  lemma RowBefore(t: Tables, log: seq<Entry>, base: int, msgBase: int, n: nat, id: Id)
    requires Represents(t, log, base, msgBase) && n <= |log| && id in t.msg2order
    ensures id in Names(log[..n]) <==> t.msg2order[id] < msgBase + Rank(log, n)
  {
    hide Visible;
    NumberedId(t.order2msg, t.msg2order, Visible(log), msgBase, id);
    var i := VisibleSource(log, t.msg2order[id] - msgBase);
    NumberedAt(SlotIds(t.eventOrder), t.event2order, Ids(log), base, i);
    NamedBefore(t, log, base, msgBase, n, id);
    RankMonotone(log, if i <= n then i else n, if i <= n then n else i);
  }

  lemma StripPrefixRepresents(t: Tables, log: seq<Entry>, base: int, msgBase: int, n: nat)
    requires Represents(t, log, base, msgBase) && n <= |log|
    ensures Represents(Strip(t, Names(log[..n])), log[n..], base + n, msgBase + Rank(log, n))
  {
    hide Visible, Numbered, Names;
    var c := Strip(t, Names(log[..n]));
    var r := Rank(log, n);
    assert log == log[..n] + log[n..];
    VisibleConcat(log[..n], log[n..]);
    assert Visible(log)[r..] == Visible(log[n..]) && Ids(log)[n..] == Ids(log[n..]);
    StripArrival(t, log, base, msgBase, n);
    StripRows(t, log, base, msgBase, n);
    KeysOf(t, log, base, msgBase);
    forall i | 0 <= i < |log[n..]|
      ensures log[n..][i].id != ""
      ensures base + n + i in c.eventOrder ==> c.eventOrder[base + n + i].prevBatch == log[n..][i].token
    {
      assert log[n..][i] == log[n + i];
      assert base + n + i == base + (n + i);
    }
  }

  lemma StripArrival(t: Tables, log: seq<Entry>, base: int, msgBase: int, n: nat)
    requires Represents(t, log, base, msgBase) && n <= |log|
    ensures var c := Strip(t, Names(log[..n]));
            Numbered(SlotIds(c.eventOrder), c.event2order, Ids(log)[n..], base + n)
  {
    hide Visible, Numbered, Names;
    var c := Strip(t, Names(log[..n]));
    var fwd := SlotIds(t.eventOrder);
    KeysOf(t, log, base, msgBase);
    forall id | id in t.event2order
      ensures id in Names(log[..n]) <==> t.event2order[id] < base + n
    {
      NamedBefore(t, log, base, msgBase, n, id);
    }
    NumberedDrop(fwd, t.event2order, Ids(log), base, n);
    assert SlotIds(c.eventOrder) == map k | k in fwd && base + n <= k :: fwd[k];
    assert c.event2order == map id | id in t.event2order && base + n <= t.event2order[id] :: t.event2order[id];
  }

  lemma StripRows(t: Tables, log: seq<Entry>, base: int, msgBase: int, n: nat)
    requires Represents(t, log, base, msgBase) && n <= |log|
    ensures Rank(log, n) <= |Visible(log)|
    ensures var c := Strip(t, Names(log[..n]));
            Numbered(c.order2msg, c.msg2order, Visible(log)[Rank(log, n)..], msgBase + Rank(log, n))
  {
    hide Visible, Numbered, Names;
    RankMonotone(log, n, |log|);
    assert log[..|log|] == log;
    var r, gone := Rank(log, n), Names(log[..n]);
    NumberedDrop(t.order2msg, t.msg2order, Visible(log), msgBase, r);
    NumberedMeans(t.order2msg, t.msg2order, Visible(log), msgBase);
    forall id | id in t.msg2order
      ensures id in gone <==> t.msg2order[id] < msgBase + r
    {
      RowBefore(t, log, base, msgBase, n, id);
    }
    StripRowsAgree(t, gone, msgBase + r);
  }

  lemma StripRowsAgree(t: Tables, gone: set<Id>, low: int)
    requires forall r :: r in t.order2msg ==> t.order2msg[r] in t.msg2order && t.msg2order[t.order2msg[r]] == r
    requires forall id :: id in t.msg2order ==> (id in gone <==> t.msg2order[id] < low)
    ensures Strip(t, gone).order2msg == map k | k in t.order2msg && low <= k :: t.order2msg[k]
    ensures Strip(t, gone).msg2order == map id | id in t.msg2order && low <= t.msg2order[id] :: t.msg2order[id]
  {
  }

  /** Dropping the entry after a stripped prefix, or the one before a kept suffix. */
  lemma NamesGrow(log: seq<Entry>, i: nat, j: nat)
    requires i < j <= |log|
    ensures Names(log[i..j]) == Names(log[i..j - 1]) + {log[j - 1].id} == {log[i].id} + Names(log[i + 1..j])
  {
    assert log[i..j] == log[i..j - 1] + [log[j - 1]] == [log[i]] + log[i + 1..j];
  }

  lemma StripKeys(t: Tables, log: seq<Entry>, base: int, msgBase: int, i: nat, j: nat, k: int)
    requires Represents(t, log, base, msgBase) && i <= j <= |log|
    ensures k in Strip(t, Names(log[i..j])).eventOrder <==> base <= k < base + i || base + j <= k < base + |log|
  {
    KeysOf(t, log, base, msgBase);
    if base <= k < base + |log| {
      var n := k - base;
      assert t.eventOrder[base + n].id == log[n].id;
      if i <= n < j {
        assert log[i..j][n - i] in log[i..j];
      } else {
        forall m | 0 <= m < j - i
          ensures log[i..j][m].id != log[n].id
        {
          assert log[i..j][m] == log[i + m];
          DifferentIds(t, log, base, msgBase, n, i + m);
        }
      }
    }
  }

  // ----- Retention -----

  lemma FirstOfStrip(t: Tables, log: seq<Entry>, base: int, msgBase: int, m: nat)
    requires Represents(t, log, base, msgBase) && m < |log|
    ensures base + m in Strip(t, Names(log[0..m])).eventOrder
    ensures FirstKey(Strip(t, Names(log[0..m])).eventOrder) == base + m
  {
    hide Represents, Names, Strip;
    var c := Strip(t, Names(log[0..m]));
    forall k
      ensures k in c.eventOrder <==> base + m <= k < base + |log|
    {
      StripKeys(t, log, base, msgBase, 0, m, k);
    }
  }

  lemma {:induction false} DropOldestStrips(t: Tables, log: seq<Entry>, base: int, msgBase: int, m: nat, n: nat)
    requires Represents(t, log, base, msgBase) && m + n <= |log|
    ensures DropOldest(Strip(t, Names(log[0..m])), n) == Strip(t, Names(log[0..m + n]))
    decreases n
  {
    hide Represents, Names, Strip, RemoveSlot, FirstKey;
    if n > 0 {
      FirstOfStrip(t, log, base, msgBase, m);
      RemoveNext(t, log, base, msgBase, 0, m, m);
      DropOldestStrips(t, log, base, msgBase, m + 1, n - 1);
      assert log[0..m + 1 + (n - 1)] == log[0..m + n];
    }
  }

  /** Removing the slot just above or just below a stripped stretch. */
  lemma RemoveNext(t: Tables, log: seq<Entry>, base: int, msgBase: int, i: nat, j: nat, n: nat)
    requires Represents(t, log, base, msgBase) && i <= j <= |log| && n < |log| && (n == j || n == i - 1)
    ensures base + n in Strip(t, Names(log[i..j])).eventOrder
    ensures RemoveSlot(Strip(t, Names(log[i..j])), base + n) ==
            Strip(t, Names(if n == j then log[i..j + 1] else log[n..j]))
  {
    hide Names, Visible, Numbered;
    KeysOf(t, log, base, msgBase);
    StripKeys(t, log, base, msgBase, i, j, base + n);
    NamesGrow(log, if n == j then i else n, if n == j then j + 1 else j);
    assert t.eventOrder[base + n] == Slot(log[n].id, log[n].token);
    hide Represents;
    StripOne(t, Names(log[i..j]), base + n);
    assert Names(log[i..j]) + {log[n].id} == {log[n].id} + Names(log[i..j]);
  }

  /** `deleteOldMessages` keeps exactly the newest MAX_RESTORED_MESSAGES + 1 events, in all tables. */
  lemma RetentionSimulates(t: Tables, log: seq<Entry>, base: int, msgBase: int) returns (n: nat)
    requires Represents(t, log, base, msgBase)
    ensures n <= |log| && log[n..] == LogRetain(log)
    ensures Retain(t) == Strip(t, Names(log[..n]))
    ensures Represents(Retain(t), LogRetain(log), base + n, msgBase + Rank(log, n))
  {
    hide Represents, Names, Strip, RemoveSlot, DropOldest;
    KeysOf(t, log, base, msgBase);
    n := if |log| <= MAX_RESTORED_MESSAGES + 1 then 0 else |log| - (MAX_RESTORED_MESSAGES + 1);
    if log != [] {
      assert base in t.eventOrder && base + |log| - 1 in t.eventOrder;
      assert FirstKey(t.eventOrder) == base && LastKey(t.eventOrder) == base + |log| - 1;
    } else {
      assert forall k :: k !in t.eventOrder;
    }
    NamesOfNothing(log);
    StripNothing(t);
    DropOldestStrips(t, log, base, msgBase, 0, n);
    assert log[0..n] == log[..n];
    StripPrefixRepresents(t, log, base, msgBase, n);
  }

  lemma NamesOfNothing(log: seq<Entry>)
    ensures forall n :: 0 <= n <= |log| ==> Names(log[n..n]) == {}
  {
  }

  // ----- Runs -----

  lemma PendingIsApart(t: Tables, log: seq<Entry>, base: int, msgBase: int, pending: map<int, Id>)
    requires Represents(t, log, base, msgBase)
    ensures Represents(t.(pending := pending), log, base, msgBase)
  {
  }

  lemma StepSimulates(t: Tables, log: seq<Entry>, base: int, msgBase: int, op: Op) returns (b: int, m: int)
    requires Represents(t, log, base, msgBase) && Admissible(log, op)
    ensures Represents(Apply(t, op), LogApply(log, op), b, m)
  {
    hide Represents, SaveTimeline, LogSync, SaveOld, LogOld, Retain, LogRetain;
    match op
    case Sync(batch) => b, m := SyncSimulates(t, log, base, msgBase, batch);
    case Send(e, now) =>
      b, m := SyncSimulates(t, log, base, msgBase, Batch([e], false, ""));
      PendingIsApart(SaveTimeline(t, Batch([e], false, "")), LogApply(log, op), b, m, SavePending(t, e, now).pending);
    case History(page) => b, m := HistorySimulates(t, log, base, msgBase, page);
    case Retention =>
      var n := RetentionSimulates(t, log, base, msgBase);
      b, m := base + n, msgBase + Rank(log, n);
  }

  /** Over every run of syncs, pending saves, history pages and retention, the tables stand for the
      list obtained by running the same operations on lists. */
  lemma {:induction false} RunSimulates(ops: seq<Op>) returns (base: int, msgBase: int)
    requires AdmissibleRun([], ops)
    ensures Represents(Run(EMPTY_TABLES, ops), LogRun([], ops), base, msgBase)
  {
    if ops == [] {
      EmptyRepresents(EMPTY_TABLES);
      base, msgBase := START + 1, START + 1;
    } else {
      var front := ops[..|ops| - 1];
      var b, m := RunSimulates(front);
      base, msgBase := StepSimulates(Run(EMPTY_TABLES, front), LogRun([], front), b, m, ops[|ops| - 1]);
    }
  }

  /** The index after any run: inverse pairs, no gaps, visible events ordered, orders in agreement. */
  lemma RunKeepsIndex(ops: seq<Op>)
    requires AdmissibleRun([], ops)
    ensures var t := Run(EMPTY_TABLES, ops);
            && Paired(t)
            && (forall k, l, m :: k in t.eventOrder && m in t.eventOrder && k <= l <= m ==> l in t.eventOrder)
            && (forall k, l, m :: k in t.order2msg && m in t.order2msg && k <= l <= m ==> l in t.order2msg)
            && (forall id :: id in t.msg2order ==> id in t.event2order)
            && (forall a, b :: a in t.msg2order && b in t.msg2order ==>
                  (t.msg2order[a] < t.msg2order[b] <==> t.event2order[a] < t.event2order[b]))
  {
    var base, msgBase := RunSimulates(ops);
    ConsistentTables(Run(EMPTY_TABLES, ops));
  }

  // ----- Ordered events are stored -----

  /** Every ordered id has its event in the event table. */
  ghost predicate Stocked(t: Tables) {
    forall id :: id in t.event2order ==> id in t.events && t.events[id].event.id == id
  }

  lemma SyncStepStocks(s: SyncState, e: Event, prevBatch: string)
    requires Stocked(s.t) && (e.id != "" && e.txn != "" && e.txn in s.t.event2order ==> e.id != e.txn)
    ensures Stocked(SyncStep(s, e, prevBatch).t)
  {
  }

  lemma {:induction false} SyncFoldStocks(s: SyncState, ls: LogState, base: int, msgBase: int,
                                          events: seq<Event>, prevBatch: string)
    requires Tracks(s, ls, base, msgBase) && FreshEchoes(ls, events, prevBatch) && Stocked(s.t)
    ensures Stocked(SyncFold(s, events, prevBatch).t)
  {
    hide SyncStep, LogStep, Stocked, Numbered, Visible;
    if events != [] {
      var front, e := events[..|events| - 1], events[|events| - 1];
      SyncFoldStocks(s, ls, base, msgBase, front, prevBatch);
      SyncFoldSimulates(s, ls, base, msgBase, front, prevBatch);
      HasIsOrdered(SyncFold(s, front, prevBatch).t, LogFold(ls, front, prevBatch).log, base, msgBase, e.txn);
      SyncStepStocks(SyncFold(s, front, prevBatch), e, prevBatch);
    }
  }

  lemma SyncStocks(t: Tables, log: seq<Entry>, base: int, msgBase: int, batch: Batch)
    requires Represents(t, log, base, msgBase) && GoodBatch(log, batch) && Stocked(t)
    ensures Stocked(SaveTimeline(t, batch))
  {
    if batch.events != [] {
      var b, m := SyncStartTracks(t, log, base, msgBase, batch.limited);
      hide Tracks, Represents;
      SyncFoldStocks(SyncStart(t, batch.limited), LogState(if batch.limited then [] else log, true), b, m,
                        batch.events, batch.prevBatch);
    }
  }

  lemma {:induction false} PageStocks(s: PageState, chunk: seq<Event>)
    requires Stocked(s.t)
    ensures Stocked(PageFold(s, chunk).t)
  {
    if chunk != [] {
      PageStocks(s, chunk[..|chunk| - 1]);
    }
  }

  lemma {:induction false} DropStocks(t: Tables, n: nat)
    requires Stocked(t)
    ensures Stocked(DropOldest(t, n))
    decreases n
  {
    if n > 0 && t.eventOrder != map[] {
      DropStocks(RemoveSlot(t, FirstKey(t.eventOrder)), n - 1);
    }
  }

  /** After any run, every ordered event is in the event table under its own id. */
  lemma {:induction false} RunStocks(ops: seq<Op>)
    requires AdmissibleRun([], ops)
    ensures Stocked(Run(EMPTY_TABLES, ops))
  {
    if ops != [] {
      hide SaveTimeline, PageFold, DropOldest, GoodBatch;
      var front := ops[..|ops| - 1];
      RunStocks(front);
      var base, msgBase := RunSimulates(front);
      hide Represents;
      var t, log := Run(EMPTY_TABLES, front), LogRun([], front);
      match ops[|ops| - 1]
      case Sync(batch) => SyncStocks(t, log, base, msgBase, batch);
      case Send(e, _) => SyncStocks(t, log, base, msgBase, Batch([e], false, ""));
      case History(page) => PageStocks(PageStart(t), page.chunk);
      case Retention => DropStocks(t, if t.eventOrder != map[] then Drops(t) else 0);
    }
  }

  /** How many slots retention drops. */
  function Drops(t: Tables): nat {
    var excess := LastKey(t.eventOrder) - FirstKey(t.eventOrder) - MAX_RESTORED_MESSAGES;
    if excess < 0 then 0 else excess
  }

  // ----- When the hypotheses fail -----

  lemma OnePlace(t: Tables, k: int)
    requires Consistent(t) && k in t.eventOrder
    ensures t.eventOrder[k].id in t.event2order && t.event2order[t.eventOrder[k].id] == k
  {
    ConsistentTables(t);
  }

  /** An echo leaves the index consistent exactly when it brings a fresh id. */
  lemma EchoConsistentIff(t: Tables, e: Event, token: Option<string>)
    requires Consistent(t) && e.id != "" && e.txn in t.event2order
    ensures Consistent(Echo(t, e, token)) <==> e.id != e.txn && e.id !in t.event2order
  {
    var log, base, msgBase :| Represents(t, log, base, msgBase);
    HasIsOrdered(t, log, base, msgBase, e.txn);
    HasIsOrdered(t, log, base, msgBase, e.id);
    if e.id != e.txn && e.id !in t.event2order {
      EchoSimulates(t, log, base, msgBase, e, token);
    } else {
      var t' := Echo(t, e, token);
      KeysOf(t, log, base, msgBase);
      if Consistent(t') {
        OnePlace(t', t.event2order[e.txn]);
        if e.id != e.txn {
          OnePlace(t', t.event2order[e.id]);
        }
      }
    }
  }

  /** A page leaves the index consistent exactly when its last event that is not a redaction is the
      one that ended up on the lowest slot. */
  lemma PageConsistentIff(t: Tables, log: seq<Entry>, base: int, msgBase: int, page: Page)
    requires Represents(t, log, base, msgBase) && NamedEvents(page.chunk)
    ensures Consistent(SaveOld(t, page)) <==> GoodPage(log, page)
  {
    GoodPageMeans(t, log, base, msgBase, page);
    hide GoodPage;
    if GoodPage(log, page) {
      var b, m := HistorySimulates(t, log, base, msgBase, page);
    } else {
      PageStartRepresents(t, log, base, msgBase);
      PageFoldSimulates(PageStart(t), log, page.chunk);
      var s := PageFold(PageStart(t), page.chunk);
      var log' := LogPage(log, page.chunk);
      KeysOf(s.t, log', s.index, s.msgIndex);
      var t' := SaveOld(t, page);
      assert s.index in t'.eventOrder && t'.eventOrder[s.index].id == s.lastId;
      assert t'.event2order == s.t.event2order;
      if Consistent(t') {
        OnePlace(t', s.index);
      }
    }
  }

  /** Such a page is easily had: a new event followed by one that is ordered already. */
  lemma DuplicateLastBreaksPage(t: Tables, log: seq<Entry>, base: int, msgBase: int, e: Event, known: Event,
                                end: string)
    requires Represents(t, log, base, msgBase)
    requires e.id != "" && e.redacts.None? && !Has(log, e.id) && known.redacts.None? && Has(log, known.id)
    ensures !Consistent(SaveOld(t, Page([e, known], end)))
  {
    var chunk := [e, known];
    assert chunk[..1] == [e] && [e][..0] == [];
    assert LastNew(log, []) == "" && LastNew(log, [e]) == e.id;
    assert known.id != "";
    PageConsistentIff(t, log, base, msgBase, Page(chunk, end));
  }

  // ----- One message from pending to echoed -----

  predicate ServerBatch(events: seq<Event>) {
    forall n :: 0 <= n < |events| ==> !IsTxn(events[n].id) && (events[n].txn == "" || IsTxn(events[n].txn))
  }

  /** The id the entry with id `id` carries after the events: that of its first echo, if any. */
  function Settled(id: Id, events: seq<Event>): Id {
    if events == [] then id else
    var before := Settled(id, events[..|events| - 1]);
    var e := events[|events| - 1];
    if before == id && e.id != "" && e.txn != "" && e.txn == id then e.id else before
  }

  predicate Echoes(events: seq<Event>, txn: Id) {
    exists n :: 0 <= n < |events| && events[n].id != "" && events[n].txn == txn
  }

  lemma {:induction false} SettledIds(id: Id, events: seq<Event>)
    requires ServerBatch(events) && id != ""
    ensures IsTxn(id) && Echoes(events, id) ==> !IsTxn(Settled(id, events)) && Settled(id, events) != ""
    ensures IsTxn(id) && !Echoes(events, id) ==> Settled(id, events) == id
    ensures !IsTxn(id) ==> Settled(id, events) == id
  {
    if events != [] {
      var front, e := events[..|events| - 1], events[|events| - 1];
      SettledIds(id, front);
      assert Echoes(events, id) <==> Echoes(front, id) || (e.id != "" && e.txn == id) by {
        if Echoes(front, id) {
          var n :| 0 <= n < |front| && front[n].id != "" && front[n].txn == id;
          assert events[n] == front[n];
        }
        if Echoes(events, id) {
          var n :| 0 <= n < |events| && events[n].id != "" && events[n].txn == id;
          assert n < |front| ==> front[n] == events[n];
        }
      }
    }
  }

  /** Nothing moved: each entry kept its place and visibility and took the id of its echo, and what is
      new does not carry a transaction id. */
  ghost predicate Settles(log: seq<Entry>, log': seq<Entry>, events: seq<Event>) {
    && |log| <= |log'|
    && (forall j :: 0 <= j < |log| ==> log'[j].visible == log[j].visible && log'[j].id == Settled(log[j].id, events))
    && (forall j :: |log| <= j < |log'| ==> !IsTxn(log'[j].id))
  }

  lemma StepSettles(t: Tables, log: seq<Entry>, mid: LogState, base: int, msgBase: int, events: seq<Event>,
                    prevBatch: string)
    requires events != [] && ServerBatch(events) && Represents(t, mid.log, base, msgBase)
    requires Settles(log, mid.log, events[..|events| - 1]) && forall j :: 0 <= j < |log| ==> log[j].id != ""
    ensures Settles(log, LogStep(mid, events[|events| - 1], prevBatch).log, events)
  {
    var front, e := events[..|events| - 1], events[|events| - 1];
    var after := LogStep(mid, e, prevBatch).log;
    forall j | 0 <= j < |log|
      ensures after[j].visible == log[j].visible && after[j].id == Settled(log[j].id, events)
    {
      SettledIds(log[j].id, front);
      if e.id != "" && e.txn != "" && Has(mid.log, e.txn) {
        var i := Find(mid.log, e.txn);
        if i != j {
          DifferentIds(t, mid.log, base, msgBase, i, j);
        }
      }
    }
    hide Represents, Settled;
  }

  /** A sync moves no entry: each keeps its place and visibility, and takes the id of its echo. */
  lemma {:induction false} FoldSettles(s: SyncState, ls: LogState, base: int, msgBase: int, events: seq<Event>,
                                       prevBatch: string)
    requires Tracks(s, ls, base, msgBase) && FreshEchoes(ls, events, prevBatch) && ServerBatch(events)
    ensures Settles(ls.log, LogFold(ls, events, prevBatch).log, events)
  {
    hide Numbered, Visible, LogStep, FreshEcho;
    if events != [] {
      var front := events[..|events| - 1];
      FoldSettles(s, ls, base, msgBase, front, prevBatch);
      SyncFoldSimulates(s, ls, base, msgBase, front, prevBatch);
      StepSettles(SyncFold(s, front, prevBatch).t, ls.log, LogFold(ls, front, prevBatch), base, msgBase, events,
            prevBatch);
    }
  }

  predicate Unstored(t: Tables, txn: Id) {
    txn !in t.events && txn !in t.pending.Values
  }

  lemma StepUnstores(s: SyncState, e: Event, prevBatch: string, txn: Id)
    requires e.id != txn && txn != ""
    requires Unstored(s.t, txn) || (e.id != "" && e.txn == txn && txn in s.t.event2order)
    ensures Unstored(SyncStep(s, e, prevBatch).t, txn)
  {
  }

  /** Once echoed, the transaction id is gone from the event and pending tables for good. */
  lemma {:induction false} EchoedIsGone(s: SyncState, ls: LogState, base: int, msgBase: int,
                                        events: seq<Event>, prevBatch: string, txn: Id)
    requires Tracks(s, ls, base, msgBase) && FreshEchoes(ls, events, prevBatch) && ServerBatch(events)
    requires IsTxn(txn) && Has(ls.log, txn) && Echoes(events, txn)
    ensures Unstored(SyncFold(s, events, prevBatch).t, txn)
  {
    hide Tracks, SyncStep, LogFold, FreshEcho;
    var front, e := events[..|events| - 1], events[|events| - 1];
    if Echoes(front, txn) {
      EchoedIsGone(s, ls, base, msgBase, front, prevBatch, txn);
    } else {
      LastEchoes(txn, events);
      StillOrdered(s, ls, base, msgBase, events, prevBatch, txn);
    }
    StepUnstores(SyncFold(s, front, prevBatch), e, prevBatch, txn);
  }

  lemma StillOrdered(s: SyncState, ls: LogState, base: int, msgBase: int, events: seq<Event>, prevBatch: string,
                     txn: Id)
    requires Tracks(s, ls, base, msgBase) && FreshEchoes(ls, events, prevBatch) && ServerBatch(events)
    requires IsTxn(txn) && Has(ls.log, txn) && events != [] && !Echoes(events[..|events| - 1], txn)
    ensures txn in SyncFold(s, events[..|events| - 1], prevBatch).t.event2order
  {
    var front := events[..|events| - 1];
    FoldSettles(s, ls, base, msgBase, front, prevBatch);
    SyncFoldSimulates(s, ls, base, msgBase, front, prevBatch);
    SettledIds(txn, front);
    var log := LogFold(ls, front, prevBatch).log;
    assert log[Find(ls.log, txn)].id == txn;
    HasIsOrdered(SyncFold(s, front, prevBatch).t, log, base, msgBase, txn);
  }

  /** A message saved as pending is the newest entry, and queued. */
  lemma SendPlaces(t: Tables, log: seq<Entry>, base: int, msgBase: int, e: Event, now: int) returns (b: int, m: int)
    requires Represents(t, log, base, msgBase)
    requires e.id != "" && e.txn == "" && e.redacts.None? && !Has(log, e.id)
    ensures Represents(SavePending(t, e, now), log + [Entry(e.id, !e.hidden, None)], b, m)
    ensures SavePending(t, e, now).pending == t.pending[now := e.id]
    ensures e.id in SavePending(t, e, now).events
  {
    var batch := Batch([e], false, "");
    var s := SyncStart(t, false);
    assert [e][..0] == [];
    b, m := SyncSimulates(t, log, base, msgBase, batch);
    HasIsOrdered(t, log, base, msgBase, e.id);
    assert SyncFold(s, [], "") == s && SyncFold(s, [e], "") == SaveNewest(s, e, None);
    assert LogFold(LogState(log, true), [], "") == LogState(log, true);
    PendingIsApart(SaveTimeline(t, batch), LogSync(log, batch), b, m, SavePending(t, e, now).pending);
  }

  // ----- Where history continues -----

  lemma OldestTokenOf(t: Tables, log: seq<Entry>, base: int, msgBase: int)
    requires Represents(t, log, base, msgBase) && log != []
    ensures OldestToken(t.eventOrder) == if log[0].token.Some? then log[0].token.value else ""
  {
    NumberedEnds(SlotIds(t.eventOrder), t.event2order, Ids(log), base);
    NumberedAt(SlotIds(t.eventOrder), t.event2order, Ids(log), base, 0);
    assert SlotIds(t.eventOrder).Keys == t.eventOrder.Keys;
  }

  /** After a page the next request for history starts where the page ended. */
  lemma PageContinues(t: Tables, log: seq<Entry>, base: int, msgBase: int, page: Page)
    requires Represents(t, log, base, msgBase) && NamedEvents(page.chunk) && GoodPage(log, page)
    requires log != [] || LastKept(page.chunk) != ""
    ensures OldestToken(SaveOld(t, page).eventOrder) == page.end
  {
    var b, m := HistorySimulates(t, log, base, msgBase, page);
    GoodPageMeans(t, log, base, msgBase, page);
    OldestTokenOf(SaveOld(t, page), LogOld(log, page), b, m);
  }

  /** An event that takes a slot in an empty list. */
  predicate Arrives(events: seq<Event>) {
    exists n :: 0 <= n < |events| && events[n].id != "" && events[n].redacts.None?
  }

  lemma {:induction false} GapFold(events: seq<Event>, prevBatch: string)
    requires ServerBatch(events)
    ensures var s := LogFold(LogState([], true), events, prevBatch);
            && (forall j :: 0 <= j < |s.log| ==> !IsTxn(s.log[j].id))
            && (s.log != [] <==> Arrives(events)) && (s.first <==> s.log == [])
            && (s.log != [] ==> s.log[0].token == Token(true, prevBatch))
  {
    if events != [] {
      var front, e := events[..|events| - 1], events[|events| - 1];
      GapFold(front, prevBatch);
      assert Arrives(events) <==> Arrives(front) || (e.id != "" && e.redacts.None?) by {
        assert forall n :: 0 <= n < |front| ==> events[n] == front[n];
      }
    }
  }

  /** After a gap it starts where the sync says, as soon as an event has arrived. */
  lemma GapContinues(t: Tables, log: seq<Entry>, base: int, msgBase: int, batch: Batch)
    requires Represents(t, log, base, msgBase) && GoodBatch(log, batch)
    requires batch.limited && ServerBatch(batch.events) && Arrives(batch.events)
    ensures OldestToken(SaveTimeline(t, batch).eventOrder) == batch.prevBatch
  {
    var b, m := SyncSimulates(t, log, base, msgBase, batch);
    GapFold(batch.events, batch.prevBatch);
    OldestTokenOf(SaveTimeline(t, batch), LogSync(log, batch), b, m);
  }

  /** The echo of an ordered transaction id in a sync that is not limited. The server's id takes over
      the arrival slot and the visible row; the transaction id disappears from every table; every id
      that is not echoed by this batch keeps both its positions. */
  lemma EchoSettles(t: Tables, log: seq<Entry>, base: int, msgBase: int, batch: Batch, txn: Id) returns (server: Id)
    requires Represents(t, log, base, msgBase) && !batch.limited
    requires GoodBatch(log, batch) && ServerBatch(batch.events)
    requires IsTxn(txn) && txn in t.event2order && Echoes(batch.events, txn)
    ensures server == Settled(txn, batch.events)
    ensures exists n :: 0 <= n < |batch.events| && batch.events[n].id == server && batch.events[n].txn == txn
    ensures var t' := SaveTimeline(t, batch);
            && Consistent(t')
            && server in t'.event2order && t'.event2order[server] == t.event2order[txn]
            && (txn in t.msg2order <==> server in t'.msg2order)
            && (txn in t.msg2order ==> t'.msg2order[server] == t.msg2order[txn])
            && txn !in t'.event2order && txn !in t'.msg2order && txn !in t'.events && txn !in t'.pending.Values
            && (forall id :: id in t.event2order && !Echoes(batch.events, id) ==>
                  && id in t'.event2order && t'.event2order[id] == t.event2order[id]
                  && (id in t.msg2order <==> id in t'.msg2order)
                  && (id in t.msg2order ==> t'.msg2order[id] == t.msg2order[id]))
  {
    hide Visible, Numbered, Find;
    var t' := SaveTimeline(t, batch);
    var ls := LogState(log, true);
    HasIsOrdered(t, log, base, msgBase, txn);
    var b, m := SyncStartTracks(t, log, base, msgBase, false);
    var s := SyncStart(t, false);
    SyncFoldSimulates(s, ls, b, m, batch.events, batch.prevBatch);
    FoldSettles(s, ls, b, m, batch.events, batch.prevBatch);
    EchoedIsGone(s, ls, b, m, batch.events, batch.prevBatch, txn);
    var log' := LogSync(log, batch);
    server := Settled(txn, batch.events);
    SettledFrom(txn, batch.events);
    SettledIds(txn, batch.events);
    Positions(t, log, b, m, t', log', Find(log, txn));
    if Has(log', txn) {
      NotSettledOnTxn(log, log', batch.events, txn);
    }
    HasIsOrdered(t', log', b, m, txn);
    VisibleIsOrdered(t', log', b, m, txn);
    forall id | id in t.event2order && !Echoes(batch.events, id)
      ensures id in t'.event2order && t'.event2order[id] == t.event2order[id]
      ensures id in t.msg2order <==> id in t'.msg2order
      ensures id in t.msg2order ==> t'.msg2order[id] == t.msg2order[id]
    {
      HasIsOrdered(t, log, b, m, id);
      SettledIds(id, batch.events);
      Positions(t, log, b, m, t', log', Find(log, id));
    }
  }

  lemma {:induction false} SettledFrom(txn: Id, events: seq<Event>)
    requires Echoes(events, txn) && ServerBatch(events) && IsTxn(txn)
    ensures exists n :: 0 <= n < |events| && events[n].id == Settled(txn, events) && events[n].txn == txn
  {
    var front := events[..|events| - 1];
    if Echoes(front, txn) {
      SettledFrom(txn, front);
      SettledIds(txn, front);
      var n :| 0 <= n < |front| && front[n].id == Settled(txn, front) && front[n].txn == txn;
      assert events[n] == front[n];
    } else {
      SettledIds(txn, front);
      LastEchoes(txn, events);
    }
  }

  lemma LastEchoes(txn: Id, events: seq<Event>)
    requires Echoes(events, txn) && !Echoes(events[..|events| - 1], txn)
    ensures events[|events| - 1].id != "" && events[|events| - 1].txn == txn
  {
    var n :| 0 <= n < |events| && events[n].id != "" && events[n].txn == txn;
    assert forall m :: 0 <= m < |events| - 1 ==> events[..|events| - 1][m] == events[m];
  }

  lemma NotSettledOnTxn(log: seq<Entry>, log': seq<Entry>, events: seq<Event>, txn: Id)
    requires ServerBatch(events) && IsTxn(txn) && Echoes(events, txn) && |log| <= |log'|
    requires forall j :: 0 <= j < |log| ==> log[j].id != "" && log'[j].id == Settled(log[j].id, events)
    requires forall j :: |log| <= j < |log'| ==> !IsTxn(log'[j].id)
    ensures !Has(log', txn)
  {
    if Has(log', txn) {
      var j := Find(log', txn);
      assert j < |log|;
      SettledIds(log[j].id, events);
    }
  }

  /** Two lists with the same visibilities up to `i` place entry `i` alike in their tables. */
  lemma Positions(t: Tables, log: seq<Entry>, base: int, msgBase: int, t': Tables, log': seq<Entry>, i: nat)
    requires Represents(t, log, base, msgBase) && Represents(t', log', base, msgBase)
    requires i < |log| <= |log'| && forall j :: 0 <= j < |log| ==> log'[j].visible == log[j].visible
    ensures log[i].id in t.event2order && log'[i].id in t'.event2order
    ensures t'.event2order[log'[i].id] == t.event2order[log[i].id] == base + i
    ensures log[i].id in t.msg2order <==> log'[i].id in t'.msg2order
    ensures log[i].id in t.msg2order ==> t'.msg2order[log'[i].id] == t.msg2order[log[i].id]
  {
    NumberedAt(SlotIds(t.eventOrder), t.event2order, Ids(log), base, i);
    NumberedAt(SlotIds(t'.eventOrder), t'.event2order, Ids(log'), base, i);
    RowOf(t, log, base, msgBase, i);
    RowOf(t', log', base, msgBase, i);
    SameRank(log[..i], log'[..i]);
  }

  lemma {:induction false} SameRank(a: seq<Entry>, b: seq<Entry>)
    requires |a| == |b| && forall j :: 0 <= j < |a| ==> a[j].visible == b[j].visible
    ensures |Visible(a)| == |Visible(b)|
  {
    if a != [] {
      SameRank(a[..|a| - 1], b[..|b| - 1]);
    }
  }
}
