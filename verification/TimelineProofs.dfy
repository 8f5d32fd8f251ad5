/** The table operations refine the list operations, over every run. */
module TimelineProofs {
  import opened Wrappers
  import opened Timeline

  // ----- One numbering and its inverse -----

  lemma NumberedAt(fwd: map<int, Id>, back: map<Id, int>, ids: seq<Id>, base: int, i: nat)
    requires Numbered(fwd, back, ids, base) && i < |ids|
    ensures base + i in fwd && fwd[base + i] == ids[i]
    ensures ids[i] in back && back[ids[i]] == base + i
  {
  }

  lemma NumberedId(fwd: map<int, Id>, back: map<Id, int>, ids: seq<Id>, base: int, id: Id)
    requires Numbered(fwd, back, ids, base) && id in back
    ensures 0 <= back[id] - base < |ids| && ids[back[id] - base] == id
  {
    assert back[id] in fwd;
    assert ids[back[id] - base] == fwd[base + (back[id] - base)];
  }

  lemma NumberedKey(fwd: map<int, Id>, back: map<Id, int>, ids: seq<Id>, base: int, k: int)
    requires Numbered(fwd, back, ids, base)
    ensures k in fwd <==> base <= k < base + |ids|
    ensures k in fwd ==> fwd[k] == ids[k - base]
  {
    if base <= k < base + |ids| {
      NumberedAt(fwd, back, ids, base, k - base);
    }
  }

  lemma NumberedAppend(fwd: map<int, Id>, back: map<Id, int>, ids: seq<Id>, base: int, x: Id)
    requires Numbered(fwd, back, ids, base) && x !in back
    ensures Numbered(fwd[base + |ids| := x], back[x := base + |ids|], ids + [x], base)
  {
    var fwd', back', ids' := fwd[base + |ids| := x], back[x := base + |ids|], ids + [x];
    forall i | 0 <= i < |ids'|
      ensures At(fwd', base + i, ids'[i])
    {
      if i < |ids| {
        NumberedAt(fwd, back, ids, base, i);
      }
    }
    forall k | k in fwd'
      ensures fwd'[k] in back' && back'[fwd'[k]] == k
    {
      assert k == base + |ids| || k in fwd;
    }
  }

  lemma NumberedPrepend(fwd: map<int, Id>, back: map<Id, int>, ids: seq<Id>, base: int, x: Id)
    requires Numbered(fwd, back, ids, base) && x !in back
    ensures Numbered(fwd[base - 1 := x], back[x := base - 1], [x] + ids, base - 1)
  {
    var fwd', back', ids' := fwd[base - 1 := x], back[x := base - 1], [x] + ids;
    forall i | 0 <= i < |ids'|
      ensures At(fwd', base - 1 + i, ids'[i])
    {
      if i > 0 {
        NumberedAt(fwd, back, ids, base, i - 1);
      }
    }
    forall k | k in fwd'
      ensures fwd'[k] in back' && back'[fwd'[k]] == k
    {
      assert k == base - 1 || k in fwd;
    }
  }

  lemma NumberedReplace(fwd: map<int, Id>, back: map<Id, int>, ids: seq<Id>, base: int, i: nat, x: Id)
    requires Numbered(fwd, back, ids, base) && i < |ids| && x !in back
    ensures Numbered(fwd[base + i := x], back[x := base + i] - {ids[i]}, ids[i := x], base)
  {
    NumberedAt(fwd, back, ids, base, i);
  }

  lemma NumberedDrop(fwd: map<int, Id>, back: map<Id, int>, ids: seq<Id>, base: int, n: nat)
    requires Numbered(fwd, back, ids, base) && n <= |ids|
    ensures Numbered(map k | k in fwd && base + n <= k :: fwd[k],
                     map id | id in back && base + n <= back[id] :: back[id],
                     ids[n..], base + n)
  {
    forall i | 0 <= i < |ids[n..]|
      ensures At(fwd, base + n + i, ids[n..][i])
    {
      NumberedAt(fwd, back, ids, base, n + i);
    }
  }

  lemma NumberedEnds(fwd: map<int, Id>, back: map<Id, int>, ids: seq<Id>, base: int)
    requires Numbered(fwd, back, ids, base)
    ensures ids == [] <==> fwd == map[]
    ensures ids != [] ==> FirstKey(fwd) == base && LastKey(fwd) == base + |ids| - 1
  {
    if ids != [] {
      NumberedAt(fwd, back, ids, base, 0);
      NumberedAt(fwd, back, ids, base, |ids| - 1);
    } else {
      assert forall k :: k !in fwd;
    }
  }

  lemma NumberedMeans(fwd: map<int, Id>, back: map<Id, int>, ids: seq<Id>, base: int)
    requires Numbered(fwd, back, ids, base)
    ensures forall k :: k in fwd ==> fwd[k] in back && back[fwd[k]] == k
    ensures forall id :: id in back ==> back[id] in fwd && fwd[back[id]] == id
    ensures forall k, l, m :: k in fwd && m in fwd && k <= l <= m ==> l in fwd
  {
    forall k, l, m | k in fwd && m in fwd && k <= l <= m
      ensures l in fwd
    {
      NumberedKey(fwd, back, ids, base, l);
    }
  }

  lemma SlotIdsPut(order: map<int, Slot>, k: int, slot: Slot)
    ensures SlotIds(order[k := slot]) == SlotIds(order)[k := slot.id]
  {
  }

  // ----- The visible part of a list -----

  lemma {:induction false} VisibleConcat(a: seq<Entry>, b: seq<Entry>)
    ensures Visible(a + b) == Visible(a) + Visible(b)
  {
    if b == [] {
      assert a + b == a;
    } else {
      VisibleConcat(a, b[..|b| - 1]);
      assert (a + b)[..|a + b| - 1] == a + b[..|b| - 1];
    }
  }

  lemma VisibleOne(e: Entry)
    ensures Visible([e]) == if e.visible then [e.id] else []
  {
    assert [e][..0] == [];
  }

  /** How many visible entries precede entry `i`. */
  function Rank(log: seq<Entry>, i: nat): nat
    requires i <= |log|
  {
    |Visible(log[..i])|
  }

  lemma CutAt<T>(s: seq<T>, i: nat)
    requires i < |s|
    ensures s == (s[..i] + [s[i]]) + s[i + 1..]
  {
    assert s[..i + 1] == s[..i] + [s[i]];
  }

  lemma VisibleSplit(log: seq<Entry>, i: nat)
    requires i < |log|
    ensures Visible(log) == Visible(log[..i]) + (if log[i].visible then [log[i].id] else []) + Visible(log[i + 1..])
  {
    hide Visible;
    var before, here, after := log[..i], log[i], log[i + 1..];
    CutAt(log, i);
    VisibleConcat(before + [here], after);
    VisibleConcat(before, [here]);
    VisibleOne(here);
  }

  lemma VisibleReplace(log: seq<Entry>, i: nat, e: Entry)
    requires i < |log| && e.visible == log[i].visible
    ensures e.visible ==> Rank(log, i) < |Visible(log)| && Visible(log[i := e]) == Visible(log)[Rank(log, i) := e.id]
    ensures !e.visible ==> Visible(log[i := e]) == Visible(log)
  {
    hide Visible;
    VisibleSplit(log, i);
    VisibleSplit(log[i := e], i);
    assert log[i := e][..i] == log[..i] && log[i := e][i + 1..] == log[i + 1..];
    var before, after := Visible(log[..i]), Visible(log[i + 1..]);
    if e.visible {
      assert (before + [log[i].id] + after)[|before| := e.id] == before + [e.id] + after;
    }
  }

  lemma RankMonotone(log: seq<Entry>, i: nat, j: nat)
    requires i <= j <= |log|
    ensures Rank(log, i) <= Rank(log, j)
    ensures i < j && log[i].visible ==> Rank(log, i) < Rank(log, j)
  {
    assert log[..i] + log[i..j] == log[..j];
    VisibleConcat(log[..i], log[i..j]);
    if i < j && log[i].visible {
      VisibleSplit(log[i..j], 0);
    }
  }

  /** Where the `r`-th visible entry sits in the list. */
  lemma {:induction false} VisibleSource(log: seq<Entry>, r: nat) returns (i: nat)
    requires r < |Visible(log)|
    ensures i < |log| && log[i].visible && log[i].id == Visible(log)[r] && Rank(log, i) == r
  {
    var front := log[..|log| - 1];
    if r < |Visible(front)| {
      i := VisibleSource(front, r);
      assert log[..i] == front[..i];
    } else {
      i := |log| - 1;
    }
  }

  // ----- Reading the tables through the list -----

  lemma HasIsOrdered(t: Tables, log: seq<Entry>, base: int, msgBase: int, id: Id)
    requires Represents(t, log, base, msgBase)
    ensures Has(log, id) <==> id in t.event2order
    ensures Has(log, id) ==> t.event2order[id] == base + Find(log, id)
  {
    if id in t.event2order {
      assert log[t.event2order[id] - base].id == Ids(log)[t.event2order[id] - base];
    }
    if Has(log, id) {
      assert Ids(log)[Find(log, id)] == id;
    }
  }

  lemma DistinctIds(t: Tables, log: seq<Entry>, base: int, msgBase: int, i: nat, j: nat)
    requires Represents(t, log, base, msgBase)
    requires i < |log| && j < |log| && log[i].id == log[j].id
    ensures i == j
  {
    assert Ids(log)[i] == Ids(log)[j];
  }

  lemma DifferentIds(t: Tables, log: seq<Entry>, base: int, msgBase: int, i: nat, j: nat)
    requires Represents(t, log, base, msgBase)
    requires i < |log| && j < |log| && i != j
    ensures log[i].id != log[j].id
  {
    assert Ids(log)[i] == log[i].id && Ids(log)[j] == log[j].id;
  }

  /** Entry `i` has a row in the visible tables exactly when it is visible, and which one. */
  lemma RowOf(t: Tables, log: seq<Entry>, base: int, msgBase: int, i: nat)
    requires Represents(t, log, base, msgBase) && i < |log|
    ensures log[i].id in t.msg2order <==> log[i].visible
    ensures log[i].visible ==> t.msg2order[log[i].id] == msgBase + Rank(log, i)
  {
    var id := log[i].id;
    if id in t.msg2order {
      var j := VisibleSource(log, t.msg2order[id] - msgBase);
      DistinctIds(t, log, base, msgBase, i, j);
    }
    if log[i].visible {
      VisibleSplit(log, i);
      assert Visible(log)[Rank(log, i)] == id;
    }
  }

  lemma VisibleIsOrdered(t: Tables, log: seq<Entry>, base: int, msgBase: int, id: Id)
    requires Represents(t, log, base, msgBase)
    ensures id in t.msg2order ==> id in t.event2order
  {
    if id in t.msg2order {
      var i := VisibleSource(log, t.msg2order[id] - msgBase);
      assert Ids(log)[i] == id;
    }
  }

  /** What consistency buys: both tables are inverse pairs without gaps, every visible event is
      ordered, and the two orders agree. */
  lemma ConsistentTables(t: Tables)
    requires Consistent(t)
    ensures forall k :: k in t.eventOrder ==>
              t.eventOrder[k].id in t.event2order && t.event2order[t.eventOrder[k].id] == k
    ensures forall id :: id in t.event2order ==>
              t.event2order[id] in t.eventOrder && t.eventOrder[t.event2order[id]].id == id
    ensures forall r :: r in t.order2msg ==> t.order2msg[r] in t.msg2order && t.msg2order[t.order2msg[r]] == r
    ensures forall id :: id in t.msg2order ==> t.msg2order[id] in t.order2msg && t.order2msg[t.msg2order[id]] == id
    ensures forall k, l, m :: k in t.eventOrder && m in t.eventOrder && k <= l <= m ==> l in t.eventOrder
    ensures forall k, l, m :: k in t.order2msg && m in t.order2msg && k <= l <= m ==> l in t.order2msg
    ensures forall id :: id in t.msg2order ==> id in t.event2order
    ensures forall a, b :: a in t.msg2order && b in t.msg2order ==>
              (t.msg2order[a] < t.msg2order[b] <==> t.event2order[a] < t.event2order[b])
  {
    hide Numbered;
    var log, base, msgBase :| Represents(t, log, base, msgBase);
    NumberedMeans(SlotIds(t.eventOrder), t.event2order, Ids(log), base);
    NumberedMeans(t.order2msg, t.msg2order, Visible(log), msgBase);
    assert forall k :: k in t.eventOrder <==> k in SlotIds(t.eventOrder);
    forall id | id in t.msg2order
      ensures id in t.event2order
    {
      VisibleIsOrdered(t, log, base, msgBase, id);
    }
    forall a, b | a in t.msg2order && b in t.msg2order
      ensures t.msg2order[a] < t.msg2order[b] <==> t.event2order[a] < t.event2order[b]
    {
      OrdersAgree(t, log, base, msgBase, a, b);
    }
  }

  lemma OrdersAgree(t: Tables, log: seq<Entry>, base: int, msgBase: int, a: Id, b: Id)
    requires Represents(t, log, base, msgBase)
    requires a in t.msg2order && b in t.msg2order
    ensures a in t.event2order && b in t.event2order
    ensures t.msg2order[a] < t.msg2order[b] <==> t.event2order[a] < t.event2order[b]
  {
    var i := VisibleSource(log, t.msg2order[a] - msgBase);
    var j := VisibleSource(log, t.msg2order[b] - msgBase);
    assert Ids(log)[i] == a && Ids(log)[j] == b;
    RankMonotone(log, if i <= j then i else j, if i <= j then j else i);
  }

  // ----- Sync -----

  /** The loop state of a sync against the list: the counters sit on the newest keys. */
  ghost predicate Tracks(s: SyncState, ls: LogState, base: int, msgBase: int) {
    && Represents(s.t, ls.log, base, msgBase)
    && s.index == base + |ls.log| - 1
    && s.msgIndex == msgBase + |Visible(ls.log)| - 1
    && s.first == ls.first
  }

  lemma EchoSimulates(t: Tables, log: seq<Entry>, base: int, msgBase: int, e: Event, token: Option<string>)
    requires Represents(t, log, base, msgBase)
    requires e.id != "" && Has(log, e.txn) && e.id != e.txn && !Has(log, e.id)
    ensures e.txn in t.event2order
    ensures var i := Find(log, e.txn);
            Represents(Echo(t, e, token), log[i := Entry(e.id, log[i].visible, token)], base, msgBase)
    ensures |Visible(log[Find(log, e.txn) := Entry(e.id, log[Find(log, e.txn)].visible, token)])| == |Visible(log)|
  {
    hide Numbered, Visible;
    HasIsOrdered(t, log, base, msgBase, e.txn);
    HasIsOrdered(t, log, base, msgBase, e.id);
    VisibleIsOrdered(t, log, base, msgBase, e.id);
    var i := Find(log, e.txn);
    var entry := Entry(e.id, log[i].visible, token);
    var log' := log[i := entry];
    assert Ids(log') == Ids(log)[i := e.id] && Ids(log)[i] == e.txn;
    SlotIdsPut(t.eventOrder, base + i, Slot(e.id, token));
    NumberedReplace(SlotIds(t.eventOrder), t.event2order, Ids(log), base, i, e.id);
    RowOf(t, log, base, msgBase, i);
    VisibleReplace(log, i, entry);
    if entry.visible {
      VisibleSplit(log, i);
      NumberedReplace(t.order2msg, t.msg2order, Visible(log), msgBase, Rank(log, i), e.id);
    }
  }

  lemma AppendSimulates(s: SyncState, ls: LogState, base: int, msgBase: int, e: Event, token: Option<string>)
    requires Tracks(s, ls, base, msgBase)
    requires e.id != "" && !Has(ls.log, e.id)
    ensures Tracks(SaveNewest(s, e, token), LogState(ls.log + [Entry(e.id, !e.hidden, token)], false), base, msgBase)
  {
    hide Numbered, Visible;
    var log, entry := ls.log, Entry(e.id, !e.hidden, token);
    HasIsOrdered(s.t, log, base, msgBase, e.id);
    VisibleIsOrdered(s.t, log, base, msgBase, e.id);
    assert Ids(log + [entry]) == Ids(log) + [e.id];
    SlotIdsPut(s.t.eventOrder, s.index + 1, Slot(e.id, token));
    NumberedAppend(SlotIds(s.t.eventOrder), s.t.event2order, Ids(log), base, e.id);
    VisibleConcat(log, [entry]);
    VisibleOne(entry);
    assert e.hidden ==> Visible(log + [entry]) == Visible(log);
    if !e.hidden {
      NumberedAppend(s.t.order2msg, s.t.msg2order, Visible(log), msgBase, e.id);
    }
  }

  lemma SyncStepSimulates(s: SyncState, ls: LogState, base: int, msgBase: int, e: Event, prevBatch: string)
    requires Tracks(s, ls, base, msgBase) && FreshEcho(ls.log, e)
    ensures Tracks(SyncStep(s, e, prevBatch), LogStep(ls, e, prevBatch), base, msgBase)
  {
    if e.id != "" {
      var token := Token(s.first, prevBatch);
      HasIsOrdered(s.t, ls.log, base, msgBase, e.txn);
      HasIsOrdered(s.t, ls.log, base, msgBase, e.id);
      if e.txn != "" && Has(ls.log, e.txn) {
        EchoSimulates(s.t, ls.log, base, msgBase, e, token);
      } else if e.redacts.None? && !Has(ls.log, e.id) {
        AppendSimulates(s, ls, base, msgBase, e, token);
      }
    }
  }

  lemma {:induction false} SyncFoldSimulates(s: SyncState, ls: LogState, base: int, msgBase: int,
                                             events: seq<Event>, prevBatch: string)
    requires Tracks(s, ls, base, msgBase) && FreshEchoes(ls, events, prevBatch)
    ensures Tracks(SyncFold(s, events, prevBatch), LogFold(ls, events, prevBatch), base, msgBase)
  {
    hide Tracks, SyncStep, LogStep, FreshEcho;
    if events != [] {
      var front := events[..|events| - 1];
      SyncFoldSimulates(s, ls, base, msgBase, front, prevBatch);
      SyncStepSimulates(SyncFold(s, front, prevBatch), LogFold(ls, front, prevBatch), base, msgBase,
            events[|events| - 1], prevBatch);
    }
  }

  lemma EmptyRepresents(t: Tables)
    requires t.eventOrder == map[] && t.event2order == map[] && t.order2msg == map[] && t.msg2order == map[]
    ensures Represents(t, [], START + 1, START + 1) && Consistent(t)
  {
    assert Represents(t, [], START + 1, START + 1);
  }

  lemma SyncStartTracks(t: Tables, log: seq<Entry>, base: int, msgBase: int, limited: bool) returns (b: int, m: int)
    requires Represents(t, log, base, msgBase)
    ensures Tracks(SyncStart(t, limited), LogState(if limited then [] else log, true), b, m)
    ensures !limited ==> (log != [] ==> b == base) && (Visible(log) != [] ==> m == msgBase)
  {
    if limited {
      b, m := START + 1, START + 1;
      EmptyRepresents(Forget(t));
    } else {
      NumberedEnds(SlotIds(t.eventOrder), t.event2order, Ids(log), base);
      NumberedEnds(t.order2msg, t.msg2order, Visible(log), msgBase);
      assert SlotIds(t.eventOrder).Keys == t.eventOrder.Keys;
      assert t.eventOrder == map[] <==> SlotIds(t.eventOrder) == map[];
      assert |Ids(log)| == |log|;
      b := if log == [] then START + 1 else base;
      m := if Visible(log) == [] then START + 1 else msgBase;
    }
  }

  lemma SyncSimulates(t: Tables, log: seq<Entry>, base: int, msgBase: int, batch: Batch) returns (b: int, m: int)
    requires Represents(t, log, base, msgBase) && GoodBatch(log, batch)
    ensures Represents(SaveTimeline(t, batch), LogSync(log, batch), b, m)
    ensures !batch.limited ==> (log != [] ==> b == base) && (Visible(log) != [] ==> m == msgBase)
  {
    if batch.events == [] {
      b, m := base, msgBase;
    } else {
      b, m := SyncStartTracks(t, log, base, msgBase, batch.limited);
      SyncFoldSimulates(SyncStart(t, batch.limited), LogState(if batch.limited then [] else log, true), b, m,
                        batch.events, batch.prevBatch);
    }
  }

  // ----- History -----

  lemma PrependSimulates(t: Tables, log: seq<Entry>, base: int, msgBase: int, t': Tables, e: Entry)
    requires Represents(t, log, base, msgBase) && e.id != "" && !Has(log, e.id)
    requires t'.eventOrder == t.eventOrder[base - 1 := Slot(e.id, e.token)]
    requires t'.event2order == t.event2order[e.id := base - 1]
    requires t'.order2msg == if e.visible then t.order2msg[msgBase - 1 := e.id] else t.order2msg
    requires t'.msg2order == if e.visible then t.msg2order[e.id := msgBase - 1] else t.msg2order
    ensures Represents(t', [e] + log, base - 1, if e.visible then msgBase - 1 else msgBase)
  {
    hide Numbered, Visible;
    HasIsOrdered(t, log, base, msgBase, e.id);
    VisibleIsOrdered(t, log, base, msgBase, e.id);
    assert Ids([e] + log) == [e.id] + Ids(log);
    SlotIdsPut(t.eventOrder, base - 1, Slot(e.id, e.token));
    NumberedPrepend(SlotIds(t.eventOrder), t.event2order, Ids(log), base, e.id);
    VisibleConcat([e], log);
    VisibleOne(e);
    assert !e.visible ==> Visible([e] + log) == Visible(log);
    if e.visible {
      NumberedPrepend(t.order2msg, t.msg2order, Visible(log), msgBase, e.id);
    }
    forall i | 0 <= i < |[e] + log|
      ensures ([e] + log)[i].id != ""
      ensures base - 1 + i in t'.eventOrder ==> t'.eventOrder[base - 1 + i].prevBatch == ([e] + log)[i].token
    {
      if i > 0 {
        assert ([e] + log)[i] == log[i - 1];
        assert base - 1 + i == base + (i - 1);
      }
    }
    assert ([e] + log)[0] == e;
  }

  lemma PageStepSimulates(s: PageState, log: seq<Entry>, e: Event)
    requires Represents(s.t, log, s.index, s.msgIndex) && e.id != ""
    ensures var s' := PageStep(s, e);
            Represents(s'.t, if e.redacts.Some? || Has(log, e.id) then log else [Entry(e.id, !e.hidden, None)] + log,
                       s'.index, s'.msgIndex)
  {
    hide Numbered, Visible;
    HasIsOrdered(s.t, log, s.index, s.msgIndex, e.id);
    if e.redacts.None? && !Has(log, e.id) {
      PrependSimulates(s.t, log, s.index, s.msgIndex, PageStep(s, e).t, Entry(e.id, !e.hidden, None));
    }
  }

  lemma {:induction false} PageFoldSimulates(s: PageState, log: seq<Entry>, chunk: seq<Event>)
    requires Represents(s.t, log, s.index, s.msgIndex) && NamedEvents(chunk)
    ensures var s' := PageFold(s, chunk); Represents(s'.t, LogPage(log, chunk), s'.index, s'.msgIndex)
    ensures PageFold(s, chunk).lastId == if LastKept(chunk) == "" then s.lastId else LastKept(chunk)
  {
    if chunk != [] {
      var front := chunk[..|chunk| - 1];
      PageFoldSimulates(s, log, front);
      PageStepSimulates(PageFold(s, front), LogPage(log, front), chunk[|chunk| - 1]);
    }
  }

  lemma PageStartRepresents(t: Tables, log: seq<Entry>, base: int, msgBase: int)
    requires Represents(t, log, base, msgBase)
    ensures var s := PageStart(t); Represents(s.t, log, s.index, s.msgIndex)
    ensures log != [] ==> PageStart(t).index == base
    ensures Visible(log) != [] ==> PageStart(t).msgIndex == msgBase
  {
    NumberedEnds(SlotIds(t.eventOrder), t.event2order, Ids(log), base);
    NumberedEnds(t.order2msg, t.msg2order, Visible(log), msgBase);
    assert SlotIds(t.eventOrder).Keys == t.eventOrder.Keys;
    assert |Ids(log)| == |log|;
  }

  lemma RetokenRepresents(t: Tables, log: seq<Entry>, base: int, msgBase: int, token: Option<string>)
    requires Represents(t, log, base, msgBase) && log != []
    ensures Represents(t.(eventOrder := t.eventOrder[base := Slot(log[0].id, token)]),
                       log[0 := log[0].(token := token)], base, msgBase)
  {
    var entry := log[0].(token := token);
    assert Ids(log[0 := entry]) == Ids(log);
    VisibleReplace(log, 0, entry);
    if entry.visible {
      VisibleSplit(log, 0);
      assert Visible(log)[Rank(log, 0) := entry.id] == Visible(log);
    }
    SlotIdsPut(t.eventOrder, base, Slot(entry.id, token));
    assert Ids(log)[0] == entry.id;
    assert base in SlotIds(t.eventOrder);
    assert SlotIds(t.eventOrder)[base := entry.id] == SlotIds(t.eventOrder);
  }

  lemma {:induction false} PageLowest(log: seq<Entry>, chunk: seq<Event>)
    requires NamedEvents(chunk) && forall i :: 0 <= i < |log| ==> log[i].id != ""
    ensures forall id :: Has(LogPage(log, chunk), id) <==> Has(log, id) || Brings(chunk, id)
    ensures LogPage(log, chunk) == [] <==> LowestId(log, chunk) == ""
    ensures LogPage(log, chunk) != [] ==> LogPage(log, chunk)[0].id == LowestId(log, chunk)
  {
    if chunk != [] {
      var front, e := chunk[..|chunk| - 1], chunk[|chunk| - 1];
      PageLowest(log, front);
      BringsOneMore(front, e);
      assert front + [e] == chunk;
      var rest := LogPage(log, front);
      HasOneMore(Entry(e.id, !e.hidden, None), rest);
    }
  }

  lemma BringsOneMore(chunk: seq<Event>, e: Event)
    ensures forall id :: Brings(chunk + [e], id) <==> Brings(chunk, id) || (e.redacts.None? && e.id == id)
  {
    assert (chunk + [e])[|chunk|] == e;
    assert forall n :: 0 <= n < |chunk| ==> (chunk + [e])[n] == chunk[n];
  }

  lemma HasOneMore(x: Entry, log: seq<Entry>)
    ensures forall id :: Has([x] + log, id) <==> x.id == id || Has(log, id)
  {
    assert ([x] + log)[0] == x;
    assert forall i :: 0 <= i < |log| ==> ([x] + log)[i + 1] == log[i];
  }

  /** A good page puts the id with which its slot is relabelled on the lowest slot. */
  lemma GoodPageMeans(t: Tables, log: seq<Entry>, base: int, msgBase: int, page: Page)
    requires Represents(t, log, base, msgBase) && NamedEvents(page.chunk)
    ensures GoodPage(log, page) <==>
            page.chunk == [] || (LogPage(log, page.chunk) != []
                  && LogPage(log, page.chunk)[0].id == LastKept(page.chunk))
  {
    PageLowest(log, page.chunk);
  }

  lemma HistorySimulates(t: Tables, log: seq<Entry>, base: int, msgBase: int, page: Page) returns (b: int, m: int)
    requires Represents(t, log, base, msgBase) && NamedEvents(page.chunk) && GoodPage(log, page)
    ensures Represents(SaveOld(t, page), LogOld(log, page), b, m)
    ensures Visible(log) != [] ==> m + |Visible(LogOld(log, page))| == msgBase + |Visible(log)|
  {
    PageStartRepresents(t, log, base, msgBase);
    GoodPageMeans(t, log, base, msgBase, page);
    hide GoodPage;
    if page.chunk == [] {
      b, m := PageStart(t).index, PageStart(t).msgIndex;
      if log != [] {
        NumberedAt(SlotIds(t.eventOrder), t.event2order, Ids(log), base, 0);
        RetokenRepresents(t, log, b, m, Some(page.end));
        VisibleReplace(log, 0, log[0].(token := Some(page.end)));
      }
    } else {
      PageFoldSimulates(PageStart(t), log, page.chunk);
      var s := PageFold(PageStart(t), page.chunk);
      var log' := LogPage(log, page.chunk);
      b, m := s.index, s.msgIndex;
      RetokenRepresents(s.t, log', b, m, Some(page.end));
      VisibleReplace(log', 0, log'[0].(token := Some(page.end)));
      PageCountsRows(PageStart(t), log, page.chunk);
    }
  }

  /** The row counter of a page moves down once for each visible entry gained. */
  lemma {:induction false} PageCountsRows(s: PageState, log: seq<Entry>, chunk: seq<Event>)
    requires Represents(s.t, log, s.index, s.msgIndex) && NamedEvents(chunk)
    ensures PageFold(s, chunk).msgIndex + |Visible(LogPage(log, chunk))| == s.msgIndex + |Visible(log)|
  {
    if chunk != [] {
      var front, e := chunk[..|chunk| - 1], chunk[|chunk| - 1];
      PageCountsRows(s, log, front);
      PageFoldSimulates(s, log, front);
      var f := PageFold(s, front);
      HasIsOrdered(f.t, LogPage(log, front), f.index, f.msgIndex, e.id);
      VisibleConcat([Entry(e.id, !e.hidden, None)], LogPage(log, front));
      assert [Entry(e.id, !e.hidden, None)][..0] == [];
    }
  }
}
