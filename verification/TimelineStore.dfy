/** The timeline tables of one room as the database keeps them, updated in place (`src/Cache.cpp`).

    Every method is proved equal to the table function of `Timeline` it implements, on all inputs;
    what those functions preserve is proved in `TimelineResults` and `TimelineClear`. A database
    cursor is the set of keys it has yet to visit.
*/
module TimelineStore {
  import opened Wrappers
  import opened Timeline

  class RoomTimeline {
    var eventOrder: map<int, Slot>
    var event2order: map<Id, int>
    var order2msg: map<int, Id>
    var msg2order: map<Id, int>
    var events: map<Id, Stored>
    var pending: map<int, Id>

    constructor ()
      ensures State() == EMPTY_TABLES
    {
      eventOrder, event2order, order2msg, msg2order := map[], map[], map[], map[];
      events, pending := map[], map[];
    }

    ghost function State(): Tables
      reads this
    {
      Tables(eventOrder, event2order, order2msg, msg2order, events, pending)
    }

    method RemovePendingStatus(txn: Id)
      modifies this`pending
      ensures pending == Unsent(old(pending), txn)
    {
      pending := Unsend(pending, txn);
    }

    method SaveEcho(e: Event, token: Option<string>)
      requires e.txn in event2order
      modifies this
      ensures State() == Echo(old(State()), e, token)
    {
      var place := event2order[e.txn];
      events := events[e.id := Stored(e, None)];
      events := events - {e.txn};
      if e.txn in msg2order {
        var row := msg2order[e.txn];
        order2msg := order2msg[row := e.id];
        msg2order := msg2order[e.id := row];
        msg2order := msg2order - {e.txn};
      }
      eventOrder := eventOrder[place := Slot(e.id, token)];
      event2order := event2order[e.id := place];
      event2order := event2order - {e.txn};
      RemovePendingStatus(e.txn);
    }

    method SaveRedaction(e: Event)
      requires e.redacts.Some?
      modifies this`events
      ensures State() == Redact(old(State()), e)
    {
      var target := e.redacts.value;
      if target == "" || target !in events {
        return;
      }
      events := events[target := Stored(events[target].event.(body := ""), Some(e.id))];
      events := events[e.id := Stored(e, None)];
    }

    method SaveNew(e: Event, token: Option<string>, index: int, msgIndex: int, ghost first: bool)
      returns (index': int, msgIndex': int)
      modifies this
      ensures SyncState(State(), index', msgIndex', false) ==
              SaveNewest(SyncState(old(State()), index, msgIndex, first), e, token)
    {
      index', msgIndex' := index, msgIndex;
      if e.id !in event2order {
        index' := index' + 1;
        eventOrder := eventOrder[index' := Slot(e.id, token)];
        event2order := event2order[e.id := index'];
        if !e.hidden {
          msgIndex' := msgIndex' + 1;
          order2msg := order2msg[msgIndex' := e.id];
          msg2order := msg2order[e.id := msgIndex'];
        }
      }
      events := events[e.id := Stored(e, None)];
    }

    method SaveTimelineMessages(batch: Batch)
      modifies this
      ensures State() == SaveTimeline(old(State()), batch)
    {
      if batch.events == [] {
        return;
      }
      if batch.limited {
        eventOrder, event2order, order2msg, msg2order, pending := map[], map[], map[], map[], map[];
      }
      var index := LastKey(eventOrder);
      var msgIndex := LastKey(order2msg);
      var first := true;
      for i := 0 to |batch.events|
        invariant SyncState(State(), index, msgIndex, first) ==
                  SyncFold(SyncStart(old(State()), batch.limited), batch.events[..i], batch.prevBatch)
      {
        ghost var before := SyncState(State(), index, msgIndex, first);
        var e := batch.events[i];
        var token := if first && batch.prevBatch != "" then Some(batch.prevBatch) else None;
        if e.id == "" {
        } else if e.txn != "" && e.txn in event2order {
          SaveEcho(e, token);
        } else if e.redacts.Some? {
          SaveRedaction(e);
        } else {
          index, msgIndex := SaveNew(e, token, index, msgIndex, first);
          first := false;
        }
        assert SyncState(State(), index, msgIndex, first) == SyncStep(before, e, batch.prevBatch);
        assert batch.events[..i + 1][..i] == batch.events[..i];
      }
      assert batch.events[..|batch.events|] == batch.events;
    }

    method SavePendingMessage(e: Event, now: int)
      modifies this
      ensures State() == SavePending(old(State()), e, now)
    {
      SaveTimelineMessages(Batch([e], false, ""));
      pending := pending[now := e.id];
    }

    method SaveOldMessages(page: Page) returns (newFirst: int)
      modifies this
      ensures State() == SaveOld(old(State()), page)
      ensures newFirst == if page.chunk == [] then FirstKey(old(eventOrder))
                          else PageFold(PageStart(old(State())), page.chunk).msgIndex
    {
      var index := FirstKey(eventOrder);
      var msgIndex := FirstKey(order2msg);
      if page.chunk == [] {
        if index in eventOrder {
          eventOrder := eventOrder[index := eventOrder[index].(prevBatch := Some(page.end))];
        }
        return index;
      }
      var lastId := "";
      for i := 0 to |page.chunk|
        invariant PageState(State(), index, msgIndex, lastId) == PageFold(PageStart(old(State())), page.chunk[..i])
      {
        ghost var before := PageState(State(), index, msgIndex, lastId);
        var e := page.chunk[i];
        if e.redacts.None? {
          lastId := e.id;
          if e.id !in event2order {
            index := index - 1;
            eventOrder := eventOrder[index := Slot(e.id, None)];
            event2order := event2order[e.id := index];
            if !e.hidden {
              msgIndex := msgIndex - 1;
              order2msg := order2msg[msgIndex := e.id];
              msg2order := msg2order[e.id := msgIndex];
            }
          }
          events := events[e.id := Stored(e, None)];
        }
        assert PageState(State(), index, msgIndex, lastId) == PageStep(before, e);
        assert page.chunk[..i + 1][..i] == page.chunk[..i];
      }
      assert page.chunk[..|page.chunk|] == page.chunk;
      eventOrder := eventOrder[index := Slot(lastId, Some(page.end))];
      return msgIndex;
    }

    /** What both deletion loops do with the slot under the cursor. */
    method DeleteSlot(k: int)
      requires k in eventOrder
      modifies this
      ensures State() == RemoveSlot(old(State()), k)
    {
      var id := eventOrder[k].id;
      event2order := event2order - {id};
      events := events - {id};
      if id in msg2order {
        order2msg := Without(order2msg, msg2order[id]);
        msg2order := msg2order - {id};
      }
      eventOrder := Without(eventOrder, k);
    }

    /** One room's share of `deleteOldMessages`. */
    method DeleteOldMessages()
      modifies this
      ensures State() == Retain(old(State()))
    {
      if eventOrder == map[] {
        return;
      }
      var count := LastKey(eventOrder) - FirstKey(eventOrder);
      if count < MAX_RESTORED_MESSAGES {
        return;
      }
      while eventOrder != map[] && count > MAX_RESTORED_MESSAGES
        invariant count >= MAX_RESTORED_MESSAGES
        invariant DropOldest(State(), count - MAX_RESTORED_MESSAGES) == Retain(old(State()))
        decreases count
      {
        DeleteSlot(FirstKey(eventOrder));
        count := count - 1;
      }
    }

    /** The first loop of `clearTimeline`: newest to oldest, deleting once a token has been passed. */
    method DeleteBelowToken()
      modifies this
      ensures var t := old(State());
              State() == if TokenSlots(t) == {} then t else DropBelow(t, Greatest(TokenSlots(t)))
    {
      ghost var t := State();
      ghost var at := 0;
      var ahead := eventOrder.Keys;
      var passed := false;
      while ahead != {}
        invariant ahead <= eventOrder.Keys
        invariant !passed ==> State() == t && TokenSlots(t) <= ahead
                              && forall k, l :: k in eventOrder && k !in ahead && l in ahead ==> l < k
        invariant passed ==> TokenSlots(t) != {} && ahead == Below(eventOrder, at)
                             && DropBelow(State(), at) == DropBelow(t, Greatest(TokenSlots(t)))
        decreases ahead
      {
        var k := Greatest(ahead);
        ghost var t0 := State();
        ahead := ahead - {k};
        if passed {
          if eventOrder[k].id != "" {
            DeleteSlot(k);
          } else {
            eventOrder := Without(eventOrder, k);
          }
          at := k;
        } else if eventOrder[k].prevBatch.Some? {
          passed := true;
          at := k;
          assert k in TokenSlots(t);
        }
      }
      if !passed {
        assert forall k :: k !in TokenSlots(t);
      }
    }

    method FindSlot(id: Id) returns (found: bool)
      ensures found <==> Timeline.HasSlot(eventOrder, id)
    {
      var ahead := eventOrder.Keys;
      found := false;
      while ahead != {}
        invariant ahead <= eventOrder.Keys && !found
        invariant forall k :: k in eventOrder && k !in ahead ==> eventOrder[k].id != id
        decreases ahead
      {
        var k := Greatest(ahead);
        ahead := ahead - {k};
        if eventOrder[k].id == id {
          return true;
        }
      }
    }

    /** The search of `clearTimeline`: where the cursor rests when it ends. */
    method FindStop() returns (stop: Option<int>)
      ensures stop.None? <==> order2msg == map[]
      ensures stop.Some? ==> stop.value in order2msg
      ensures stop.Some? ==>
                stop.value == if StrayRows(State()) == {} then FirstKey(order2msg) else Greatest(StrayRows(State()))
    {
      var ahead := order2msg.Keys;
      stop := None;
      while ahead != {}
        invariant ahead <= order2msg.Keys
        invariant stop.None? ==> ahead == order2msg.Keys
        invariant stop.Some? ==> stop.value in order2msg && ahead == Below(order2msg, stop.value)
        invariant StrayRows(State()) <= ahead
        decreases ahead
      {
        var r := Greatest(ahead);
        ahead := ahead - {r};
        stop := Some(r);
        var found := FindSlot(order2msg[r]);
        if !found {
          assert r in StrayRows(State());
          return;
        }
        assert r !in StrayRows(State());
      }
      assert StrayRows(State()) == {};
      if stop.Some? {
        assert forall r :: r in order2msg && r < stop.value ==> r in Below(order2msg, stop.value);
      }
    }

    /** The last two loops of `clearTimeline`. */
    method DeleteStrayRows()
      modifies this`order2msg
      ensures State() == TrimRows(old(State()))
    {
      ghost var rows := order2msg;
      var stop := FindStop();
      if stop.Some? {
        var cur := stop.value;
        order2msg := Without(order2msg, cur);
        while Below(order2msg, cur) != {}
          invariant cur <= stop.value
          invariant forall r :: r in order2msg <==> r in rows && (r < cur || r > stop.value)
          invariant forall r :: r in order2msg ==> order2msg[r] == rows[r]
          decreases Below(order2msg, cur)
        {
          ghost var last := cur;
          cur := Greatest(Below(order2msg, cur));
          assert forall r :: r in order2msg && r < last ==> r in Below(order2msg, last);
          order2msg := Without(order2msg, cur);
        }
        assert forall r :: r in order2msg && r < cur ==> r in Below(order2msg, cur);
        assert order2msg == map r | r in rows && r > stop.value :: rows[r];
      }
    }

    method ClearTimeline()
      modifies this
      ensures State() == Clear(old(State()))
    {
      DeleteBelowToken();
      DeleteStrayRows();
    }

    function PreviousBatchToken(): string
      reads this
    {
      OldestToken(eventOrder)
    }

    method GetTimelineRange() returns (r: Option<(int, int)>)
      ensures r == if order2msg == map[] then None else Some((FirstKey(order2msg), LastKey(order2msg)))
    {
      if order2msg == map[] {
        return None;
      }
      var last := LastKey(order2msg);
      return Some((FirstKey(order2msg), last));
    }

    /** The last event of the invisible stretch right after an event, or the event itself. */
    method LastInvisibleEventAfter(id: Id) returns (r: Option<(int, Id)>)
      ensures r.None? <==> id == "" || id !in event2order
      ensures r.Some? ==>
                var (k, last) := r.value;
                && event2order[id] <= k
                && (k == event2order[id] ==> last == id)
                && (k > event2order[id] ==> k in eventOrder && eventOrder[k].id == last)
                && (forall j :: j in eventOrder && event2order[id] < j <= k ==> eventOrder[j].id !in msg2order)
                && (forall j :: j in eventOrder && j > k && (forall i :: i in eventOrder && i > k ==> j <= i) ==>
                      eventOrder[j].id in msg2order)
    {
      if id == "" || id !in event2order {
        return None;
      }
      var start := event2order[id];
      var prevIdx, prevId := start, id;
      var ahead := Above(eventOrder, start);
      while ahead != {}
        invariant start <= prevIdx && ahead == Above(eventOrder, prevIdx)
        invariant prevIdx == start ==> prevId == id
        invariant prevIdx > start ==> prevIdx in eventOrder && eventOrder[prevIdx].id == prevId
        invariant forall j :: j in eventOrder && start < j <= prevIdx ==> eventOrder[j].id !in msg2order
        decreases ahead
      {
        var k := Least(ahead);
        assert forall j :: j in eventOrder && j > prevIdx ==> j in ahead;
        if eventOrder[k].id in msg2order {
          return Some((prevIdx, prevId));
        }
        prevIdx, prevId := k, eventOrder[k].id;
        ahead := ahead - {k};
      }
      assert forall j :: j in eventOrder && j > prevIdx ==> j in ahead;
      return Some((prevIdx, prevId));
    }
  }
}
