/** `clearTimeline` keeps the suffix from the newest pagination token, but loses one visible row. */
module TimelineClear {
  import opened Wrappers
  import opened Timeline
  import opened TimelineProofs
  import opened TimelineResults

  lemma {:induction false} NewestTokenIsNewest(log: seq<Entry>)
    ensures forall i :: NewestToken(log) < i < |log| ==> log[i].token.None?
    ensures log != [] && log[NewestToken(log)].token.None? ==> NewestToken(log) == 0
  {
    if log != [] && log[|log| - 1].token.None? {
      var front := log[..|log| - 1];
      NewestTokenIsNewest(front);
      assert forall i :: 0 <= i < |front| ==> front[i] == log[i];
    }
  }

  lemma TokenSlotsOf(t: Tables, log: seq<Entry>, base: int, msgBase: int)
    requires Represents(t, log, base, msgBase)
    ensures TokenSlots(t) == {} ==> NewestToken(log) == 0
    ensures TokenSlots(t) != {} ==> Greatest(TokenSlots(t)) == base + NewestToken(log)
  {
    KeysOf(t, log, base, msgBase);
    NewestTokenIsNewest(log);
    hide Represents;
    var n := NewestToken(log);
    if log != [] && log[n].token.Some? {
      assert base + n in TokenSlots(t);
    }
    forall k | k in TokenSlots(t)
      ensures k <= base + n && log[n].token.Some?
    {
      assert t.eventOrder[base + (k - base)] == Slot(log[k - base].id, log[k - base].token);
    }
  }

  lemma BelowOfStrip(t: Tables, log: seq<Entry>, base: int, msgBase: int, i: nat, n: nat)
    requires Represents(t, log, base, msgBase) && i <= n <= |log|
    ensures var c := Strip(t, Names(log[i..n]));
            var below := Below(c.eventOrder, base + i);
            && (i == 0 ==> below == {})
            && (i > 0 ==> below != {} && Greatest(below) == base + (i - 1))
    ensures i > 0 ==>
              var c := Strip(t, Names(log[i..n]));
              base + (i - 1) in c.eventOrder && c.eventOrder[base + (i - 1)].id != ""
  {
    var c := Strip(t, Names(log[i..n]));
    KeysOf(t, log, base, msgBase);
    forall k
      ensures k in c.eventOrder <==> base <= k < base + i || base + n <= k < base + |log|
    {
      StripKeys(t, log, base, msgBase, i, n, k);
    }
    hide Names;
    var below := Below(c.eventOrder, base + i);
    if i == 0 {
      assert forall k :: k !in below;
    } else {
      assert base + (i - 1) in below;
      assert base + (i - 1) in c.eventOrder;
      assert t.eventOrder[base + (i - 1)] == Slot(log[i - 1].id, log[i - 1].token);
    }
  }

  lemma {:induction false} DropBelowStrips(t: Tables, log: seq<Entry>, base: int, msgBase: int, i: nat, n: nat)
    requires Represents(t, log, base, msgBase) && i <= n <= |log|
    ensures DropBelow(Strip(t, Names(log[i..n])), base + i) == Strip(t, Names(log[0..n]))
    decreases i
  {
    hide Represents, Names, Strip, RemoveSlot;
    BelowOfStrip(t, log, base, msgBase, i, n);
    if i > 0 {
      RemoveNext(t, log, base, msgBase, i, n, i - 1);
      DropBelowStrips(t, log, base, msgBase, i - 1, n);
    }
  }

  /** What is left before the last loop of `clearTimeline`: the suffix from the newest token. */
  function Suffix(t: Tables, log: seq<Entry>): Tables {
    Strip(t, Names(log[..NewestToken(log)]))
  }

  lemma DropsToSuffix(t: Tables, log: seq<Entry>, base: int, msgBase: int)
    requires Represents(t, log, base, msgBase)
    ensures Clear(t) == TrimRows(Suffix(t, log))
    ensures Represents(Suffix(t, log), log[NewestToken(log)..], base + NewestToken(log),
              msgBase + Rank(log, NewestToken(log)))
  {
    hide Represents, Strip, Names, DropBelow, TrimRows, TokenSlots, NewestToken, Rank;
    var n := NewestToken(log);
    StripPrefixRepresents(t, log, base, msgBase, n);
    TokenSlotsOf(t, log, base, msgBase);
    NamesOfNothing(log);
    StripNothing(t);
    DropBelowStrips(t, log, base, msgBase, n, n);
    assert log[0..n] == log[..n];
    assert log[n..n] == [] == log[0..0];
  }

  /** On consistent tables no row is stray, so the last loop takes the lowest row. */
  lemma TrimTakesLowest(t: Tables, log: seq<Entry>, base: int, msgBase: int)
    requires Represents(t, log, base, msgBase)
    ensures TrimRows(t) == t.(order2msg := Without(t.order2msg, msgBase))
    ensures Visible(log) != [] ==> msgBase in t.order2msg
  {
    ConsistentTables(t);
    NumberedEnds(t.order2msg, t.msg2order, Visible(log), msgBase);
    hide Visible;
    forall r | r in t.order2msg
      ensures r !in StrayRows(t) && r >= msgBase
    {
      var id := t.order2msg[r];
      assert id in t.event2order && t.eventOrder[t.event2order[id]].id == id;
      NumberedKey(t.order2msg, t.msg2order, Visible(log), msgBase, r);
    }
    assert StrayRows(t) == {};
    if Visible(log) != [] {
      NumberedKey(t.order2msg, t.msg2order, Visible(log), msgBase, msgBase);
      assert t.order2msg != map[];
      assert TrimRows(t).order2msg == Without(t.order2msg, msgBase);
    } else {
      assert forall r :: r !in t.order2msg;
      assert Without(t.order2msg, msgBase) == t.order2msg;
    }
  }

  lemma RowsNameEvents(t: Tables, log: seq<Entry>, base: int, msgBase: int)
    requires Represents(t, log, base, msgBase)
    ensures forall r :: r in t.order2msg ==> t.order2msg[r] in t.event2order && Has(log, t.order2msg[r])
  {
    ConsistentTables(t);
    forall r | r in t.order2msg
      ensures t.order2msg[r] in t.event2order && Has(log, t.order2msg[r])
    {
      HasIsOrdered(t, log, base, msgBase, t.order2msg[r]);
    }
  }

  /** Clearing keeps exactly the events from the newest entry with a pagination token on (all of them
      when there is none) in the arrival tables; the visible rows are theirs without the lowest one. */
  lemma ClearKeeps(t: Tables, log: seq<Entry>, base: int, msgBase: int) returns (kept: Tables, low: int)
    requires Represents(t, log, base, msgBase)
    ensures low == msgBase + Rank(log, NewestToken(log)) && kept == Strip(t, Names(log[..NewestToken(log)]))
    ensures Represents(kept, log[NewestToken(log)..], base + NewestToken(log), low)
    ensures Clear(t) == kept.(order2msg := Without(kept.order2msg, low))
  {
    hide Clear, Represents, Rank, NewestToken, TrimRows, Has, Strip, Names;
    kept, low := Suffix(t, log), msgBase + Rank(log, NewestToken(log));
    DropsToSuffix(t, log, base, msgBase);
    TrimTakesLowest(kept, log[NewestToken(log)..], base + NewestToken(log), low);
  }

  /** Every visible row left by a clear names an event that is left. */
  lemma ClearedRowsNameEvents(t: Tables, log: seq<Entry>, base: int, msgBase: int)
    requires Represents(t, log, base, msgBase)
    ensures forall r :: r in Clear(t).order2msg ==>
              Clear(t).order2msg[r] in Clear(t).event2order && Has(log[NewestToken(log)..], Clear(t).order2msg[r])
  {
    hide Clear, Represents, Has;
    var kept, low := ClearKeeps(t, log, base, msgBase);
    RowsNameEvents(kept, log[NewestToken(log)..], base + NewestToken(log), low);
  }

  /** The lost row breaks the visible tables exactly when something visible is kept. */
  lemma ClearConsistentIff(t: Tables, log: seq<Entry>, base: int, msgBase: int)
    requires Represents(t, log, base, msgBase)
    ensures Consistent(Clear(t)) <==> Visible(log[NewestToken(log)..]) == []
  {
    hide Clear, Visible, Rank;
    var kept, low := ClearKeeps(t, log, base, msgBase);
    var n := NewestToken(log);
    var rows := Visible(log[n..]);
    if rows == [] {
      NumberedEnds(kept.order2msg, kept.msg2order, rows, low);
      assert Without(kept.order2msg, low) == kept.order2msg;
      assert Consistent(kept);
    } else {
      NumberedAt(kept.order2msg, kept.msg2order, rows, low, 0);
      if Consistent(Clear(t)) {
        RowThere(Clear(t), rows[0]);
      }
    }
  }

  lemma RowThere(t: Tables, id: Id)
    requires Consistent(t) && id in t.msg2order
    ensures t.msg2order[id] in t.order2msg
  {
    ConsistentTables(t);
  }

  /** What that costs: the oldest kept visible event claims a row that is not its own after the next
      history page with a new visible event. With more kept it is the row of the new event; otherwise the
      new event starts over in an empty table. */
  lemma HistoryAfterClear(t: Tables, log: seq<Entry>, base: int, msgBase: int, e: Event, end: string)
    returns (oldest: Id)
    requires Represents(t, log, base, msgBase)
    requires !Consistent(Clear(t))
    requires e.id != "" && e.redacts.None? && !e.hidden && e.id !in Clear(t).event2order
    ensures var t' := SaveOld(Clear(t), Page([e], end));
            && oldest != e.id && oldest in t'.msg2order && e.id in t'.msg2order
            && !At(t'.order2msg, t'.msg2order[oldest], oldest)
            && t'.msg2order[e.id] ==
               if |Visible(log[NewestToken(log)..])| >= 2 then t'.msg2order[oldest] else START - 1
  {
    hide Clear, Represents, Visible, Rank, NewestToken, Consistent, Strip, Names, SaveOld;
    ClearConsistentIff(t, log, base, msgBase);
    var kept, low := ClearKeeps(t, log, base, msgBase);
    var n := NewestToken(log);
    oldest := OldestAfterClear(kept, log[n..], base + n, low, Clear(t).order2msg);
    PageOfOne(Clear(t), e, end);
  }

  lemma OldestAfterClear(kept: Tables, log: seq<Entry>, base: int, low: int, left: map<int, Id>) returns (oldest: Id)
    requires Represents(kept, log, base, low) && Visible(log) != [] && left == Without(kept.order2msg, low)
    ensures oldest in kept.msg2order && oldest in kept.event2order && kept.msg2order[oldest] == low && low !in left
    ensures FirstKey(left) == if |Visible(log)| >= 2 then low + 1 else START
  {
    hide Visible;
    var rows := Visible(log);
    NumberedAt(kept.order2msg, kept.msg2order, rows, low, 0);
    oldest := rows[0];
    VisibleIsOrdered(kept, log, base, low, oldest);
    RowsAfterClear(kept, rows, low, left);
  }

  /** A page with one new visible event puts it on the row below the lowest. */
  lemma PageOfOne(t: Tables, e: Event, end: string)
    requires e.redacts.None? && !e.hidden && e.id !in t.event2order
    ensures var t' := SaveOld(t, Page([e], end));
            && t'.order2msg == t.order2msg[FirstKey(t.order2msg) - 1 := e.id]
            && t'.msg2order == t.msg2order[e.id := FirstKey(t.order2msg) - 1]
  {
    assert [e][..0] == [];
    assert PageFold(PageStart(t), []) == PageStart(t);
    assert PageFold(PageStart(t), [e]) == PageStep(PageStart(t), e);
  }

  lemma RowsAfterClear(kept: Tables, rows: seq<Id>, low: int, left: map<int, Id>)
    requires Numbered(kept.order2msg, kept.msg2order, rows, low) && rows != []
    requires left == Without(kept.order2msg, low)
    ensures low !in left && FirstKey(left) == if |rows| >= 2 then low + 1 else START
  {
    forall r | r in left
      ensures low < r < low + |rows|
    {
      NumberedKey(kept.order2msg, kept.msg2order, rows, low, r);
    }
    if |rows| >= 2 {
      NumberedAt(kept.order2msg, kept.msg2order, rows, low, 1);
      assert low + 1 in left;
      assert Least(left.Keys) == low + 1;
    } else {
      assert left == map[];
    }
  }
}
