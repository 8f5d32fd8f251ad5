/** The index window `EventStore` keeps over the visible rows (`src/timeline/EventStore.cpp`, `.h`). */
module EventWindow {
  import opened Wrappers
  import opened Timeline
  import opened TimelineProofs
  import opened TimelineResults
  import opened TimelineStore

  // std::numeric_limits<uint64_t>::max()
  const MAX64: int := 0xFFFF_FFFF_FFFF_FFFF
  const TWO31: int := 0x8000_0000
  const TWO32: int := 0x1_0000_0000
  const TWO64: int := 0x1_0000_0000_0000_0000

  datatype Window = Window(first: int, last: int)

  const SENTINEL := Window(MAX64, MAX64)

  function Range(t: Tables): Window {
    Window(FirstKey(t.order2msg), LastKey(t.order2msg))
  }

  /** `handleSync`, after the sync has been saved. */
  function AfterSync(w: Window, t: Tables, limited: bool): Window {
    if t.order2msg == map[] then SENTINEL
    else if limited then Range(t)
    else if LastKey(t.order2msg) > w.last then w.(last := LastKey(t.order2msg))
    else w
  }

  /** The window part of `oldMessagesRetrieved`, after the page has been saved. */
  function AfterPage(w: Window, t: Tables, newFirst: int): Window {
    if newFirst == w.first then w
    else if w.last != MAX64 then w.(first := newFirst)
    else if t.order2msg != map[] && LastKey(t.order2msg) - FirstKey(t.order2msg) != 0 then Range(t)
    else w
  }

  /** The page says there is nothing older. */
  predicate NoMore(t: Tables, page: Page) {
    page.end == "" || OldestToken(t.eventOrder) == page.end
  }

  /** What `saveOldMessages` returns: the lowest row, but the lowest arrival slot for an empty page. */
  function NewFirst(t: Tables, page: Page): int {
    if page.chunk == [] then FirstKey(t.eventOrder) else PageFold(PageStart(t), page.chunk).msgIndex
  }

  datatype Shown = Shown(t: Tables, w: Window)

  function ShowStep(s: Shown, op: Op): Shown {
    var t' := Apply(s.t, op);
    match op
    case Sync(batch) => Shown(t', AfterSync(s.w, t', batch.limited))
    case Send(_, _) => Shown(t', AfterSync(s.w, t', false))
    case History(page) =>
      if NoMore(s.t, page) then s
      else Shown(t', AfterPage(s.w, t', NewFirst(s.t, page)))
    case Retention => Shown(t', s.w)
  }

  function ShowRun(s: Shown, ops: seq<Op>): Shown {
    if ops == [] then s else ShowStep(ShowRun(s, ops[..|ops| - 1]), ops[|ops| - 1])
  }

  /** The row counters have not left the range of a uint64_t below the sentinel. */
  predicate InRange(t: Tables) {
    forall r :: r in t.order2msg ==> 0 <= r < MAX64
  }

  predicate Fits(s: Shown) {
    s.w == SENTINEL || (s.t.order2msg != map[] && s.w == Range(s.t))
  }

  // ----- Syncs only ever add rows -----

  lemma {:induction false} FoldKeepsRows(s: SyncState, events: seq<Event>, prevBatch: string)
    ensures forall r :: r in s.t.order2msg ==> r in SyncFold(s, events, prevBatch).t.order2msg
  {
    if events != [] {
      FoldKeepsRows(s, events[..|events| - 1], prevBatch);
    }
  }

  lemma {:induction false} PageKeepsRows(s: PageState, chunk: seq<Event>)
    ensures forall r :: r in s.t.order2msg ==> r in PageFold(s, chunk).t.order2msg
  {
    if chunk != [] {
      PageKeepsRows(s, chunk[..|chunk| - 1]);
    }
  }

  lemma SyncFits(t: Tables, log: seq<Entry>, base: int, msgBase: int, w: Window, batch: Batch)
    requires Represents(t, log, base, msgBase) && GoodBatch(log, batch) && Fits(Shown(t, w))
    requires InRange(SaveTimeline(t, batch))
    ensures var t' := SaveTimeline(t, batch); Fits(Shown(t', AfterSync(w, t', batch.limited)))
  {
    var t' := SaveTimeline(t, batch);
    var b, m := SyncSimulates(t, log, base, msgBase, batch);
    var rows, rows' := Visible(log), Visible(LogSync(log, batch));
    hide Represents, Numbered, Visible;
    Ends(t, log, base, msgBase);
    Ends(t', LogSync(log, batch), b, m);
    if !batch.limited && w != SENTINEL {
      if batch.events != [] {
        FoldKeepsRows(SyncStart(t, false), batch.events, batch.prevBatch);
      }
      assert LastKey(t.order2msg) in t'.order2msg;
    }
  }

  lemma Ends(t: Tables, log: seq<Entry>, base: int, msgBase: int)
    requires Represents(t, log, base, msgBase)
    ensures t.order2msg == map[] <==> Visible(log) == []
    ensures Visible(log) != [] ==> Range(t) == Window(msgBase, msgBase + |Visible(log)| - 1)
  {
    NumberedEnds(t.order2msg, t.msg2order, Visible(log), msgBase);
  }

  lemma PageFits(t: Tables, log: seq<Entry>, base: int, msgBase: int, w: Window, page: Page)
    requires Represents(t, log, base, msgBase) && NamedEvents(page.chunk) && GoodPage(log, page) && Fits(Shown(t, w))
    requires page.chunk != [] && InRange(t) && InRange(SaveOld(t, page))
    ensures var t' := SaveOld(t, page);
            Fits(Shown(t', AfterPage(w, t', NewFirst(t, page))))
  {
    var t' := SaveOld(t, page);
    var b, m := HistorySimulates(t, log, base, msgBase, page);
    PageStartRepresents(t, log, base, msgBase);
    PageFoldSimulates(PageStart(t), log, page.chunk);
    var s := PageFold(PageStart(t), page.chunk);
    hide Visible, Numbered;
    Ends(t, log, base, msgBase);
    Ends(t', LogOld(log, page), b, m);
    assert t'.order2msg == s.t.order2msg;
    Ends(s.t, LogPage(log, page.chunk), s.index, s.msgIndex);
    PageKeepsRows(PageStart(t), page.chunk);
    if w != SENTINEL {
      assert LastKey(t.order2msg) in t'.order2msg;
    }
  }

  /** An empty page returns the lowest arrival number where a row number is expected, so the window stays
      exact precisely when these are equal, or when the page is not saved at all. */
  lemma EmptyPageFitsIff(s: Shown, page: Page)
    requires Fits(s) && s.w != SENTINEL && InRange(s.t) && page.chunk == []
    ensures Fits(ShowStep(s, History(page))) <==>
              NoMore(s.t, page) || FirstKey(s.t.eventOrder) == FirstKey(s.t.order2msg)
  {
    assert LastKey(s.t.order2msg) in s.t.order2msg;
  }

  /** How many entries retention drops. */
  ghost function Dropped(log: seq<Entry>): (n: nat)
    ensures n <= |log| && log[n..] == LogRetain(log)
  {
    |log| - |LogRetain(log)|
  }

  lemma CutVisible(log: seq<Entry>, n: nat)
    requires n <= |log|
    ensures Visible(log) == Visible(log[..n]) + Visible(log[n..]) && Rank(log, n) == |Visible(log[..n])|
  {
    assert log[..n] + log[n..] == log;
    VisibleConcat(log[..n], log[n..]);
  }

  /** Retention does not look at an open window, so the window stays exact precisely when nothing visible
      is dropped. */
  lemma RetentionFitsIff(s: Shown, log: seq<Entry>, base: int, msgBase: int)
    requires Represents(s.t, log, base, msgBase) && Fits(s) && s.w != SENTINEL && InRange(s.t)
    ensures Fits(ShowStep(s, Retention)) <==> Visible(log[..Dropped(log)]) == []
  {
    hide Represents, Visible, Retain, LogRetain;
    var n := RetentionSimulates(s.t, log, base, msgBase);
    assert n == Dropped(log) by {
      assert |log[n..]| == |log[Dropped(log)..]|;
    }
    Ends(s.t, log, base, msgBase);
    Ends(Retain(s.t), LogRetain(log), base + n, msgBase + Rank(log, n));
    CutVisible(log, n);
    assert LastKey(s.t.order2msg) in s.t.order2msg;
  }

  // ----- Runs -----

  /** Operations that keep the index consistent, with counters that do not wrap. */
  ghost predicate Showable(s: Shown, log: seq<Entry>, op: Op) {
    Admissible(log, op) && InRange(s.t) && InRange(ShowStep(s, op).t)
  }

  ghost predicate ShowableRun(s: Shown, log: seq<Entry>, ops: seq<Op>) {
    ops == [] ||
    (ShowableRun(s, log, ops[..|ops| - 1]) &&
     Showable(ShowRun(s, ops[..|ops| - 1]), ShowLog(s, log, ops[..|ops| - 1]), ops[|ops| - 1]))
  }

  /** An open window survives the operation. */
  ghost predicate Harmless(s: Shown, log: seq<Entry>, op: Op) {
    s.w == SENTINEL ||
    match op
    case History(page) => page.chunk != [] || NoMore(s.t, page) || FirstKey(s.t.eventOrder) == FirstKey(s.t.order2msg)
    case Retention => Visible(log[..Dropped(log)]) == []
    case _ => true
  }

  ghost predicate HarmlessRun(s: Shown, log: seq<Entry>, ops: seq<Op>) {
    ops == [] ||
    (HarmlessRun(s, log, ops[..|ops| - 1]) &&
     Harmless(ShowRun(s, ops[..|ops| - 1]), ShowLog(s, log, ops[..|ops| - 1]), ops[|ops| - 1]))
  }

  /** The window fits after each of the operations. */
  ghost predicate AlwaysFits(s: Shown, ops: seq<Op>) {
    Fits(ShowRun(s, ops)) && (ops != [] ==> AlwaysFits(s, ops[..|ops| - 1]))
  }

  /** The list after a run; a page that ends the history is not saved. */
  ghost function ShowLog(s: Shown, log: seq<Entry>, ops: seq<Op>): seq<Entry> {
    if ops == [] then log else
    var front, op := ops[..|ops| - 1], ops[|ops| - 1];
    if op.History? && NoMore(ShowRun(s, front).t, op.page) then ShowLog(s, log, front)
    else LogApply(ShowLog(s, log, front), op)
  }

  /** While there is no window, a page or retention cannot make a wrong one. */
  lemma NoWindowFits(s: Shown, op: Op)
    requires s.w == SENTINEL && (op.Retention? || (op.History? && op.page.chunk == []))
    ensures Fits(ShowStep(s, op))
  {
    hide SaveOld, Retain;
  }

  lemma StepFitsIff(s: Shown, log: seq<Entry>, base: int, msgBase: int, op: Op)
    requires Represents(s.t, log, base, msgBase) && Fits(s) && Showable(s, log, op)
    ensures Fits(ShowStep(s, op)) <==> Harmless(s, log, op)
  {
    hide Represents, Visible, GoodPage;
    match op
    case Sync(batch) => SyncFits(s.t, log, base, msgBase, s.w, batch);
    case Send(e, now) => SyncFits(s.t, log, base, msgBase, s.w, Batch([e], false, ""));
    case History(page) =>
      hide Fits;
      if page.chunk == [] {
        if s.w == SENTINEL {
          NoWindowFits(s, op);
        } else {
          EmptyPageFitsIff(s, page);
        }
      } else if !NoMore(s.t, page) {
        PageFits(s.t, log, base, msgBase, s.w, page);
      }
    case Retention =>
      if s.w == SENTINEL {
        NoWindowFits(s, op);
      } else {
        RetentionFitsIff(s, log, base, msgBase);
      }
      hide Fits;
  }

  lemma {:induction false} RunShows(s: Shown, log: seq<Entry>, base: int, msgBase: int, ops: seq<Op>)
    returns (b: int, m: int)
    requires Represents(s.t, log, base, msgBase) && ShowableRun(s, log, ops)
    ensures Represents(ShowRun(s, ops).t, ShowLog(s, log, ops), b, m)
  {
    hide Represents, Admissible, InRange, Apply, LogApply;
    b, m := base, msgBase;
    if ops != [] {
      var front, op := ops[..|ops| - 1], ops[|ops| - 1];
      b, m := RunShows(s, log, base, msgBase, front);
      if !(op.History? && NoMore(ShowRun(s, front).t, op.page)) {
        b, m := StepSimulates(ShowRun(s, front).t, ShowLog(s, log, front), b, m, op);
      }
    }
  }

  /** Over every run the window is the empty sentinel or exactly the range of the rows throughout, if and
      only if each operation is harmless where it happens: every sync, save and page with events is. */
  lemma {:induction false} RunFitsIff(s: Shown, log: seq<Entry>, base: int, msgBase: int, ops: seq<Op>)
    requires Represents(s.t, log, base, msgBase) && Fits(s) && ShowableRun(s, log, ops)
    ensures AlwaysFits(s, ops) <==> HarmlessRun(s, log, ops)
  {
    hide Represents, Fits, Showable, Harmless;
    if ops != [] {
      var front, op := ops[..|ops| - 1], ops[|ops| - 1];
      RunFitsIff(s, log, base, msgBase, front);
      if HarmlessRun(s, log, front) {
        var b, m := RunShows(s, log, base, msgBase, front);
        StepFitsIff(ShowRun(s, front), ShowLog(s, log, front), b, m, op);
      }
    }
  }

  // ----- When there is a window -----

  /** A sync closes the window when no event is visible, opens it when there is a gap, and leaves it as it is
      otherwise; a page that is saved opens it when at least two events are visible then. */
  lemma OpensIff(s: Shown, log: seq<Entry>, base: int, msgBase: int, op: Op)
    requires Represents(s.t, log, base, msgBase) && Fits(s) && Showable(s, log, op)
    requires op.History? ==> op.page.chunk != []
    ensures ShowStep(s, op).w != SENTINEL <==>
            match op
            case Sync(batch) => Visible(LogSync(log, batch)) != [] && (batch.limited || s.w != SENTINEL)
            case Send(e, _) => Visible(LogSync(log, Batch([e], false, ""))) != [] && s.w != SENTINEL
            case History(page) => s.w != SENTINEL || (!NoMore(s.t, page) && |Visible(LogOld(log, page))| >= 2)
            case Retention => s.w != SENTINEL
  {
    hide Represents, Visible, GoodPage, SaveTimeline, SaveOld, LogSync, LogOld, Retain;
    match op
    case Sync(batch) =>
      var b, m := SyncSimulates(s.t, log, base, msgBase, batch);
      Ends(SaveTimeline(s.t, batch), LogSync(log, batch), b, m);
    case Send(e, now) =>
      var b, m := SyncSimulates(s.t, log, base, msgBase, Batch([e], false, ""));
      Ends(SaveTimeline(s.t, Batch([e], false, "")), LogSync(log, Batch([e], false, "")), b, m);
    case History(page) =>
      if !NoMore(s.t, page) {
        var b, m := HistorySimulates(s.t, log, base, msgBase, page);
        Ends(SaveOld(s.t, page), LogOld(log, page), b, m);
        NewFirstIsLowest(s.t, log, base, msgBase, page);
        Bounds(s.t);
        Bounds(SaveOld(s.t, page));
      }
    case Retention =>
  }

  lemma Bounds(t: Tables)
    requires InRange(t)
    ensures t.order2msg != map[] ==> 0 <= FirstKey(t.order2msg) <= LastKey(t.order2msg) < MAX64
  {
  }

  lemma NewFirstIsLowest(t: Tables, log: seq<Entry>, base: int, msgBase: int, page: Page)
    requires Represents(t, log, base, msgBase) && NamedEvents(page.chunk) && page.chunk != []
    ensures SaveOld(t, page).order2msg != map[] ==> NewFirst(t, page) == FirstKey(SaveOld(t, page).order2msg)
  {
    PageStartRepresents(t, log, base, msgBase);
    PageFoldSimulates(PageStart(t), log, page.chunk);
    var s := PageFold(PageStart(t), page.chunk);
    Ends(s.t, LogPage(log, page.chunk), s.index, s.msgIndex);
  }

  // ----- Index conversions, in machine integers -----

  /** static_cast<int> of a uint64_t. */
  function ToInt(x: int): int {
    var low := x % TWO32;
    if low < TWO31 then low else low - TWO32
  }

  function ToExternal(w: Window, idx: int): int {
    ToInt((idx - w.first) % TWO64)
  }

  function ToInternal(w: Window, idx: int): int {
    (w.first + idx) % TWO64
  }

  function Size(w: Window): int {
    if w.last != MAX64 && w.last >= w.first then ToInt(w.last - w.first) + 1 else 0
  }

  function IdToIndex(s: Shown, id: Id): Option<int> {
    if id != "" && id in s.t.msg2order then Some(ToExternal(s.w, s.t.msg2order[id])) else None
  }

  function IndexToId(s: Shown, idx: int): Option<Id> {
    var row := ToInternal(s.w, idx);
    if row in s.t.order2msg then Some(s.t.order2msg[row]) else None
  }

  /** With a window and fewer than 2^31 rows, the external indices 0..size-1 are the visible events in
      order, and the two conversions are inverse to each other. */
  lemma IndexRoundTrip(s: Shown, log: seq<Entry>, base: int, msgBase: int)
    requires Represents(s.t, log, base, msgBase) && Fits(s) && s.w != SENTINEL && InRange(s.t)
    requires |Visible(log)| < TWO31
    ensures Size(s.w) == |Visible(log)|
    ensures forall i :: 0 <= i < Size(s.w) ==>
              IndexToId(s, i) == Some(Visible(log)[i]) && IdToIndex(s, Visible(log)[i]) == Some(i)
    ensures forall id :: id in s.t.msg2order ==>
              IdToIndex(s, id).Some? && 0 <= IdToIndex(s, id).value < Size(s.w)
                    && IndexToId(s, IdToIndex(s, id).value) == Some(id)
  {
    hide Numbered, Visible, ToExternal, ToInternal;
    var rows := Visible(log);
    Ends(s.t, log, base, msgBase);
    NumberedAt(s.t.order2msg, s.t.msg2order, rows, msgBase, 0);
    NumberedAt(s.t.order2msg, s.t.msg2order, rows, msgBase, |rows| - 1);
    forall i | 0 <= i < |rows|
      ensures IndexToId(s, i) == Some(rows[i]) && IdToIndex(s, rows[i]) == Some(i)
    {
      NumberedAt(s.t.order2msg, s.t.msg2order, rows, msgBase, i);
      var j := VisibleSource(log, i);
      Conversions(s.w, i);
    }
    forall id | id in s.t.msg2order
      ensures IdToIndex(s, id).Some? && 0 <= IdToIndex(s, id).value < |rows|
                && IndexToId(s, IdToIndex(s, id).value) == Some(id)
    {
      NumberedId(s.t.order2msg, s.t.msg2order, rows, msgBase, id);
      assert IdToIndex(s, rows[s.t.msg2order[id] - msgBase]) == Some(s.t.msg2order[id] - msgBase);
    }
  }

  lemma Conversions(w: Window, i: int)
    requires 0 <= w.first && w.first + i < MAX64 && 0 <= i < TWO31
    ensures ToExternal(w, w.first + i) == i && ToInternal(w, i) == w.first + i
  {
  }

  // ----- The object -----

  class EventStore {
    const cache: RoomTimeline
    var first: int
    var last: int

    constructor (cache: RoomTimeline)
      ensures this.cache == cache
      ensures View() == if cache.order2msg == map[] then SENTINEL else Range(cache.State())
    {
      this.cache := cache;
      first, last := MAX64, MAX64;
      new;
      var range := cache.GetTimelineRange();
      if range.Some? {
        first, last := range.value.0, range.value.1;
      }
    }

    ghost function View(): Window
      reads this
    {
      Window(first, last)
    }

    method HandleSync(limited: bool)
      modifies this`first, this`last
      ensures View() == AfterSync(old(View()), cache.State(), limited)
    {
      var range := cache.GetTimelineRange();
      if range.None? {
        first, last := MAX64, MAX64;
        return;
      }
      if limited {
        last := range.value.1;
        first := range.value.0;
      } else if range.value.1 > last {
        last := range.value.1;
      }
    }

    method AddPending(e: Event, now: int)
      modifies this`first, this`last, cache
      ensures Shown(cache.State(), View()) == ShowStep(old(Shown(cache.State(), View())), Send(e, now))
    {
      cache.SavePendingMessage(e, now);
      HandleSync(false);
    }

    /** `fetchMore` stands for the request the source makes next. */
    method OldMessagesRetrieved(page: Page) returns (fetchMore: bool)
      modifies this`first, this`last, cache
      ensures Shown(cache.State(), View()) == ShowStep(old(Shown(cache.State(), View())), History(page))
      ensures page.end == "" || old(cache.PreviousBatchToken()) == page.end ==>
                !fetchMore && cache.State() == old(cache.State()) && View() == old(View())
      ensures page.end != "" && old(cache.PreviousBatchToken()) != page.end ==>
                (fetchMore <==>
                 NewFirst(old(cache.State()), page) == old(first) ||
                 (old(last) == MAX64 && LastKey(cache.order2msg) == FirstKey(cache.order2msg)))
    {
      fetchMore := false;
      if page.end == "" || cache.PreviousBatchToken() == page.end {
        return;
      }
      var newFirst := cache.SaveOldMessages(page);
      if newFirst == first {
        fetchMore := true;
      } else if last != MAX64 {
        first := newFirst;
      } else {
        var range := cache.GetTimelineRange();
        if range.Some? && range.value.1 - range.value.0 != 0 {
          first, last := range.value.0, range.value.1;
        } else {
          fetchMore := true;
        }
      }
    }
  }
}
