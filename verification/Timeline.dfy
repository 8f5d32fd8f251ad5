/** The room timeline index of `src/Cache.cpp`, as values.

    `Tables` is what the database holds for one room: arrival order, visible order, both inverse
    tables, the stored events and the pending sends. The functions that change it follow the source
    step by step; whole operations have no preconditions, the parts of them that belong to one branch
    require its guard. `Entry` sequences are the meaning: one list of events,
    oldest first. `Represents` ties the two together, and the lemmas of `TimelineProofs` show that
    each operation on the tables does to the list what the list functions below say.

    Whether an event is hidden is decided outside (`Cache::isHiddenEvent`) and may differ from call
    to call, so each incoming event carries the verdict.
*/
module Timeline {
  import opened Wrappers

  type Id = string

  /** Transaction ids start with an 'm' (`src/timeline/EventStore.cpp:119`); server ids do not. */
  predicate IsTxn(id: Id) {
    id != "" && id[0] == 'm'
  }

  /** `redacts` is `None` for everything but redactions; an empty string is an absent id or
      transaction id, as in the source. */
  datatype Event = Event(id: Id, txn: Id, redacts: Option<Id>, hidden: bool, body: string)

  /** A row of the event table: the event, and what redacted it. */
  datatype Stored = Stored(event: Event, redactedBy: Option<Id>)

  /** A row of `event_order`. */
  datatype Slot = Slot(id: Id, prevBatch: Option<string>)

  datatype Tables = Tables(
    eventOrder: map<int, Slot>,
    event2order: map<Id, int>,
    order2msg: map<int, Id>,
    msg2order: map<Id, int>,
    events: map<Id, Stored>,
    pending: map<int, Id>)

  /** `res` of a sync, and a page of history. */
  datatype Batch = Batch(events: seq<Event>, limited: bool, prevBatch: string)
  datatype Page = Page(chunk: seq<Event>, end: string)

  // std::numeric_limits<uint64_t>::max() / 2
  const START: int := 0x7FFF_FFFF_FFFF_FFFF

  const MAX_RESTORED_MESSAGES: int := 30_000

  const EMPTY_TABLES := Tables(map[], map[], map[], map[], map[], map[])

  // ----- Cursors over integer keys -----

  lemma Member<T>(s: set<T>) returns (x: T)
    requires s != {}
    ensures x in s
  {
    x :| x in s;
  }

  lemma {:induction false} GreatestExists(s: set<int>)
    requires s != {}
    ensures exists k :: k in s && forall j :: j in s ==> j <= k
  {
    var x := Member(s);
    if s != {x} {
      GreatestExists(s - {x});
      var y :| y in s - {x} && forall j :: j in s - {x} ==> j <= y;
      assert forall j :: j in s ==> j == x || j in s - {x};
      assert if x < y then y in s else x in s;
      assert forall j :: j in s ==> j <= if x < y then y else x;
    }
  }

  lemma {:induction false} LeastExists(s: set<int>)
    requires s != {}
    ensures exists k :: k in s && forall j :: j in s ==> k <= j
  {
    var x := Member(s);
    if s != {x} {
      LeastExists(s - {x});
      var y :| y in s - {x} && forall j :: j in s - {x} ==> y <= j;
      assert forall j :: j in s ==> j == x || j in s - {x};
      assert if x < y then x in s else y in s;
      assert forall j :: j in s ==> (if x < y then x else y) <= j;
    }
  }

  /** The key MDB_LAST lands on. */
  function Greatest(s: set<int>): (k: int)
    requires s != {}
    ensures k in s && forall j :: j in s ==> j <= k
  {
    GreatestExists(s);
    var k :| k in s && forall j :: j in s ==> j <= k;
    k
  }

  /** The key MDB_FIRST lands on. */
  function Least(s: set<int>): (k: int)
    requires s != {}
    ensures k in s && forall j :: j in s ==> k <= j
  {
    LeastExists(s);
    var k :| k in s && forall j :: j in s ==> k <= j;
    k
  }

  function LastKey<V>(m: map<int, V>): int {
    if m == map[] then START else Greatest(m.Keys)
  }

  function FirstKey<V>(m: map<int, V>): int {
    if m == map[] then START else Least(m.Keys)
  }

  // ----- saveTimelineMessages -----

  /** The loop state of `saveTimelineMessages`. */
  datatype SyncState = SyncState(t: Tables, index: int, msgIndex: int, first: bool)

  function Token(first: bool, prevBatch: string): Option<string> {
    if first && prevBatch != "" then Some(prevBatch) else None
  }

  /** A remote echo: the pending entry becomes the server's event in place. */
  function Echo(t: Tables, e: Event, token: Option<string>): Tables
    requires e.txn in t.event2order
  {
    var place := t.event2order[e.txn];
    var shown := e.txn in t.msg2order;
    t.(events := t.events[e.id := Stored(e, None)] - {e.txn},
       order2msg := if shown then t.order2msg[t.msg2order[e.txn] := e.id] else t.order2msg,
       msg2order := if shown then t.msg2order[e.id := t.msg2order[e.txn]] - {e.txn} else t.msg2order,
       eventOrder := t.eventOrder[place := Slot(e.id, token)],
       event2order := t.event2order[e.id := place] - {e.txn},
       pending := Unsent(t.pending, e.txn))
  }

  /** The pending table without the rows naming `txn`. */
  function Unsent(pending: map<int, Id>, txn: Id): map<int, Id> {
    map ts | ts in pending && pending[ts] != txn :: pending[ts]
  }

  /** The cursor loop that `removePendingStatus` and a remote echo share. */
  method Unsend(pending: map<int, Id>, txn: Id) returns (rest: map<int, Id>)
    ensures rest == Unsent(pending, txn)
  {
    rest := pending;
    var todo := pending.Keys;
    while todo != {}
      invariant todo <= rest.Keys
      invariant rest == map ts | ts in pending && (ts in todo || pending[ts] != txn) :: pending[ts]
      decreases todo
    {
      var ts := Least(todo);
      todo := todo - {ts};
      if rest[ts] == txn {
        rest := Without(rest, ts);
      }
    }
  }

  function Redact(t: Tables, e: Event): Tables
    requires e.redacts.Some?
  {
    var target := e.redacts.value;
    if target == "" || target !in t.events then t else
    t.(events := t.events[target := Stored(t.events[target].event.(body := ""), Some(e.id))]
                         [e.id := Stored(e, None)])
  }

  /** A new event at the top, or a duplicate whose body alone is refreshed. */
  function SaveNewest(s: SyncState, e: Event, token: Option<string>): SyncState {
    var t := s.t.(events := s.t.events[e.id := Stored(e, None)]);
    if e.id in t.event2order then s.(t := t, first := false) else
    var ordered := t.(eventOrder := t.eventOrder[s.index + 1 := Slot(e.id, token)],
                      event2order := t.event2order[e.id := s.index + 1]);
    if e.hidden then SyncState(ordered, s.index + 1, s.msgIndex, false) else
    SyncState(ordered.(order2msg := t.order2msg[s.msgIndex + 1 := e.id],
                       msg2order := t.msg2order[e.id := s.msgIndex + 1]),
              s.index + 1, s.msgIndex + 1, false)
  }

  function SyncStep(s: SyncState, e: Event, prevBatch: string): SyncState {
    var token := Token(s.first, prevBatch);
    if e.id == "" then s
    else if e.txn != "" && e.txn in s.t.event2order then s.(t := Echo(s.t, e, token))
    else if e.redacts.Some? then s.(t := Redact(s.t, e))
    else SaveNewest(s, e, token)
  }

  function SyncFold(s: SyncState, events: seq<Event>, prevBatch: string): SyncState {
    if events == [] then s
    else SyncStep(SyncFold(s, events[..|events| - 1], prevBatch), events[|events| - 1], prevBatch)
  }

  /** A limited sync forgets the order and the sends, but keeps the stored events. */
  function Forget(t: Tables): Tables {
    t.(eventOrder := map[], event2order := map[], order2msg := map[], msg2order := map[], pending := map[])
  }

  function SyncStart(t: Tables, limited: bool): SyncState {
    var t' := if limited then Forget(t) else t;
    SyncState(t', LastKey(t'.eventOrder), LastKey(t'.order2msg), true)
  }

  function SaveTimeline(t: Tables, batch: Batch): Tables {
    if batch.events == [] then t
    else SyncFold(SyncStart(t, batch.limited), batch.events, batch.prevBatch).t
  }

  /** `savePendingMessage` at time `now`. */
  function SavePending(t: Tables, e: Event, now: int): Tables {
    var t' := SaveTimeline(t, Batch([e], false, ""));
    t'.(pending := t'.pending[now := e.id])
  }

  // ----- saveOldMessages -----

  /** The loop state of `saveOldMessages`; `lastId` is `event_id_val`. */
  datatype PageState = PageState(t: Tables, index: int, msgIndex: int, lastId: Id)

  function PageStep(s: PageState, e: Event): PageState {
    if e.redacts.Some? then s else
    var t := s.t.(events := s.t.events[e.id := Stored(e, None)]);
    if e.id in t.event2order then s.(t := t, lastId := e.id) else
    var ordered := t.(eventOrder := t.eventOrder[s.index - 1 := Slot(e.id, None)],
                      event2order := t.event2order[e.id := s.index - 1]);
    if e.hidden then PageState(ordered, s.index - 1, s.msgIndex, e.id) else
    PageState(ordered.(order2msg := t.order2msg[s.msgIndex - 1 := e.id],
                       msg2order := t.msg2order[e.id := s.msgIndex - 1]),
              s.index - 1, s.msgIndex - 1, e.id)
  }

  function PageFold(s: PageState, chunk: seq<Event>): PageState {
    if chunk == [] then s else PageStep(PageFold(s, chunk[..|chunk| - 1]), chunk[|chunk| - 1])
  }

  function PageStart(t: Tables): PageState {
    PageState(t, FirstKey(t.eventOrder), FirstKey(t.order2msg), "")
  }

  function SaveOld(t: Tables, page: Page): Tables {
    if page.chunk == [] then
      var index := FirstKey(t.eventOrder);
      if index in t.eventOrder
      then t.(eventOrder := t.eventOrder[index := t.eventOrder[index].(prevBatch := Some(page.end))])
      else t
    else
      var s := PageFold(PageStart(t), page.chunk);
      s.t.(eventOrder := s.t.eventOrder[s.index := Slot(s.lastId, Some(page.end))])
  }

  /** `previousBatchToken`. */
  function OldestToken(order: map<int, Slot>): string {
    if order == map[] then "" else
    match order[FirstKey(order)].prevBatch
    case None => ""
    case Some(token) => token
  }

  // ----- Retention and clearing -----

  function Without<V>(m: map<int, V>, k: int): map<int, V> {
    map j | j in m && j != k :: m[j]
  }

  /** Deletes one arrival slot and everything stored under its event id. */
  function RemoveSlot(t: Tables, k: int): Tables
    requires k in t.eventOrder
  {
    var id := t.eventOrder[k].id;
    t.(eventOrder := Without(t.eventOrder, k),
       event2order := t.event2order - {id},
       events := t.events - {id},
       order2msg := if id in t.msg2order then Without(t.order2msg, t.msg2order[id]) else t.order2msg,
       msg2order := t.msg2order - {id})
  }

  /** The `n` oldest slots, oldest first. */
  function DropOldest(t: Tables, n: nat): Tables
    decreases n
  {
    if n == 0 || t.eventOrder == map[] then t
    else DropOldest(RemoveSlot(t, FirstKey(t.eventOrder)), n - 1)
  }

  /** `deleteOldMessages` for one room. */
  function Retain(t: Tables): Tables {
    var span := LastKey(t.eventOrder) - FirstKey(t.eventOrder);
    if t.eventOrder == map[] || span < MAX_RESTORED_MESSAGES then t
    else DropOldest(t, span - MAX_RESTORED_MESSAGES)
  }

  function Below<V>(m: map<int, V>, k: int): set<int> {
    set j | j in m && j < k
  }

  function Above<V>(m: map<int, V>, k: int): set<int> {
    set j | j in m && j > k
  }

  /** The slots below `k`, newest first. */
  function DropBelow(t: Tables, k: int): Tables
    decreases |t.eventOrder|
  {
    var below := Below(t.eventOrder, k);
    if below == {} then t else
    var newest := Greatest(below);
    assert |Without(t.eventOrder, newest).Keys| < |t.eventOrder.Keys| by {
      assert Without(t.eventOrder, newest).Keys == t.eventOrder.Keys - {newest};
    }
    DropBelow(if t.eventOrder[newest].id == "" then t.(eventOrder := Without(t.eventOrder, newest))
              else RemoveSlot(t, newest), newest)
  }

  /** The slots carrying a pagination token. */
  function TokenSlots(t: Tables): set<int> {
    set k | k in t.eventOrder && t.eventOrder[k].prevBatch.Some?
  }

  /** The rows of `order2msg` whose event has no arrival slot. */
  function StrayRows(t: Tables): set<int> {
    set r | r in t.order2msg && !HasSlot(t.eventOrder, t.order2msg[r])
  }

  predicate HasSlot(order: map<int, Slot>, id: Id) {
    exists k :: k in order && order[k].id == id
  }

  /** The last part of `clearTimeline`: it looks for the newest stray row and deletes that row and
      all below. When there is none the cursor rests on the lowest row, which goes as well. */
  function TrimRows(t: Tables): Tables {
    if t.order2msg == map[] then t else
    var stop := if StrayRows(t) == {} then FirstKey(t.order2msg) else Greatest(StrayRows(t));
    t.(order2msg := map r | r in t.order2msg && r > stop :: t.order2msg[r])
  }

  function Clear(t: Tables): Tables {
    TrimRows(if TokenSlots(t) == {} then t else DropBelow(t, Greatest(TokenSlots(t))))
  }

  // ----- The list the tables stand for -----

  datatype Entry = Entry(id: Id, visible: bool, token: Option<string>)

  function Ids(log: seq<Entry>): seq<Id> {
    seq(|log|, i requires 0 <= i < |log| => log[i].id)
  }

  function Visible(log: seq<Entry>): seq<Id> {
    if log == [] then [] else
    var last := log[|log| - 1];
    Visible(log[..|log| - 1]) + if last.visible then [last.id] else []
  }

  predicate At(m: map<int, Id>, k: int, id: Id) {
    k in m && m[k] == id
  }

  /** `fwd` numbers `ids` consecutively from `base` and `back` is its inverse. */
  ghost predicate Numbered(fwd: map<int, Id>, back: map<Id, int>, ids: seq<Id>, base: int) {
    && (forall k :: k in fwd ==> base <= k < base + |ids|)
    && (forall i :: 0 <= i < |ids| ==> At(fwd, base + i, ids[i]))
    && (forall k :: k in fwd ==> fwd[k] in back && back[fwd[k]] == k)
    && (forall id :: id in back ==> back[id] in fwd && fwd[back[id]] == id)
  }

  function SlotIds(order: map<int, Slot>): map<int, Id> {
    map k | k in order :: order[k].id
  }

  ghost predicate Represents(t: Tables, log: seq<Entry>, base: int, msgBase: int) {
    && Numbered(SlotIds(t.eventOrder), t.event2order, Ids(log), base)
    && Numbered(t.order2msg, t.msg2order, Visible(log), msgBase)
    && (forall i :: 0 <= i < |log| ==> log[i].id != "")
    && (forall i :: 0 <= i < |log| && base + i in t.eventOrder ==> t.eventOrder[base + i].prevBatch == log[i].token)
  }

  /** Some list explains the tables. */
  ghost predicate Consistent(t: Tables) {
    exists log, base, msgBase :: Represents(t, log, base, msgBase)
  }

  ghost predicate Has(log: seq<Entry>, id: Id) {
    exists i :: 0 <= i < |log| && log[i].id == id
  }

  function Find(log: seq<Entry>, id: Id): (i: nat)
    requires Has(log, id)
    ensures i < |log| && log[i].id == id
  {
    if log[|log| - 1].id == id then |log| - 1 else Find(log[..|log| - 1], id)
  }

  // What each operation does to the list.

  datatype LogState = LogState(log: seq<Entry>, first: bool)

  ghost function LogStep(s: LogState, e: Event, prevBatch: string): LogState {
    var token := if s.first && prevBatch != "" then Some(prevBatch) else None;
    if e.id == "" then s
    else if e.txn != "" && Has(s.log, e.txn) then
      var i := Find(s.log, e.txn);
      s.(log := s.log[i := Entry(e.id, s.log[i].visible, token)])
    else if e.redacts.Some? then s
    else if Has(s.log, e.id) then s.(first := false)
    else LogState(s.log + [Entry(e.id, !e.hidden, token)], false)
  }

  ghost function LogFold(s: LogState, events: seq<Event>, prevBatch: string): LogState {
    if events == [] then s
    else LogStep(LogFold(s, events[..|events| - 1], prevBatch), events[|events| - 1], prevBatch)
  }

  ghost function LogSync(log: seq<Entry>, batch: Batch): seq<Entry> {
    if batch.events == [] then log
    else LogFold(LogState(if batch.limited then [] else log, true), batch.events, batch.prevBatch).log
  }

  ghost function LogPage(log: seq<Entry>, chunk: seq<Event>): seq<Entry> {
    if chunk == [] then log else
    var e := chunk[|chunk| - 1];
    var rest := LogPage(log, chunk[..|chunk| - 1]);
    if e.redacts.Some? || Has(rest, e.id) then rest else [Entry(e.id, !e.hidden, None)] + rest
  }

  /** The id of the last event of a page that is not a redaction. */
  function LastKept(chunk: seq<Event>): Id {
    if chunk == [] then ""
    else if chunk[|chunk| - 1].redacts.None? then chunk[|chunk| - 1].id
    else LastKept(chunk[..|chunk| - 1])
  }

  ghost function LogOld(log: seq<Entry>, page: Page): seq<Entry> {
    var log' := LogPage(log, page.chunk);
    if log' == [] then [] else log'[0 := log'[0].(token := Some(page.end))]
  }

  ghost function LogRetain(log: seq<Entry>): seq<Entry> {
    if |log| <= MAX_RESTORED_MESSAGES + 1 then log else log[|log| - (MAX_RESTORED_MESSAGES + 1)..]
  }

  /** Where the newest entry with a pagination token is; 0 when there is none. */
  function NewestToken(log: seq<Entry>): (i: nat)
    ensures i <= |log| && (log != [] ==> i < |log|)
  {
    if log == [] then 0
    else if log[|log| - 1].token.Some? then |log| - 1
    else NewestToken(log[..|log| - 1])
  }

  // ----- What a caller must check first -----

  /** An echo must bring a new id: neither the transaction id itself nor one already ordered. */
  ghost predicate FreshEcho(log: seq<Entry>, e: Event) {
    e.id != "" && e.txn != "" && Has(log, e.txn) ==> e.id != e.txn && !Has(log, e.id)
  }

  ghost predicate FreshEchoes(s: LogState, events: seq<Event>, prevBatch: string) {
    events == [] ||
    (FreshEchoes(s, events[..|events| - 1], prevBatch) &&
     FreshEcho(LogFold(s, events[..|events| - 1], prevBatch).log, events[|events| - 1]))
  }

  ghost predicate GoodBatch(log: seq<Entry>, batch: Batch) {
    FreshEchoes(LogState(if batch.limited then [] else log, true), batch.events, batch.prevBatch)
  }

  /** An event of the page that is not a redaction has this id. */
  predicate Brings(chunk: seq<Event>, id: Id) {
    exists n :: 0 <= n < |chunk| && chunk[n].redacts.None? && chunk[n].id == id
  }

  /** The last id of a page that is new: neither ordered nor earlier in the page. */
  ghost function LastNew(log: seq<Entry>, chunk: seq<Event>): Id {
    if chunk == [] then "" else
    var front, e := chunk[..|chunk| - 1], chunk[|chunk| - 1];
    if e.redacts.None? && !Has(log, e.id) && !Brings(front, e.id) then e.id else LastNew(log, front)
  }

  /** The id that ends up on the lowest slot: the last new one, or the oldest there was. */
  ghost function LowestId(log: seq<Entry>, chunk: seq<Event>): Id {
    if LastNew(log, chunk) != "" then LastNew(log, chunk) else if log != [] then log[0].id else ""
  }

  /** The page's last event that is not a redaction is the one on the lowest slot. */
  ghost predicate GoodPage(log: seq<Entry>, page: Page) {
    page.chunk == [] || LastKept(page.chunk) == LowestId(log, page.chunk) != ""
  }

  predicate NamedEvents(chunk: seq<Event>) {
    forall n :: 0 <= n < |chunk| ==> chunk[n].id != ""
  }

  // ----- Runs -----

  datatype Op =
    | Sync(batch: Batch)
    | Send(event: Event, now: int)
    | History(page: Page)
    | Retention

  function Apply(t: Tables, op: Op): Tables {
    match op
    case Sync(batch) => SaveTimeline(t, batch)
    case Send(e, now) => SavePending(t, e, now)
    case History(page) => SaveOld(t, page)
    case Retention => Retain(t)
  }

  function Run(t: Tables, ops: seq<Op>): Tables {
    if ops == [] then t else Apply(Run(t, ops[..|ops| - 1]), ops[|ops| - 1])
  }

  ghost function LogApply(log: seq<Entry>, op: Op): seq<Entry> {
    match op
    case Sync(batch) => LogSync(log, batch)
    case Send(e, _) => LogSync(log, Batch([e], false, ""))
    case History(page) => LogOld(log, page)
    case Retention => LogRetain(log)
  }

  ghost function LogRun(log: seq<Entry>, ops: seq<Op>): seq<Entry> {
    if ops == [] then log else LogApply(LogRun(log, ops[..|ops| - 1]), ops[|ops| - 1])
  }

  ghost predicate Admissible(log: seq<Entry>, op: Op) {
    match op
    case Sync(batch) => GoodBatch(log, batch)
    case Send(e, _) => GoodBatch(log, Batch([e], false, ""))
    case History(page) => NamedEvents(page.chunk) && GoodPage(log, page)
    case Retention => true
  }

  ghost predicate AdmissibleRun(log: seq<Entry>, ops: seq<Op>) {
    ops == [] ||
    (AdmissibleRun(log, ops[..|ops| - 1]) && Admissible(LogRun(log, ops[..|ops| - 1]), ops[|ops| - 1]))
  }
}
