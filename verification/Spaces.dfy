/** The index of space children and space parents (`src/Cache.cpp`, `updateSpaces`). */
module Spaces {
  import opened Wrappers

  type Room = string
  type User = string

  datatype ChildEvent = ChildEvent(stateKey: Room, hasVia: bool)
  datatype ParentEvent = ParentEvent(stateKey: Room, hasVia: bool, sender: User)
  datatype PowerLevels = PowerLevels(users: map<User, int>, usersDefault: int, spaceChild: int)

  /** The stored state: the known rooms, and the child, parent and power level events of each. */
  datatype World = World(
    rooms: set<Room>,
    children: map<Room, set<ChildEvent>>,
    parents: map<Room, set<ParentEvent>>,
    levels: map<Room, PowerLevels>)

  /** Rows (space, room) of the children table and rows (room, space) of the parents table. */
  datatype Index = Index(children: set<(Room, Room)>, parents: set<(Room, Room)>)

  const EMPTY_INDEX := Index({}, {})

  predicate RoomKey(key: string) {
    |key| > 3 && key[0] == '!'
  }

  function ChildEvents(w: World, space: Room): set<ChildEvent> {
    if space in w.children then w.children[space] else {}
  }

  function ParentEvents(w: World, room: Room): set<ParentEvent> {
    if room in w.parents then w.parents[room] else {}
  }

  function UserLevel(p: PowerLevels, u: User): int {
    if u in p.users then p.users[u] else p.usersDefault
  }

  predicate LinksChild(e: ChildEvent) {
    e.hasVia && RoomKey(e.stateKey)
  }

  /** A parent event counts when its sender may add children to the space. */
  predicate LinksParent(w: World, e: ParentEvent) {
    && e.hasVia && RoomKey(e.stateKey) && e.stateKey in w.levels
    && UserLevel(w.levels[e.stateKey], e.sender) >= w.levels[e.stateKey].spaceChild
  }

  predicate Points(w: World, room: Room, space: Room) {
    exists e :: e in ParentEvents(w, room) && e.stateKey == space
  }

  // ----- The update on whole tables -----

  /** The links a space declares, and those a room declares, as rows (space, room). */
  function ChildRows(w: World, space: Room): set<(Room, Room)> {
    set e | e in ChildEvents(w, space) && LinksChild(e) :: (space, e.stateKey)
  }

  function ParentRows(w: World, room: Room): set<(Room, Room)> {
    set e | e in ParentEvents(w, room) && LinksParent(w, e) :: (e.stateKey, room)
  }

  function AllChildRows(w: World, spaces: set<Room>): set<(Room, Room)> {
    set s, row | s in spaces && row in ChildRows(w, s) :: row
  }

  function AllParentRows(w: World, rooms: set<Room>): set<(Room, Room)> {
    set r, row | r in rooms && row in ParentRows(w, r) :: row
  }

  /** The rooms whose parent events are looked at again. */
  function Touched(w: World, spaces: set<Room>, rooms: set<Room>): set<Room> {
    rooms + set r | r in w.rooms && exists s :: s in spaces && Points(w, r, s)
  }

  function Swap(rows: set<(Room, Room)>): set<(Room, Room)> {
    set row | row in rows :: (row.1, row.0)
  }

  function UpdateSpaces(w: World, t: Index, spaces: set<Room>, rooms: set<Room>): Index {
    if spaces == {} && rooms == {} then t else
    var stale := set row | row in t.children && row.0 in spaces;
    var added := AllChildRows(w, spaces) + AllParentRows(w, Touched(w, spaces, rooms));
    Index(t.children - stale + added, t.parents - Swap(stale) + Swap(added))
  }

  // ----- The two tables mirror each other -----

  predicate Mirrored(t: Index) {
    t.parents == Swap(t.children)
  }

  lemma MirroredMeans(t: Index)
    ensures Mirrored(t) <==> forall s, r :: (s, r) in t.children <==> (r, s) in t.parents
  {
    if Mirrored(t) {
      forall s, r
        ensures (s, r) in t.children <==> (r, s) in t.parents
      {
        if (r, s) in t.parents {
          var row :| row in t.children && (row.1, row.0) == (r, s);
          assert row == (s, r);
        }
      }
    }
    if forall s, r :: (s, r) in t.children <==> (r, s) in t.parents {
      forall p
        ensures p in t.parents <==> p in Swap(t.children)
      {
        assert p == (p.0, p.1);
        assert (p.1, p.0) in t.children <==> p in t.parents;
      }
    }
  }

  lemma SwapMember(rows: set<(Room, Room)>, p: (Room, Room))
    ensures p in Swap(rows) <==> (p.1, p.0) in rows
  {
    if p in Swap(rows) {
      var row :| row in rows && (row.1, row.0) == p;
      assert row == (p.1, p.0);
    }
  }

  lemma UpdateMirrors(w: World, t: Index, spaces: set<Room>, rooms: set<Room>)
    requires Mirrored(t)
    ensures Mirrored(UpdateSpaces(w, t, spaces, rooms))
  {
    var t' := UpdateSpaces(w, t, spaces, rooms);
    var stale := set row | row in t.children && row.0 in spaces;
    var added := AllChildRows(w, spaces) + AllParentRows(w, Touched(w, spaces, rooms));
    hide AllChildRows, AllParentRows, Touched, Swap;
    if spaces != {} || rooms != {} {
      forall p
        ensures p in t'.parents <==> p in Swap(t'.children)
      {
        SwapMember(t'.children, p);
        SwapMember(t.children, p);
        SwapMember(stale, p);
        SwapMember(added, p);
      }
    }
  }

  // ----- The incremental index is the one from scratch -----

  /** Every link of the world, as rows. */
  function Links(w: World): set<(Room, Room)> {
    AllChildRows(w, w.children.Keys) + AllParentRows(w, w.rooms)
  }

  function Scratch(w: World): Index {
    Index(Links(w), Swap(Links(w)))
  }

  lemma ChildRowIn(w: World, spaces: set<Room>, s: Room, r: Room)
    ensures (s, r) in AllChildRows(w, spaces) <==> s in spaces && (s, r) in ChildRows(w, s)
  {
  }

  lemma ParentRowIn(w: World, rooms: set<Room>, s: Room, r: Room)
    ensures (s, r) in AllParentRows(w, rooms) <==> r in rooms && (s, r) in ParentRows(w, r)
  {
  }

  lemma LinkIn(w: World, s: Room, r: Room)
    ensures (s, r) in Links(w) <==> (s, r) in ChildRows(w, s) || (r in w.rooms && (s, r) in ParentRows(w, r))
  {
    ChildRowIn(w, w.children.Keys, s, r);
    ParentRowIn(w, w.rooms, s, r);
  }

  /** The child event by which a space declares a room, and the parent event by which a known room declares a
      space whose power levels let its sender add children. */
  ghost predicate DeclaresChild(w: World, s: Room, r: Room) {
    s in w.children && ChildEvent(r, true) in w.children[s]
  }

  ghost predicate DeclaresParent(w: World, s: Room, r: Room) {
    && r in w.rooms && r in w.parents && s in w.levels
    && exists u :: ParentEvent(s, true, u) in w.parents[r] &&
                   w.levels[s].spaceChild <= if u in w.levels[s].users then w.levels[s].users[u]
                                             else w.levels[s].usersDefault
  }

  /** The index from scratch has exactly the declared links between ids that look like room ids. */
  lemma LinkIff(w: World, s: Room, r: Room)
    ensures (s, r) in Scratch(w).children <==>
            || (|r| > 3 && r[0] == '!' && DeclaresChild(w, s, r))
            || (|s| > 3 && s[0] == '!' && DeclaresParent(w, s, r))
  {
    LinkIn(w, s, r);
    if (s, r) in ChildRows(w, s) {
      var e :| e in ChildEvents(w, s) && LinksChild(e) && (s, e.stateKey) == (s, r);
      assert e == ChildEvent(r, true);
    }
    if r in w.rooms && (s, r) in ParentRows(w, r) {
      var e :| e in ParentEvents(w, r) && LinksParent(w, e) && (e.stateKey, r) == (s, r);
      assert e == ParentEvent(s, true, e.sender);
    }
    if |r| > 3 && r[0] == '!' && DeclaresChild(w, s, r) {
      assert LinksChild(ChildEvent(r, true));
    }
    if |s| > 3 && s[0] == '!' && DeclaresParent(w, s, r) {
      var u :| ParentEvent(s, true, u) in w.parents[r] &&
               w.levels[s].spaceChild <= if u in w.levels[s].users then w.levels[s].users[u]
                                         else w.levels[s].usersDefault;
      assert LinksParent(w, ParentEvent(s, true, u));
    }
  }

  /** Starting from nothing with every space and room to look at gives the index from scratch. */
  lemma ScratchIsUpdateOfNothing(w: World)
    ensures UpdateSpaces(w, EMPTY_INDEX, w.children.Keys, w.rooms) == Scratch(w)
  {
    assert Touched(w, w.children.Keys, w.rooms) == w.rooms;
    if w.children == map[] && w.rooms == {} {
      assert Links(w) == {};
    } else {
      assert w.children != map[] ==> w.children.Keys != {};
    }
  }

  /** The events that decide the links of a space are the same in both worlds. */
  ghost predicate SameSpace(a: World, b: World, s: Room) {
    && ChildEvents(a, s) == ChildEvents(b, s)
    && (s in a.levels <==> s in b.levels) && (s in a.levels ==> a.levels[s] == b.levels[s])
    && forall r :: Points(a, r, s) || Points(b, r, s) ==>
         && (r in a.rooms <==> r in b.rooms)
         && forall e: ParentEvent :: e.stateKey == s ==> (e in ParentEvents(a, r) <==> e in ParentEvents(b, r))
  }

  lemma SameSpaceSameLinks(a: World, b: World, s: Room, r: Room)
    requires SameSpace(a, b, s)
    ensures (s, r) in Links(a) <==> (s, r) in Links(b)
  {
    LinkIn(a, s, r);
    LinkIn(b, s, r);
    assert (s, r) in ChildRows(a, s) <==> (s, r) in ChildRows(b, s);
    ParentRowSame(a, b, s, r);
  }

  lemma ParentRowSame(a: World, b: World, s: Room, r: Room)
    requires SameSpace(a, b, s)
    ensures (r in a.rooms && (s, r) in ParentRows(a, r)) <==> (r in b.rooms && (s, r) in ParentRows(b, r))
  {
    if (s, r) in ParentRows(a, r) {
      var e :| e in ParentEvents(a, r) && LinksParent(a, e) && (e.stateKey, r) == (s, r);
      assert Points(a, r, s);
      assert e in ParentEvents(b, r) && LinksParent(b, e);
    }
    if (s, r) in ParentRows(b, r) {
      var e :| e in ParentEvents(b, r) && LinksParent(b, e) && (e.stateKey, r) == (s, r);
      assert Points(b, r, s);
      assert e in ParentEvents(a, r) && LinksParent(a, e);
    }
  }

  /** If every space whose deciding events changed is updated, and only known rooms are, updating the old
      index gives the index from scratch. */
  lemma UpdateIsScratch(before: World, w: World, spaces: set<Room>, rooms: set<Room>)
    requires rooms <= w.rooms && forall s :: s !in spaces ==> SameSpace(before, w, s)
    ensures UpdateSpaces(w, Scratch(before), spaces, rooms) == Scratch(w)
  {
    var t := Scratch(before);
    var t' := UpdateSpaces(w, t, spaces, rooms);
    hide Links;
    forall row
      ensures row in t'.children <==> row in Links(w)
    {
      assert row == (row.0, row.1);
      RowAfterUpdate(before, w, spaces, rooms, row.0, row.1);
    }
    UpdateMirrors(w, t, spaces, rooms);
  }

  lemma RowAfterUpdate(before: World, w: World, spaces: set<Room>, rooms: set<Room>, s: Room, r: Room)
    requires rooms <= w.rooms && forall s :: s !in spaces ==> SameSpace(before, w, s)
    ensures (s, r) in UpdateSpaces(w, Scratch(before), spaces, rooms).children <==> (s, r) in Links(w)
  {
    hide Links, SameSpace;
    var touched := Touched(w, spaces, rooms);
    LinkIn(w, s, r);
    ChildRowIn(w, spaces, s, r);
    ParentRowIn(w, touched, s, r);
    if s !in spaces {
      SameSpaceSameLinks(before, w, s, r);
    } else if (s, r) in ParentRows(w, r) {
      assert Points(w, r, s);
    }
  }

  // ----- Runs -----

  datatype Op = Op(world: World, spaces: set<Room>, rooms: set<Room>)

  function Run(t: Index, ops: seq<Op>): Index {
    if ops == [] then t else
    var op := ops[|ops| - 1];
    UpdateSpaces(op.world, Run(t, ops[..|ops| - 1]), op.spaces, op.rooms)
  }

  /** Over every run the two tables are inverse relations. */
  lemma {:induction false} RunMirrors(t: Index, ops: seq<Op>)
    requires Mirrored(t)
    ensures forall s, r :: (s, r) in Run(t, ops).children <==> (r, s) in Run(t, ops).parents
    ensures Mirrored(Run(t, ops))
  {
    if ops != [] {
      RunMirrors(t, ops[..|ops| - 1]);
      var op := ops[|ops| - 1];
      UpdateMirrors(op.world, Run(t, ops[..|ops| - 1]), op.spaces, op.rooms);
    }
    MirroredMeans(Run(t, ops));
  }

  /** The world before the `n`-th update. */
  function Before(start: World, ops: seq<Op>, n: nat): World
    requires n < |ops|
  {
    if n == 0 then start else ops[n - 1].world
  }

  ghost predicate Covering(start: World, ops: seq<Op>) {
    forall n :: 0 <= n < |ops| ==>
      && ops[n].rooms <= ops[n].world.rooms
      && forall s :: s !in ops[n].spaces ==> SameSpace(Before(start, ops, n), ops[n].world, s)
  }

  /** Over every run whose updates cover what changed, the index is the one from scratch. */
  lemma {:induction false} RunIsScratch(start: World, ops: seq<Op>)
    requires Covering(start, ops)
    ensures Run(Scratch(start), ops) == Scratch(if ops == [] then start else ops[|ops| - 1].world)
  {
    hide UpdateSpaces, Scratch, SameSpace;
    if ops != [] {
      var front, last := ops[..|ops| - 1], |ops| - 1;
      assert forall n :: 0 <= n < last ==> front[n] == ops[n] && Before(start, front, n) == Before(start, ops, n);
      RunIsScratch(start, front);
      UpdateIsScratch(Before(start, ops, last), ops[last].world, ops[last].spaces, ops[last].rooms);
    }
  }

  // ----- The object -----

  /** `spacesChildrenDb_` and `spacesParentsDb_`, updated in place. */
  class SpaceTables {
    var children: set<(Room, Room)>
    var parents: set<(Room, Room)>

    constructor ()
      ensures View() == EMPTY_INDEX
    {
      children, parents := {}, {};
    }

    ghost function View(): Index
      reads this
    {
      Index(children, parents)
    }

    /** Deletes the old rows of a space. */
    method DeleteRows(space: Room)
      modifies this
      ensures children == set row | row in old(children) && row.0 != space
      ensures parents == old(parents) - Swap(set row | row in old(children) && row.0 == space)
    {
      var todo := set row | row in children && row.0 == space;
      ghost var done: set<(Room, Room)> := {};
      while todo != {}
        invariant done + todo == set row | row in old(children) && row.0 == space
        invariant children == old(children) && parents == old(parents) - Swap(done)
        decreases todo
      {
        var row :| row in todo;
        SwapOneMore(done, row);
        parents := parents - {(row.1, row.0)};
        todo, done := todo - {row}, done + {row};
      }
      children := set row | row in children && row.0 != space;
    }

    static lemma SwapOneMore(rows: set<(Room, Room)>, row: (Room, Room))
      ensures Swap(rows + {row}) == Swap(rows) + {(row.1, row.0)}
    {
      forall p
        ensures p in Swap(rows + {row}) <==> p in Swap(rows) + {(row.1, row.0)}
      {
        SwapMember(rows + {row}, p);
        SwapMember(rows, p);
      }
    }

    method PutChildren(w: World, space: Room)
      modifies this
      ensures children == old(children) + ChildRows(w, space) && parents == old(parents) + Swap(ChildRows(w, space))
    {
      var todo := ChildEvents(w, space);
      ghost var done: set<ChildEvent> := {};
      ghost var rows: set<(Room, Room)> := {};
      while todo != {}
        invariant done + todo == ChildEvents(w, space)
        invariant rows == set e | e in done && LinksChild(e) :: (space, e.stateKey)
        invariant children == old(children) + rows && parents == old(parents) + Swap(rows)
        decreases todo
      {
        var e :| e in todo;
        todo, done := todo - {e}, done + {e};
        if e.hasVia && |e.stateKey| > 3 && e.stateKey[0] == '!' {
          SwapOneMore(rows, (space, e.stateKey));
          rows := rows + {(space, e.stateKey)};
          children := children + {(space, e.stateKey)};
          parents := parents + {(e.stateKey, space)};
        }
      }
      assert done == ChildEvents(w, space);
    }

    method PutParents(w: World, room: Room)
      modifies this
      ensures children == old(children) + ParentRows(w, room) && parents == old(parents) + Swap(ParentRows(w, room))
    {
      var todo := ParentEvents(w, room);
      ghost var done: set<ParentEvent> := {};
      ghost var rows: set<(Room, Room)> := {};
      while todo != {}
        invariant done + todo == ParentEvents(w, room)
        invariant rows == set e | e in done && LinksParent(w, e) :: (e.stateKey, room)
        invariant children == old(children) + rows && parents == old(parents) + Swap(rows)
        decreases todo
      {
        var e :| e in todo;
        todo, done := todo - {e}, done + {e};
        if e.hasVia && |e.stateKey| > 3 && e.stateKey[0] == '!' {
          var space := e.stateKey;
          if space !in w.levels {
            continue;
          }
          if UserLevel(w.levels[space], e.sender) >= w.levels[space].spaceChild {
            SwapOneMore(rows, (space, room));
            rows := rows + {(space, room)};
            children := children + {(space, room)};
            parents := parents + {(room, space)};
          }
        }
      }
      assert done == ParentEvents(w, room);
    }

    /** `getStateEvent<Parent>(txn, room, space)`. */
    method HasParentEvent(w: World, room: Room, space: Room) returns (has: bool)
      ensures has == Points(w, room, space)
    {
      var todo := ParentEvents(w, room);
      has := false;
      while todo != {}
        invariant todo <= ParentEvents(w, room) && !has
        invariant forall e :: e in ParentEvents(w, room) && e !in todo ==> e.stateKey != space
        decreases todo
      {
        var e :| e in todo;
        if e.stateKey == space {
          return true;
        }
        todo := todo - {e};
      }
    }

    /** The rooms pointing at a space join the rooms to look at. */
    method AddPointing(w: World, space: Room, rooms: set<Room>) returns (more: set<Room>)
      ensures more == rooms + set r | r in w.rooms && Points(w, r, space)
    {
      more := rooms;
      var todo := w.rooms;
      while todo != {}
        invariant todo <= w.rooms
        invariant more == rooms + set r | r in w.rooms && r !in todo && Points(w, r, space)
        decreases todo
      {
        var r :| r in todo;
        var has := HasParentEvent(w, r, space);
        if has {
          more := more + {r};
        }
        todo := todo - {r};
      }
    }

    /** The tables after the first loop has dealt with some of the spaces. */
    static function AfterSpaces(w: World, t: Index, done: set<Room>): Index {
      var stale := set row | row in t.children && row.0 in done;
      Index(t.children - stale + AllChildRows(w, done), t.parents - Swap(stale) + Swap(AllChildRows(w, done)))
    }

    static lemma OneMoreSpace(w: World, t: Index, done: set<Room>, space: Room)
      requires space !in done
      ensures var a, b := AfterSpaces(w, t, done), AfterSpaces(w, t, done + {space});
              var gone := set row | row in a.children && row.0 == space;
              && b.children == (set row | row in a.children && row.0 != space) + ChildRows(w, space)
              && b.parents == a.parents - Swap(gone) + Swap(ChildRows(w, space))
    {
      var a, b := AfterSpaces(w, t, done), AfterSpaces(w, t, done + {space});
      var gone := set row | row in a.children && row.0 == space;
      var stale := set row | row in t.children && row.0 in done;
      var stale' := set row | row in t.children && row.0 in done + {space};
      forall row: (Room, Room)
        ensures row in b.children <==> row in (set row | row in a.children && row.0 != space) + ChildRows(w, space)
        ensures row in gone <==> row in t.children && row.0 == space
      {
        assert row == (row.0, row.1);
        ChildRowIn(w, done, row.0, row.1);
        ChildRowIn(w, done + {space}, row.0, row.1);
      }
      hide Swap, AllChildRows, ChildRows;
      forall p: (Room, Room)
        ensures p in b.parents <==> p in a.parents - Swap(gone) + Swap(ChildRows(w, space))
      {
        ChildRowIn(w, done, p.1, p.0);
        ChildRowIn(w, done + {space}, p.1, p.0);
        ChildRowsOf(w, space, p.1, p.0);
        SwapMember(stale, p);
        SwapMember(stale', p);
        SwapMember(gone, p);
        SwapMember(AllChildRows(w, done), p);
        SwapMember(AllChildRows(w, done + {space}), p);
        SwapMember(ChildRows(w, space), p);
      }
    }

    static lemma ChildRowsOf(w: World, space: Room, s: Room, r: Room)
      ensures (s, r) in ChildRows(w, space) ==> s == space
    {
    }

    method Update(w: World, spaces: set<Room>, roomsWithUpdates: set<Room>)
      modifies this
      ensures View() == UpdateSpaces(w, old(View()), spaces, roomsWithUpdates)
    {
      if spaces == {} && roomsWithUpdates == {} {
        return;
      }
      var rooms := roomsWithUpdates;
      var todo := spaces;
      ghost var done: set<Room> := {};
      NoSpaces(w, View());
      while todo != {}
        invariant done + todo == spaces && done !! todo
        invariant View() == AfterSpaces(w, old(View()), done)
        invariant rooms == Touched(w, done, roomsWithUpdates)
        decreases todo
      {
        var space :| space in todo;
        OneMoreSpace(w, old(View()), done, space);
        DeleteRows(space);
        PutChildren(w, space);
        rooms := AddPointing(w, space, rooms);
        todo, done := todo - {space}, done + {space};
      }
      assert done == spaces;
      PutAllParents(w, rooms);
      SwapUnion(AllChildRows(w, spaces), AllParentRows(w, rooms));
    }

    static lemma NoSpaces(w: World, t: Index)
      ensures AfterSpaces(w, t, {}) == t
    {
    }

    static lemma SwapUnion(a: set<(Room, Room)>, b: set<(Room, Room)>)
      ensures Swap(a + b) == Swap(a) + Swap(b)
    {
      forall p
        ensures p in Swap(a + b) <==> p in Swap(a) + Swap(b)
      {
        SwapMember(a + b, p);
        SwapMember(a, p);
        SwapMember(b, p);
      }
    }

    method PutAllParents(w: World, rooms: set<Room>)
      modifies this
      ensures children == old(children) + AllParentRows(w, rooms)
      ensures parents == old(parents) + Swap(AllParentRows(w, rooms))
    {
      var todo := rooms;
      ghost var done: set<Room> := {};
      while todo != {}
        invariant done + todo == rooms
        invariant children == old(children) + AllParentRows(w, done)
        invariant parents == old(parents) + Swap(AllParentRows(w, done))
        decreases todo
      {
        var room :| room in todo;
        PutParents(w, room);
        assert AllParentRows(w, done + {room}) == AllParentRows(w, done) + ParentRows(w, room);
        SwapUnion(AllParentRows(w, done), ParentRows(w, room));
        todo, done := todo - {room}, done + {room};
      }
      assert done == rooms;
    }
  }
}
