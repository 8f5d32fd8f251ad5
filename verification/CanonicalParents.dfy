/** The traversal of canonical parents that collects image packs (`src/Cache.cpp`, `getImagePacks`). */
module CanonicalParents {

  type Room = string

  datatype ParentEvent = ParentEvent(stateKey: Room, canonical: bool, hasVia: bool)

  /** The parent events of each room, in database order. Rooms without an entry have none. */
  type Graph = map<Room, seq<ParentEvent>>

  function Events(g: Graph, r: Room): seq<ParentEvent> {
    if r in g then g[r] else []
  }

  predicate Edge(g: Graph, a: Room, b: Room) {
    exists e :: e in Events(g, a) && e.canonical && e.hasVia && e.stateKey == b
  }

  // ----- Reachability, independent of the traversal -----

  ghost predicate Path(g: Graph, p: seq<Room>) {
    p != [] && forall n :: 0 <= n < |p| - 1 ==> Edge(g, p[n], p[n + 1])
  }

  ghost predicate Reachable(g: Graph, a: Room, b: Room) {
    exists p :: Path(g, p) && p[0] == a && p[|p| - 1] == b
  }

  lemma ReachesItself(g: Graph, a: Room)
    ensures Reachable(g, a, a)
  {
    assert Path(g, [a]) && [a][0] == a;
  }

  lemma ReachesThrough(g: Graph, a: Room, b: Room, c: Room)
    requires Edge(g, a, b) && Reachable(g, b, c)
    ensures Reachable(g, a, c)
  {
    var p :| Path(g, p) && p[0] == b && p[|p| - 1] == c;
    var q := [a] + p;
    forall n | 0 <= n < |q| - 1
      ensures Edge(g, q[n], q[n + 1])
    {
      if n > 0 {
        assert q[n] == p[n - 1] && q[n + 1] == p[n];
      }
    }
    assert Path(g, q) && q[0] == a && q[|q| - 1] == c;
  }

  ghost predicate ClosedUnder(g: Graph, rooms: set<Room>) {
    forall a, b :: a in rooms && Edge(g, a, b) ==> b in rooms
  }

  lemma {:induction false} PathStaysIn(g: Graph, rooms: set<Room>, p: seq<Room>)
    requires ClosedUnder(g, rooms) && Path(g, p) && p[0] in rooms
    ensures p[|p| - 1] in rooms
  {
    if |p| > 1 {
      assert Edge(g, p[0], p[1]);
      PathStaysIn(g, rooms, p[1..]);
    }
  }

  // ----- All rooms a traversal can meet -----

  function Universe(g: Graph, start: Room): set<Room> {
    {start} + g.Keys + set r, n | r in g && 0 <= n < |g[r]| :: g[r][n].stateKey
  }

  lemma UniverseClosed(g: Graph, start: Room, a: Room, b: Room)
    requires Edge(g, a, b)
    ensures b in Universe(g, start)
  {
  }

  predicate Distinct(rooms: seq<Room>) {
    forall n, m :: 0 <= n < m < |rooms| ==> rooms[n] != rooms[m]
  }

  class PackCollector {
    var visited: set<Room>
    var order: seq<Room>

    constructor ()
      ensures visited == {} && order == []
    {
      visited, order := {}, [];
    }

    /** The visited rooms are the listed ones, each listed once. */
    ghost predicate Valid()
      reads this
    {
      Distinct(order) && forall r :: r in order <==> r in visited
    }

    /** `addRoomAndCanonicalParents`. What it adds is reachable from the room; every added room has all
        its parents visited. */
    method AddRoomAndCanonicalParents(g: Graph, start: Room, current: Room)
      requires Valid() && visited <= Universe(g, start) && current in Universe(g, start)
      modifies this
      ensures Valid() && visited <= Universe(g, start)
      ensures old(order) <= order && current in visited
      ensures current !in old(visited) ==> old(order) + [current] <= order
      ensures forall r :: r in visited && r !in old(visited) ==> Reachable(g, current, r)
      ensures forall a, b :: a in visited && a !in old(visited) && Edge(g, a, b) ==> b in visited
      decreases Universe(g, start) - visited
    {
      if current in visited {
        return;
      }
      visited := visited + {current};
      order := order + [current];
      ReachesItself(g, current);
      var parents := Events(g, current);
      for n := 0 to |parents|
        invariant Valid() && visited <= Universe(g, start) && old(visited) + {current} <= visited
        invariant old(order) + [current] <= order
        invariant forall r :: r in visited && r !in old(visited) ==> Reachable(g, current, r)
        invariant forall a, b :: a in visited && a !in old(visited) && a != current && Edge(g, a, b) ==> b in visited
        invariant forall e :: e in parents[..n] && e.canonical && e.hasVia ==> e.stateKey in visited
      {
        assert parents[..n + 1] == parents[..n] + [parents[n]];
        if parents[n].canonical && parents[n].hasVia {
          var parent := parents[n].stateKey;
          assert parents[n] in Events(g, current) && Edge(g, current, parent);
          UniverseClosed(g, start, current, parent);
          label before:
          AddRoomAndCanonicalParents(g, start, parent);
          forall r | r in visited && r !in old@before(visited)
            ensures Reachable(g, current, r)
          {
            ReachesThrough(g, current, parent, r);
          }
        }
      }
      assert parents[..|parents|] == parents;
    }
  }

  /** On every finite graph, cycles included, the traversal ends, visits exactly the rooms reachable from
      the start, and lists each of them once, the start first. */
  method Collect(g: Graph, start: Room) returns (order: seq<Room>)
    ensures Distinct(order) && order != [] && order[0] == start
    ensures forall r :: r in order <==> Reachable(g, start, r)
  {
    var collector := new PackCollector();
    collector.AddRoomAndCanonicalParents(g, start, start);
    order := collector.order;
    assert ClosedUnder(g, collector.visited);
    forall r | Reachable(g, start, r)
      ensures r in collector.visited
    {
      var p :| Path(g, p) && p[0] == start && p[|p| - 1] == r;
      PathStaysIn(g, collector.visited, p);
    }
  }
}
