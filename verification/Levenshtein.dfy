/** Approximate substring matching (`src/Utils.cpp`, `utils::levenshtein_distance`).

    The rolling two-row loop is proved to return the least edit distance between the needle and any
    substring of the haystack. The recursive distance is itself pinned down by edit scripts, a
    definition that mentions no rows, no prefixes and no recursion on strings.
*/
module Levenshtein {

  function Min(a: int, b: int): int {
    if a <= b then a else b
  }

  function Init<T>(s: seq<T>): seq<T>
    requires s != []
  {
    s[..|s| - 1]
  }

  function Last<T>(s: seq<T>): T
    requires s != []
  {
    s[|s| - 1]
  }

  // ----- Edit scripts: what a distance means -----

  datatype Edit = Keep(c: char) | Replace(removed: char, added: char) | Insert(c: char) | Delete(c: char)

  function Removed(e: Edit): string {
    match e
    case Keep(c) => [c]
    case Replace(c, _) => [c]
    case Insert(_) => ""
    case Delete(c) => [c]
  }

  function Added(e: Edit): string {
    match e
    case Keep(c) => [c]
    case Replace(_, c) => [c]
    case Insert(c) => [c]
    case Delete(_) => ""
  }

  function Source(script: seq<Edit>): string {
    if script == [] then "" else Source(Init(script)) + Removed(Last(script))
  }

  function Target(script: seq<Edit>): string {
    if script == [] then "" else Target(Init(script)) + Added(Last(script))
  }

  function Cost(script: seq<Edit>): nat {
    if script == [] then 0 else Cost(Init(script)) + if Last(script).Keep? then 0 else 1
  }

  // ----- The recursive distance -----

  function Distance(a: string, b: string): nat
    decreases |a| + |b|
  {
    if a == "" then |b|
    else if b == "" then |a|
    else
      Min(Distance(Init(a), b) + 1,
          Min(Distance(a, Init(b)) + 1,
              Distance(Init(a), Init(b)) + if Last(a) != Last(b) then 1 else 0))
  }

  lemma DistanceStep(a: string, c: char, b: string, d: char)
    ensures Distance(a + [c], b + [d]) ==
            Min(Distance(a, b + [d]) + 1,
                Min(Distance(a + [c], b) + 1, Distance(a, b) + if c != d then 1 else 0))
  {
    assert Init(a + [c]) == a && Init(b + [d]) == b;
  }

  lemma DistanceFromEmpty(a: string)
    ensures Distance("", a) == |a| && Distance(a, "") == |a|
  {
  }

  lemma OneMoreEdit(a: string, b: string, e: Edit)
    ensures Distance(a + Removed(e), b + Added(e)) <= Distance(a, b) + if e.Keep? then 0 else 1
  {
    hide Distance;
    DistanceFromEmpty(a + Removed(e));
    DistanceFromEmpty(b + Added(e));
    DistanceFromEmpty(a);
    DistanceFromEmpty(b);
    match e
    case Keep(c) => DistanceStep(a, c, b, c);
    case Replace(c, d) => DistanceStep(a, c, b, d);
    case Insert(c) =>
      assert a + "" == a;
      if a != "" {
        DistanceStep(Init(a), Last(a), b, c);
        assert Init(a) + [Last(a)] == a;
      }
    case Delete(c) =>
      assert b + "" == b;
      if b != "" {
        DistanceStep(a, c, Init(b), Last(b));
        assert Init(b) + [Last(b)] == b;
      }
  }

  /** No script that turns its source into its target costs less than the distance between them. */
  lemma {:induction false} ScriptCostsAtLeastDistance(script: seq<Edit>)
    ensures Distance(Source(script), Target(script)) <= Cost(script)
  {
    if script != [] {
      ScriptCostsAtLeastDistance(Init(script));
      OneMoreEdit(Source(Init(script)), Target(Init(script)), Last(script));
    }
  }

  /** The last edit of a cheapest script, and the strings it leaves to the rest of the script. */
  lemma CheapestLast(a: string, b: string) returns (a': string, b': string, e: Edit)
    requires a != "" || b != ""
    ensures a' + Removed(e) == a && b' + Added(e) == b && |a'| + |b'| < |a| + |b|
    ensures Distance(a, b) == Distance(a', b') + if e.Keep? then 0 else 1
  {
    hide Distance;
    DistanceFromEmpty(a);
    DistanceFromEmpty(b);
    if a == "" {
      a', b', e := a, Init(b), Insert(Last(b));
      DistanceFromEmpty(b');
    } else if b == "" {
      a', b', e := Init(a), b, Delete(Last(a));
      DistanceFromEmpty(a');
    } else {
      DistanceStep(Init(a), Last(a), Init(b), Last(b));
      assert Init(a) + [Last(a)] == a && Init(b) + [Last(b)] == b;
      if Distance(a, b) == Distance(a, Init(b)) + 1 {
        a', b', e := a, Init(b), Insert(Last(b));
      } else if Distance(a, b) == Distance(Init(a), b) + 1 {
        a', b', e := Init(a), b, Delete(Last(a));
      } else {
        a', b' := Init(a), Init(b);
        e := if Last(a) == Last(b) then Keep(Last(a)) else Replace(Last(a), Last(b));
      }
    }
  }

  /** Some script attains the distance. */
  lemma {:induction false} CheapestScript(a: string, b: string) returns (script: seq<Edit>)
    ensures Source(script) == a && Target(script) == b && Cost(script) == Distance(a, b)
    decreases |a| + |b|
  {
    if a == "" && b == "" {
      script := [];
    } else {
      var a', b', e := CheapestLast(a, b);
      var rest := CheapestScript(a', b');
      script := rest + [e];
      assert Init(script) == rest;
    }
  }

  // ----- Best match ending at a column, and best match anywhere -----

  ghost predicate BestEndingAt(needle: string, hay: string, j: nat, v: int)
    requires j <= |hay|
  {
    && (exists k :: 0 <= k <= j && v == Distance(needle, hay[k..j]))
    && (forall k :: 0 <= k <= j ==> v <= Distance(needle, hay[k..j]))
  }

  /** `v` is the least distance between `needle` and a substring of `hay`. */
  ghost predicate BestSubstring(needle: string, hay: string, v: int) {
    && (exists k, j :: 0 <= k <= j <= |hay| && v == Distance(needle, hay[k..j]))
    && (forall k, j :: 0 <= k <= j <= |hay| ==> v <= Distance(needle, hay[k..j]))
  }

  /** One cell of the table from its three neighbours. */
  lemma BestCell(needle: string, c: char, hay: string, j: nat, up: int, left: int, diagonal: int)
    requires j < |hay|
    requires BestEndingAt(needle, hay, j + 1, up)
    requires BestEndingAt(needle + [c], hay, j, left)
    requires BestEndingAt(needle, hay, j, diagonal)
    ensures BestEndingAt(needle + [c], hay, j + 1,
                         Min(up + 1, Min(left + 1, diagonal + if c != hay[j] then 1 else 0)))
  {
    hide Distance;
    var longer := needle + [c];
    var step := if c != hay[j] then 1 else 0;
    var v := Min(up + 1, Min(left + 1, diagonal + step));
    forall k {:trigger hay[k..j + 1]} | 0 <= k <= j
      ensures Distance(longer, hay[k..j + 1]) ==
              Min(Distance(needle, hay[k..j + 1]) + 1,
                  Min(Distance(longer, hay[k..j]) + 1, Distance(needle, hay[k..j]) + step))
    {
      DistanceStep(needle, c, hay[k..j], hay[j]);
      assert hay[k..j] + [hay[j]] == hay[k..j + 1];
    }
    EmptyEnd(needle, c, hay, j + 1);
    forall k {:trigger hay[k..j + 1]} | 0 <= k <= j + 1
      ensures v <= Distance(longer, hay[k..j + 1])
    {
      assert up <= Distance(needle, hay[k..j + 1]);
    }
    var w :| 0 <= w <= j + 1 && up == Distance(needle, hay[w..j + 1]);
    var x :| 0 <= x <= j && left == Distance(longer, hay[x..j]);
    var y :| 0 <= y <= j && diagonal == Distance(needle, hay[y..j]);
    var best := if v == up + 1 then w else if v == left + 1 then x else y;
    assert v == Distance(longer, hay[best..j + 1]);
  }

  lemma EmptyEnd(needle: string, c: char, hay: string, j: nat)
    requires j <= |hay|
    ensures Distance(needle + [c], hay[j..j]) == Distance(needle, hay[j..j]) + 1
  {
    assert hay[j..j] == "";
  }

  ghost predicate RowIsBest(needle: string, hay: string, row: seq<int>, n: nat)
    requires n <= |hay| + 1
  {
    |row| == n && forall j :: 0 <= j < n ==> BestEndingAt(needle, hay, j, row[j])
  }

  lemma FirstRow(hay: string, row: seq<int>)
    requires |row| == |hay| + 1 && forall j :: 0 <= j < |row| ==> row[j] == 0
    ensures RowIsBest("", hay, row, |hay| + 1)
  {
    forall j | 0 <= j < |row|
      ensures BestEndingAt("", hay, j, row[j])
    {
      assert hay[j..j] == "";
    }
  }

  lemma FirstColumn(needle: string, hay: string)
    ensures BestEndingAt(needle, hay, 0, |needle|)
  {
    assert hay[0..0] == "";
  }

  /** For a one-character needle the best substring is free when the character occurs, and costs one
      (the empty substring) when it does not. */
  lemma OneCharacter(needle: string, hay: string, v: int)
    requires |needle| == 1
    requires BestSubstring(needle, hay, v)
    ensures v == if needle[0] in hay then 0 else 1
  {
    assert hay[0..0] == "" && Distance(needle, hay[0..0]) == 1;
    if needle[0] in hay {
      var i :| 0 <= i < |hay| && hay[i] == needle[0];
      assert hay[i..i + 1] == needle;
      assert Init(needle) == "";
      assert Distance(needle, hay[i..i + 1]) == 0;
    }
  }

  /** Position of the first occurrence, or -1: what `(int)s2.find(s1)` gives for one character. */
  method Find(c: char, hay: string) returns (r: int)
    ensures -1 <= r < |hay|
    ensures r >= 0 ==> hay[r] == c && c !in hay[..r]
    ensures r == -1 <==> c !in hay
  {
    r := 0;
    while r < |hay|
      invariant 0 <= r <= |hay| && c !in hay[..r]
    {
      if hay[r] == c {
        return;
      }
      r := r + 1;
    }
    r := -1;
  }

  method MinElement(row: seq<int>) returns (m: int)
    requires row != []
    ensures m in row && forall j :: 0 <= j < |row| ==> m <= row[j]
  {
    m := row[0];
    for j := 1 to |row|
      invariant m in row && forall i :: 0 <= i < j ==> m <= row[i]
    {
      if row[j] < m {
        m := row[j];
      }
    }
  }

  /** `levenshtein_distance`: the result is the least substring distance exactly when the haystack is
      not empty and the needle either is not a single character or starts the haystack. For a single
      character the source returns a position instead of a distance. */
  method LevenshteinDistance(s1: string, s2: string) returns (r: int)
    ensures s2 == "" ==> r == -1
    ensures s2 != "" && |s1| == 1 ==>
              if s1[0] in s2 then 0 <= r < |s2| && s2[r] == s1[0] && s1[0] !in s2[..r] else r == -1
    ensures BestSubstring(s1, s2, r) <==> s2 != "" && (|s1| != 1 || s2[0] == s1[0])
  {
    var nlen, hlen := |s1|, |s2|;
    if hlen == 0 {
      return -1;
    }
    if nlen == 1 {
      r := Find(s1[0], s2);
      if s2[0] == s1[0] {
        OneCharacterFound(s1, s2);
      } else if BestSubstring(s1, s2, r) {
        OneCharacter(s1, s2, r);
      }
      return;
    }

    var row1 := seq(hlen + 1, _ => 0);
    FirstRow(s2, row1);
    assert s1[..0] == "";
    for i := 0 to nlen
      invariant RowIsBest(s1[..i], s2, row1, hlen + 1)
    {
      var row2 := [i + 1];
      FirstColumn(s1[..i + 1], s2);
      assert s1[..i + 1] == s1[..i] + [s1[i]];
      for j := 0 to hlen
        invariant RowIsBest(s1[..i + 1], s2, row2, j + 1)
      {
        var cost := if s1[i] != s2[j] then 1 else 0;
        BestCell(s1[..i], s1[i], s2, j, row1[j + 1], row2[j], row1[j]);
        row2 := row2 + [Min(row1[j + 1] + 1, Min(row2[j] + 1, row1[j] + cost))];
      }
      row1, row2 := row2, row1;
    }
    assert s1[..nlen] == s1;
    r := MinElement(row1);
    BestOfRow(s1, s2, row1, r);
  }

  lemma OneCharacterFound(needle: string, hay: string)
    requires |needle| == 1 && hay != "" && hay[0] == needle[0]
    ensures BestSubstring(needle, hay, 0)
  {
    assert hay[0..1] == needle && Init(needle) == "";
    assert Distance(needle, hay[0..1]) == 0;
  }

  lemma BestOfRow(needle: string, hay: string, row: seq<int>, m: int)
    requires RowIsBest(needle, hay, row, |hay| + 1)
    requires m in row && forall j :: 0 <= j < |row| ==> m <= row[j]
    ensures BestSubstring(needle, hay, m)
  {
    var j :| 0 <= j < |row| && row[j] == m;
    assert BestEndingAt(needle, hay, j, row[j]);
    forall k, i | 0 <= k <= i <= |hay|
      ensures m <= Distance(needle, hay[k..i])
    {
      assert BestEndingAt(needle, hay, i, row[i]);
    }
  }
}
