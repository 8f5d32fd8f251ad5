/** The order of `std::string`, which `std::map` iterates by and start glare is resolved with. */
module Order {

  predicate Less(a: string, b: string) {
    b != "" && (a == "" || a[0] < b[0] || (a[0] == b[0] && Less(a[1..], b[1..])))
  }

  lemma {:induction false} LessIrreflexive(a: string)
    ensures !Less(a, a)
  {
    if a != "" {
      LessIrreflexive(a[1..]);
    }
  }

  lemma {:induction false} LessTransitive(a: string, b: string, c: string)
    requires Less(a, b) && Less(b, c)
    ensures Less(a, c)
  {
    if a != "" && a[0] == b[0] && b[0] == c[0] {
      LessTransitive(a[1..], b[1..], c[1..]);
    }
  }

  lemma {:induction false} LessTotal(a: string, b: string)
    ensures a == b || Less(a, b) || Less(b, a)
  {
    if a != "" && b != "" && a[0] == b[0] {
      LessTotal(a[1..], b[1..]);
      assert a == [a[0]] + a[1..] && b == [b[0]] + b[1..];
    }
  }

  lemma LessAsymmetric(a: string, b: string)
    requires Less(a, b)
    ensures !Less(b, a) && a != b
  {
    LessIrreflexive(a);
    if Less(b, a) {
      LessTransitive(a, b, a);
    }
  }

  lemma {:induction false} SmallestExists(s: set<string>) returns (x: string)
    requires s != {}
    ensures x in s && forall y :: y in s && y != x ==> Less(x, y)
  {
    x :| x in s;
    if s != {x} {
      var z := SmallestExists(s - {x});
      LessTotal(x, z);
      forall y | y in s && y != x && y != z && Less(x, z)
        ensures Less(x, y)
      {
        LessTransitive(x, z, y);
      }
      if !Less(x, z) {
        x := z;
      }
    }
  }

  function Smallest(s: set<string>): (x: string)
    requires s != {}
    ensures x in s && forall y :: y in s && y != x ==> Less(x, y)
  {
    assert exists x :: x in s && forall y :: y in s && y != x ==> Less(x, y) by {
      var x := SmallestExists(s);
    }
    assert forall x, y :: x in s && y in s && Less(x, y) ==> !Less(y, x) by {
      forall x, y | Less(x, y)
        ensures !Less(y, x)
      {
        LessAsymmetric(x, y);
      }
    }
    var x :| x in s && forall y :: y in s && y != x ==> Less(x, y);
    x
  }

  ghost predicate Sorted(keys: seq<string>) {
    forall i, j :: 0 <= i < j < |keys| ==> Less(keys[i], keys[j])
  }

  /** The keys of a `std::map`, in iteration order. */
  function SortedKeys(s: set<string>): (keys: seq<string>)
    ensures forall x :: x in keys <==> x in s
    ensures Sorted(keys)
    ensures s != {} ==> keys != []
  {
    if s == {} then [] else
    var x := Smallest(s);
    var rest := SortedKeys(s - {x});
    assert forall y :: y in [x] + rest <==> y == x || y in rest;
    assert forall i :: 0 <= i < |rest| ==> rest[i] in rest;
    [x] + rest
  }
}
