/** File names in the order JavaScript's default sort puts them, by character. */
module Names {

  datatype Option<+T> = None | Some(value: T)

  /** a comes strictly before b. */
  predicate Less(a: string, b: string) {
    b != "" && (a == "" || a[0] < b[0] || (a[0] == b[0] && Less(a[1..], b[1..])))
  }

  lemma {:induction false} LessTransitive(a: string, b: string, c: string)
    requires Less(a, b) && Less(b, c)
    ensures Less(a, c)
  {
    if a != "" && a[0] == b[0] == c[0] {
      LessTransitive(a[1..], b[1..], c[1..]);
    }
  }

  lemma {:induction false} LessTotal(a: string, b: string)
    ensures a == b || Less(a, b) || Less(b, a)
    ensures !(Less(a, b) && Less(b, a)) && !Less(a, a)
  {
    if a != "" && b != "" {
      LessTotal(a[1..], b[1..]);
      LessTotal(a[1..], a[1..]);
      assert a == [a[0]] + a[1..] && b == [b[0]] + b[1..];
    } else if a != "" {
      LessTotal(a[1..], a[1..]);
    }
  }

  ghost predicate Ascending(names: seq<string>) {
    forall i, j :: 0 <= i < j < |names| ==> Less(names[i], names[j])
  }

  /** a and b agree up to k; there a ends and b goes on, or a has the smaller character. */
  predicate PrecedesAt(a: string, b: string, k: nat) {
    k <= |a| && k < |b| && a[..k] == b[..k] && (k == |a| || a[k] < b[k])
  }

  /** The first difference decides. */
  ghost predicate Precedes(a: string, b: string) { exists k: nat :: PrecedesAt(a, b, k) }

  ghost predicate InCharacterOrder(names: seq<string>) {
    forall i, j :: 0 <= i < j < |names| ==> Precedes(names[i], names[j])
  }

  lemma {:induction false} LessPrecedes(a: string, b: string) returns (k: nat)
    requires Less(a, b)
    ensures PrecedesAt(a, b, k)
  {
    if a == "" || a[0] < b[0] {
      k := 0;
    } else {
      var n := LessPrecedes(a[1..], b[1..]);
      k := n + 1;
      assert a == [a[0]] + a[1..] && b == [b[0]] + b[1..];
      assert a[..k] == [a[0]] + a[1..][..n] && b[..k] == [b[0]] + b[1..][..n];
    }
  }

  lemma {:induction false} PrecedesLess(a: string, b: string, k: nat)
    requires PrecedesAt(a, b, k)
    ensures Less(a, b)
  {
    if k > 0 {
      assert a[0] == a[..k][0] == b[..k][0] == b[0];
      assert a[1..][..k - 1] == a[..k][1..] == b[..k][1..] == b[1..][..k - 1];
      PrecedesLess(a[1..], b[1..], k - 1);
    }
  }

  /** The order is that of the first character in which two names differ, a name going before any it begins. */
  lemma LessIsByCharacter(a: string, b: string)
    ensures Less(a, b) <==> Precedes(a, b)
  {
    if Less(a, b) {
      var k := LessPrecedes(a, b);
    } else if k: nat :| PrecedesAt(a, b, k) {
      PrecedesLess(a, b, k);
    }
  }

  lemma AscendingByCharacter(names: seq<string>)
    ensures Ascending(names) <==> InCharacterOrder(names)
  {
    forall i, j | 0 <= i < j < |names| ensures Less(names[i], names[j]) <==> Precedes(names[i], names[j]) {
      LessIsByCharacter(names[i], names[j]);
    }
  }

  /** names lists exactly the members of s, each once, in order. */
  ghost predicate Lists(names: seq<string>, s: set<string>) {
    Ascending(names) && forall x :: x in names <==> x in s
  }

  /** x put in its place among names already in order. */
  function Insert(x: string, names: seq<string>): (r: seq<string>)
    requires Ascending(names) && x !in names
    ensures Ascending(r) && forall y :: y in r <==> y == x || y in names
  {
    if names == [] then [x]
    else
      LessTotal(x, names[0]);
      if Less(x, names[0]) then
        assert forall j :: 0 <= j < |names| ==> Less(x, names[j]) by {
          forall j | 0 < j < |names| ensures Less(x, names[j]) {
            LessTransitive(x, names[0], names[j]);
          }
        }
        [x] + names
      else
        var rest := Insert(x, names[1..]);
        assert forall y :: y in names <==> y == names[0] || y in names[1..];
        assert forall y :: y in rest ==> Less(names[0], y) by {
          forall y | y in rest ensures Less(names[0], y) {
            if y != x {
              var k :| 0 <= k < |names[1..]| && names[1..][k] == y;
              assert names[k + 1] == y;
            }
          }
        }
        [names[0]] + rest
  }

  /** The members of s in order. */
  ghost function Sorted(s: set<string>): (r: seq<string>)
    ensures Lists(r, s)
  {
    if s == {} then []
    else
      var x :| x in s;
      Insert(x, Sorted(s - {x}))
  }

  /** An in-order listing is determined by its members, whatever order they came in. */
  lemma {:induction false} ListingUnique(a: seq<string>, b: seq<string>, s: set<string>)
    requires Lists(a, s) && Lists(b, s)
    ensures a == b
  {
    assert a != [] ==> a[0] in a;
    assert b != [] ==> b[0] in b;
    if a != [] && b != [] {
      if a[0] != b[0] {
        assert a[0] in b && b[0] in a;
        var i :| 0 <= i < |a| && a[i] == b[0];
        var j :| 0 <= j < |b| && b[j] == a[0];
        LessTotal(a[0], b[0]);
        assert false;
      }
      forall x
        ensures x in a[1..] <==> x in s - {a[0]}
        ensures x in b[1..] <==> x in s - {a[0]}
      {
        ListingTail(a, x);
        ListingTail(b, x);
      }
      ListingUnique(a[1..], b[1..], s - {a[0]});
      assert a == [a[0]] + a[1..] && b == [b[0]] + b[1..];
    }
  }

  lemma ListingTail(a: seq<string>, x: string)
    requires a != [] && Ascending(a)
    ensures x in a[1..] <==> x in a && x != a[0]
  {
    assert a == [a[0]] + a[1..];
    if x == a[0] && x in a[1..] {
      var k :| 0 <= k < |a[1..]| && a[1..][k] == x;
      assert Less(a[0], a[k + 1]);
      LessTotal(x, x);
      assert false;
    }
  }

  /** The sort the scripts call on a directory listing or on a Map's keys. */
  method Sort(names: seq<string>) returns (r: seq<string>)
    requires forall i, j :: 0 <= i < j < |names| ==> names[i] != names[j]
    ensures r == Sorted(set x | x in names) && InCharacterOrder(r)
  {
    r := [];
    for i := 0 to |names|
      invariant Lists(r, set x | x in names[..i])
    {
      assert names[..i + 1] == names[..i] + [names[i]];
      r := Insert(names[i], r);
    }
    assert names[..|names|] == names;
    ListingUnique(r, Sorted(set x | x in names), set x | x in names);
    AscendingByCharacter(r);
  }
}
