/** Go's string order and the sorted key lists the agent iterates over. */
module Strings {
  import opened Basics

  // Go compares strings byte by byte; UTF-8 keeps the order of code points.
  predicate Less(a: string, b: string) {
    b != [] && (a == [] || a[0] < b[0] || (a[0] == b[0] && Less(a[1..], b[1..])))
  }

  // The strings part at `i`: there the first one ends, or has the smaller character.
  predicate PartAt(a: string, b: string, i: nat) {
    i < |b| && i <= |a| && a[..i] == b[..i] && (i == |a| || a[i] < b[i])
  }

  lemma {:induction false} LessIffPart(a: string, b: string)
    ensures Less(a, b) <==> exists i: nat :: PartAt(a, b, i)
  {
    if b == [] {
    } else if a == [] || a[0] < b[0] {
      assert PartAt(a, b, 0);
    } else if a[0] > b[0] {
      forall i: nat ensures !PartAt(a, b, i) {
        if 0 < i <= |a| && i <= |b| { assert a[..i][0] == a[0] && b[..i][0] == b[0]; }
      }
    } else {
      LessIffPart(a[1..], b[1..]);
      forall i: nat ensures PartAt(a, b, i + 1) <==> PartAt(a[1..], b[1..], i) { PartBelow(a, b, i); }
      assert !PartAt(a, b, 0);
      if Less(a, b) {
        var i: nat :| PartAt(a[1..], b[1..], i);
        assert PartAt(a, b, i + 1);
      }
      if exists i: nat :: PartAt(a, b, i) {
        var i: nat :| PartAt(a, b, i);
        assert PartAt(a[1..], b[1..], i - 1);
      }
    }
  }

  lemma PartBelow(a: string, b: string, i: nat)
    requires a != [] && b != [] && a[0] == b[0]
    ensures PartAt(a, b, i + 1) <==> PartAt(a[1..], b[1..], i)
  {
    if i < |a| && i < |b| {
      assert a[..i + 1] == [a[0]] + a[1..][..i] && b[..i + 1] == [b[0]] + b[1..][..i];
      assert a[1..][..i] == a[..i + 1][1..] && b[1..][..i] == b[..i + 1][1..];
    }
  }

  // Strings joined by a character below all of theirs compare part by part.
  lemma {:induction false} LessInParts(a: string, b: string, x: string, y: string)
    requires '\0' !in a && '\0' !in b
    ensures Less(a + ("\0" + x), b + ("\0" + y)) <==> Less(a, b) || (a == b && Less(x, y))
  {
    var l, r := a + ("\0" + x), b + ("\0" + y);
    if a == [] || b == [] {
      assert a == [] ==> l == "\0" + x && l[1..] == x;
      assert b == [] ==> r == "\0" + y && r[1..] == y;
      assert a != [] ==> l[0] == a[0] && a[0] in a;
      assert b != [] ==> r[0] == b[0] && b[0] in b;
    } else {
      assert l[1..] == a[1..] + ("\0" + x) && r[1..] == b[1..] + ("\0" + y);
      assert a == [a[0]] + a[1..] && b == [b[0]] + b[1..];
      LessInParts(a[1..], b[1..], x, y);
    }
  }

  lemma {:induction false} LessTrichotomy(a: string, b: string)
    ensures Less(a, b) || Less(b, a) || a == b
    ensures Less(a, b) ==> !Less(b, a) && a != b
  {
    if a == [] || b == [] || a[0] != b[0] {
    } else {
      LessTrichotomy(a[1..], b[1..]);
      assert a == [a[0]] + a[1..] && b == [b[0]] + b[1..];
    }
  }

  lemma {:induction false} LessTransitive(a: string, b: string, c: string)
    requires Less(a, b) && Less(b, c)
    ensures Less(a, c)
  {
    if a == [] || a[0] != b[0] || b[0] != c[0] {
    } else {
      LessTransitive(a[1..], b[1..], c[1..]);
    }
  }

  ghost predicate Ascending(r: seq<string>) {
    forall i, j | 0 <= i < j < |r| :: Less(r[i], r[j])
  }

  // `r` lists the members of `s` in strictly ascending order.
  ghost predicate Lists(r: seq<string>, s: set<string>) {
    Ascending(r) && forall x :: x in r <==> x in s
  }

  // There is only one such list, so a sorted result hides the map order it came from.
  lemma {:induction false} ListsUnique(r: seq<string>, q: seq<string>, s: set<string>)
    requires Lists(r, s) && Lists(q, s)
    ensures r == q
    decreases |r|
  {
    assert |q| == 0 || q[0] in r;
    if r == [] {
    } else {
      assert r[0] in q;
      var i :| 0 <= i < |q| && q[i] == r[0];
      var j :| 0 <= j < |r| && r[j] == q[0];
      LessTrichotomy(r[0], q[0]);
      assert r[0] == q[0];
      forall x ensures x in r[1..] <==> x in s - {r[0]} { TailMember(r, s, x); }
      forall x ensures x in q[1..] <==> x in s - {r[0]} { TailMember(q, s, x); }
      ListsUnique(r[1..], q[1..], s - {r[0]});
    }
  }

  lemma TailMember(r: seq<string>, s: set<string>, x: string)
    requires Lists(r, s) && r != []
    ensures x in r[1..] <==> x in s - {r[0]}
  {
    LessTrichotomy(r[0], r[0]);
    if x in r && x != r[0] {
      var i :| 0 <= i < |r| && r[i] == x;
      assert r[1..][i - 1] == x;
    }
    if x in r[1..] {
      var i :| 0 <= i < |r[1..]| && r[1..][i] == x;
      assert r[i + 1] == x && Less(r[0], r[i + 1]);
      LessTrichotomy(r[0], x);
    }
  }

  lemma TakeNext(r: seq<string>, i: nat)
    requires i < |r|
    ensures forall k :: k in r[..i + 1] <==> k in r[..i] || k == r[i]
  {
    assert r[..i + 1] == r[..i] + [r[i]];
  }

  lemma TakeAll(r: seq<string>)
    ensures r[..|r|] == r
  {
  }

  lemma NotAmongEarlier(r: seq<string>, i: nat)
    requires Ascending(r) && i < |r|
    ensures r[i] !in r[..i]
  {
    forall j | 0 <= j < i ensures r[j] != r[i] { LessTrichotomy(r[j], r[i]); }
  }

  // sort.Strings over the keys of a map that was ranged over in any order.
  method SortKeys(keys: set<string>) returns (r: seq<string>)
    ensures Lists(r, keys)
  {
    r := [];
    var rest := keys;
    while rest != {}
      invariant rest <= keys && Lists(r, keys - rest)
      decreases rest
    {
      var k :| k in rest;
      var i := 0;
      while i < |r| && Less(r[i], k)
        invariant 0 <= i <= |r|
        invariant forall j | 0 <= j < i :: Less(r[j], k)
      {
        i := i + 1;
      }
      InsertKeepsOrder(r, k, i);
      forall x ensures x in r[..i] + [k] + r[i..] <==> x in keys - (rest - {k}) {
        assert r == r[..i] + r[i..];
        assert x in r <==> x in r[..i] || x in r[i..];
        assert k in rest;
      }
      r := r[..i] + [k] + r[i..];
      rest := rest - {k};
    }
  }

  lemma InsertKeepsOrder(r: seq<string>, k: string, i: nat)
    requires Ascending(r) && k !in r && i <= |r|
    requires forall j | 0 <= j < i :: Less(r[j], k)
    requires i < |r| ==> !Less(r[i], k)
    ensures Ascending(r[..i] + [k] + r[i..])
  {
    forall j | i <= j < |r| ensures Less(k, r[j]) {
      LessTrichotomy(r[i], k);
      if i < j { LessTransitive(k, r[i], r[j]); }
    }
  }

  ghost predicate NonDescending(r: seq<string>) {
    forall i, j | 0 <= i < j < |r| :: !Less(r[j], r[i])
  }

  lemma InsertAmongTies(r: seq<string>, k: string, i: nat)
    requires NonDescending(r) && i <= |r|
    requires forall j | 0 <= j < i :: Less(r[j], k)
    requires i < |r| ==> !Less(r[i], k)
    ensures NonDescending(r[..i] + [k] + r[i..])
  {
    forall j | i <= j < |r| ensures !Less(r[j], k) {
      LessTrichotomy(r[i], r[j]);
      LessTrichotomy(r[i], k);
      LessTrichotomy(r[j], k);
      if Less(r[j], k) && Less(r[i], r[j]) { LessTransitive(r[i], r[j], k); }
    }
    forall j | 0 <= j < i ensures !Less(k, r[j]) { LessTrichotomy(r[j], k); }
  }

  // sort.Strings over a list.
  method SortList(s: seq<string>) returns (r: seq<string>)
    ensures NonDescending(r) && multiset(r) == multiset(s)
  {
    r := [];
    for n := 0 to |s|
      invariant NonDescending(r) && multiset(r) == multiset(s[..n])
    {
      var i := 0;
      while i < |r| && Less(r[i], s[n])
        invariant 0 <= i <= |r|
        invariant forall j | 0 <= j < i :: Less(r[j], s[n])
      {
        i := i + 1;
      }
      InsertAmongTies(r, s[n], i);
      InsertedAt(r, s[n], i);
      TakenOne(s, n);
      r := r[..i] + [s[n]] + r[i..];
    }
    assert s[..|s|] == s;
  }

  // Sorting leaves one list for each bag of strings.
  lemma {:induction false} SortedUnique(r: seq<string>, q: seq<string>)
    requires NonDescending(r) && NonDescending(q) && multiset(r) == multiset(q)
    ensures r == q
    decreases |r|
  {
    if r == [] {
      assert multiset(q) == multiset{} && q == [];
    } else {
      assert r[0] in multiset(q) && q != [];
      assert q[0] in multiset(r);
      var i :| 0 <= i < |q| && q[i] == r[0];
      var j :| 0 <= j < |r| && r[j] == q[0];
      LessTrichotomy(r[0], q[0]);
      assert r[0] == q[0];
      assert r == [r[0]] + r[1..] && q == [q[0]] + q[1..];
      SameRest(r[0], r[1..], q[1..]);
      SortedUnique(r[1..], q[1..]);
    }
  }
}
