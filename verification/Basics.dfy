/** What several components share. */
module Basics {

  datatype Option<T> = None | Some(value: T)

  lemma Regroup<T>(a: seq<T>, b: seq<T>, c: seq<T>)
    ensures a + (b + c) == (a + b) + c
  {
  }

  lemma ConcatTail<T>(a: seq<T>, b: seq<T>)
    requires a != []
    ensures a + b != [] && (a + b)[0] == a[0] && (a + b)[1..] == a[1..] + b
  {
  }

  lemma SplitAfter<T>(s: seq<T>, i: nat)
    requires i < |s|
    ensures s == s[..i + 1] + s[i + 1..] && s[..i + 1] == s[..i] + [s[i]] && s[..i + 1][..i] == s[..i]
  {
  }

  // The paths of a nested value, seen from the map that holds it under `key`.
  function Under(key: string, inner: seq<seq<string>>): seq<seq<string>> {
    seq(|inner|, i requires 0 <= i < |inner| => [key] + inner[i])
  }

  lemma UnderAt(key: string, inner: seq<seq<string>>, path: seq<string>, i: nat)
    requires i < |inner|
    ensures var rest := Under(key, inner)[i];
      rest != [] && rest[0] == key && rest[1..] == inner[i] && path + rest == path + [key] + inner[i]
  {
  }

  lemma UnderHas(key: string, inner: seq<seq<string>>, rest: seq<string>)
    requires rest != [] && rest[0] == key && rest[1..] in inner
    ensures rest in Under(key, inner)
  {
    var i :| 0 <= i < |inner| && inner[i] == rest[1..];
    assert Under(key, inner)[i] == [key] + rest[1..] == rest;
  }

  // `items` holds, once each, what `item` has to say of any path, and `at` names the paths.
  ghost predicate ListsAll<T>(items: seq<T>, at: seq<seq<string>>, item: seq<string> -> Option<T>) {
    && |at| == |items|
    && (forall i | 0 <= i < |at| :: item(at[i]) == Some(items[i]))
    && (forall i, j | 0 <= i < j < |at| :: at[i] != at[j])
    && (forall rest | item(rest).Some? :: rest in at)
  }

  lemma Listed<T>(items: seq<T>, at: seq<seq<string>>, item: seq<string> -> Option<T>, rest: seq<string>)
    returns (i: nat)
    requires ListsAll(items, at, item) && item(rest).Some?
    ensures i < |at| && at[i] == rest && items[i] == item(rest).value
  {
    i :| 0 <= i < |at| && at[i] == rest;
  }

  lemma ListNone<T>(item: seq<string> -> Option<T>)
    requires forall rest :: item(rest) == None
    ensures ListsAll([], [], item)
  {
  }

  lemma ListOne<T>(x: T, path: seq<string>, item: seq<string> -> Option<T>)
    requires item(path) == Some(x) && forall rest | item(rest).Some? :: rest == path
    ensures ListsAll([x], [path], item)
  {
    assert [path][0] == path;
  }

  // The same of the paths behind some of the keys.
  ghost function Within<T>(item: seq<string> -> Option<T>, keys: set<string>): seq<string> -> Option<T> {
    rest => if rest != [] && rest[0] in keys then item(rest) else None
  }

  lemma ListUnder<T>(items: seq<T>, inner: seq<seq<string>>, key: string,
                     below: seq<string> -> Option<T>, item: seq<string> -> Option<T>)
    requires ListsAll(items, inner, below) && forall rest :: item([key] + rest) == below(rest)
    ensures ListsAll(items, Under(key, inner), Within(item, {key}))
  {
    var under := Under(key, inner);
    forall i | 0 <= i < |under| ensures Within(item, {key})(under[i]) == Some(items[i]) {
      assert under[i] == [key] + inner[i];
    }
    forall i, j | 0 <= i < j < |under| ensures under[i] != under[j] {
      UnderAt(key, inner, [], i);
      UnderAt(key, inner, [], j);
    }
    forall rest | Within(item, {key})(rest).Some? ensures rest in under {
      assert rest == [key] + rest[1..];
      UnderHas(key, inner, rest);
    }
  }

  lemma ListJoin<T>(items: seq<T>, at: seq<seq<string>>, keys: set<string>,
                    items': seq<T>, at': seq<seq<string>>, keys': set<string>, item: seq<string> -> Option<T>)
    requires ListsAll(items, at, Within(item, keys)) && ListsAll(items', at', Within(item, keys')) && keys !! keys'
    ensures ListsAll(items + items', at + at', Within(item, keys + keys'))
  {
    var more, all := at + at', items + items';
    forall i | 0 <= i < |more| ensures Within(item, keys + keys')(more[i]) == Some(all[i]) {
      if i >= |at| { assert more[i] == at'[i - |at|] && all[i] == items'[i - |at|]; }
    }
    forall i, j | 0 <= i < j < |more| ensures more[i] != more[j] {
      if i < |at| <= j {
        assert Within(item, keys)(at[i]).Some? && Within(item, keys')(at'[j - |at|]).Some?;
      }
    }
    forall rest | Within(item, keys + keys')(rest).Some? ensures rest in more {
      assert Within(item, keys)(rest).Some? || Within(item, keys')(rest).Some?;
    }
  }

  lemma ListWhole<T>(items: seq<T>, at: seq<seq<string>>, keys: set<string>, item: seq<string> -> Option<T>)
    requires ListsAll(items, at, Within(item, keys))
    requires forall rest | item(rest).Some? :: rest != [] && rest[0] in keys
    ensures ListsAll(items, at, item)
  {
    forall rest | item(rest).Some? ensures rest in at { assert Within(item, keys)(rest).Some?; }
    forall i | 0 <= i < |at| ensures item(at[i]) == Some(items[i]) { assert Within(item, keys)(at[i]).Some?; }
  }

  lemma FivePieces<T>(s: seq<T>, l: nat, h: nat)
    requires l < h < |s|
    ensures s == s[..l] + ([s[l]] + (s[l + 1..h] + ([s[h]] + s[h + 1..])))
  {
  }

  lemma FiveCounts<T>(a: seq<T>, x: T, m: seq<T>, y: T, z: seq<T>)
    ensures multiset(a + ([x] + (m + ([y] + z)))) == multiset(a + (m + z)) + multiset{x, y}
  {
    assert multiset(m + ([y] + z)) == multiset(m) + (multiset{y} + multiset(z));
    assert multiset([x] + (m + ([y] + z))) == multiset{x} + multiset(m + ([y] + z));
    assert multiset(a + (m + z)) == multiset(a) + (multiset(m) + multiset(z));
  }

  lemma OneCount<T>(a: seq<T>, x: T, z: seq<T>)
    ensures multiset(a + ([x] + z)) == multiset{x} + multiset(a + z)
  {
    assert multiset(a + ([x] + z)) == multiset(a) + (multiset{x} + multiset(z));
    assert multiset(a + z) == multiset(a) + multiset(z);
  }

  lemma SplitAround<T>(s: seq<T>, i: nat)
    requires i < |s|
    ensures s == s[..i] + ([s[i]] + s[i + 1..])
  {
  }

  lemma RemovedAt<T>(s: seq<T>, i: nat)
    requires i < |s|
    ensures multiset(s) == multiset{s[i]} + multiset(s[..i] + s[i + 1..])
  {
    SplitAround(s, i);
    OneCount(s[..i], s[i], s[i + 1..]);
  }

  lemma InsertedAt<T>(s: seq<T>, x: T, i: nat)
    requires i <= |s|
    ensures multiset(s[..i] + [x] + s[i..]) == multiset(s) + multiset{x}
  {
    assert s == s[..i] + s[i..];
    Regroup(s[..i], [x], s[i..]);
    OneCount(s[..i], x, s[i..]);
  }

  lemma TakenOne<T>(s: seq<T>, n: nat)
    requires n < |s|
    ensures multiset(s[..n + 1]) == multiset(s[..n]) + multiset{s[n]}
  {
    assert s[..n + 1] == s[..n] + [s[n]];
  }

  lemma SameRest<T>(x: T, a: seq<T>, b: seq<T>)
    requires multiset([x] + a) == multiset{x} + multiset(b)
    ensures multiset(a) == multiset(b)
  {
    assert multiset([x] + a) == multiset{x} + multiset(a);
    forall y ensures multiset(a)[y] == multiset(b)[y] {
      assert (multiset{x} + multiset(a))[y] == (multiset{x} + multiset(b))[y];
    }
  }

  // A list without two of its members; putting them at the end permutes it.
  function WithoutPair<T>(s: seq<T>, l: nat, h: nat): (r: seq<T>)
    requires l < h < |s|
    ensures |r| == |s| - 2
  {
    s[..l] + (s[l + 1..h] + s[h + 1..])
  }

  lemma WithoutPairPermutes<T>(s: seq<T>, l: nat, h: nat)
    requires l < h < |s|
    ensures multiset(s) == multiset(WithoutPair(s, l, h)) + multiset{s[l], s[h]}
  {
    var a, m, z := s[..l], s[l + 1..h], s[h + 1..];
    assert s == a + ([s[l]] + (m + ([s[h]] + z))) by { FivePieces(s, l, h); }
    assert WithoutPair(s, l, h) == a + (m + z);
    FiveCounts(a, s[l], m, s[h], z);
  }

  lemma {:induction false} TwoPlaces<T>(s: seq<T>, x: T) returns (i: nat, j: nat)
    requires multiset(s)[x] >= 2
    ensures i < j < |s| && s[i] == s[j] == x
  {
    assert s == [s[0]] + s[1..];
    if s[0] == x {
      assert x in multiset(s[1..]);
      var k :| 0 <= k < |s[1..]| && s[1..][k] == x;
      i, j := 0, k + 1;
    } else {
      i, j := TwoPlaces(s[1..], x);
      i, j := i + 1, j + 1;
    }
  }
}
