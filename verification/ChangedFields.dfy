/** The field paths in which a resource update differs from the live object. */
module ChangedFields {
  import opened Basics
  import opened Json
  import opened JsonPointer
  import Strings

  // Reference definition: along `rest` both sides are maps and no key is skipped;
  // at its end the values differ and are not both maps.
  predicate Changed(d: Json, o: Json, path: seq<string>, rest: seq<string>)
    decreases |rest|
  {
    if rest == [] then d != o && !(d.Obj? && o.Obj?)
    else
      d.Obj? && o.Obj? && !Skipped(path, rest[0]) &&
      Changed(Get(d.fields, rest[0]), Get(o.fields, rest[0]), path + [rest[0]], rest[1..])
  }

  ghost predicate Unchanged(d: Json, o: Json, path: seq<string>) {
    forall rest :: !Changed(d, o, path, rest)
  }

  ghost function ChangeAt(d: Json, o: Json, path: seq<string>): seq<string> -> Option<string> {
    rest => if Changed(d, o, path, rest) && path + rest != [] then Some(Pointer(path + rest)) else None
  }

  // `at` names the token path, below `path`, of each collected pointer.
  ghost predicate Collects(fields: seq<string>, at: seq<seq<string>>, d: Json, o: Json, path: seq<string>) {
    ListsAll(fields, at, ChangeAt(d, o, path))
  }

  ghost predicate CollectsKeys(fields: seq<string>, at: seq<seq<string>>, d: Json, o: Json, path: seq<string>,
                               keys: set<string>)
  {
    ListsAll(fields, at, Within(ChangeAt(d, o, path), keys))
  }

  lemma {:induction false} SameUnchanged(x: Json, path: seq<string>, rest: seq<string>)
    ensures !Changed(x, x, path, rest)
    decreases |rest|
  {
    if rest == [] || !x.Obj? {
    } else {
      SameUnchanged(Get(x.fields, rest[0]), path + [rest[0]], rest[1..]);
    }
  }

  // collectResourceChangedFields, visiting the keys of both maps in sorted order.
  method CollectResourceChangedFields(desired: Json, observed: Json, path: string, ghost tokens: seq<string>)
    returns (fields: seq<string>, ghost at: seq<seq<string>>)
    requires path == Pointer(tokens)
    ensures Collects(fields, at, desired, observed, tokens)
    decreases if desired.Obj? && observed.Obj? then 1 else 0, desired, 1
  {
    fields, at := [], [];
    if desired == observed {
      NothingCollected(desired, tokens);
      return;
    }
    if desired.Obj? && observed.Obj? {
      fields, at := CollectKeys(desired, observed, path, tokens);
    } else if path != "" {
      fields, at := [path], [[]];
      LeafCollected(desired, observed, tokens);
    } else {
      LeafCollected(desired, observed, tokens);
    }
  }

  method CollectKeys(desired: Json, observed: Json, path: string, ghost tokens: seq<string>)
    returns (fields: seq<string>, ghost at: seq<seq<string>>)
    requires path == Pointer(tokens) && desired.Obj? && observed.Obj? && desired != observed
    ensures Collects(fields, at, desired, observed, tokens)
    decreases 1, desired, 0
  {
    fields, at := [], [];
    var keySet := desired.fields.Keys + observed.fields.Keys;
    var keys := KeptKeys(keySet, path, tokens);
    ghost var kept := set key | key in keySet && !Skipped(tokens, key);
    ghost var done: set<string> := {};
    for i := 0 to |keys|
      invariant forall k :: k in done <==> k in keys[..i]
      invariant CollectsKeys(fields, at, desired, observed, tokens, done)
    {
      var key := keys[i];
      Strings.NotAmongEarlier(keys, i);
      PointerAppend(tokens, key);
      var nested, inner := CollectResourceChangedFields(
        Get(desired.fields, key), Get(observed.fields, key), path + "/" + Escape(key), tokens + [key]);
      assert key in kept;
      AppendKey(fields, at, desired, observed, tokens, done, key, nested, inner);
      fields, at, done := fields + nested, at + Under(key, inner), done + {key};
      Strings.TakeNext(keys, i);
    }
    Strings.TakeAll(keys);
    AllKeysCollected(fields, at, desired, observed, tokens, done);
  }

  // The keys that are compared, in ascending order.
  method KeptKeys(keySet: set<string>, path: string, ghost tokens: seq<string>) returns (keys: seq<string>)
    requires path == Pointer(tokens)
    ensures Strings.Lists(keys, set key | key in keySet && !Skipped(tokens, key))
  {
    var kept := set key | key in keySet && !(key == "status" || (path == "/metadata" && ServerField(key)));
    AtMetadata(tokens);
    keys := Strings.SortKeys(kept);
    assert kept == set key | key in keySet && !Skipped(tokens, key);
  }

  lemma NothingCollected(x: Json, path: seq<string>)
    ensures Collects([], [], x, x, path)
  {
    var item := ChangeAt(x, x, path);
    forall rest ensures item(rest) == None { SameUnchanged(x, path, rest); }
    ListNone(item);
  }

  lemma LeafCollected(d: Json, o: Json, path: seq<string>)
    requires d != o && !(d.Obj? && o.Obj?)
    ensures path != [] ==> Collects([Pointer(path)], [[]], d, o, path)
    ensures path == [] ==> Collects([], [], d, o, path)
  {
    var item := ChangeAt(d, o, path);
    assert path + [] == path;
    forall rest | item(rest).Some? ensures rest == [] && path != [] { assert Changed(d, o, path, rest); }
    if path == [] { ListNone(item); } else { ListOne(Pointer(path), [], item); }
  }

  lemma AppendKey(fields: seq<string>, at: seq<seq<string>>, d: Json, o: Json, path: seq<string>, keys: set<string>,
                  key: string, nested: seq<string>, inner: seq<seq<string>>)
    requires CollectsKeys(fields, at, d, o, path, keys) && key !in keys
    requires d.Obj? && o.Obj? && !Skipped(path, key)
    requires Collects(nested, inner, Get(d.fields, key), Get(o.fields, key), path + [key])
    ensures CollectsKeys(fields + nested, at + Under(key, inner), d, o, path, keys + {key})
  {
    var below := ChangeAt(Get(d.fields, key), Get(o.fields, key), path + [key]);
    forall rest ensures ChangeAt(d, o, path)([key] + rest) == below(rest) {
      assert ([key] + rest)[1..] == rest && path + ([key] + rest) == path + [key] + rest;
    }
    ListUnder(nested, inner, key, below, ChangeAt(d, o, path));
    ListJoin(fields, at, keys, nested, Under(key, inner), {key}, ChangeAt(d, o, path));
  }

  lemma AllKeysCollected(fields: seq<string>, at: seq<seq<string>>, d: Json, o: Json, path: seq<string>,
                         keys: set<string>)
    requires d.Obj? && o.Obj? && d != o
    requires CollectsKeys(fields, at, d, o, path, keys)
    requires forall k | k in d.fields.Keys + o.fields.Keys && !Skipped(path, k) :: k in keys
    ensures Collects(fields, at, d, o, path)
  {
    forall rest | ChangeAt(d, o, path)(rest).Some? ensures rest != [] && rest[0] in keys {
      if rest[0] !in d.fields.Keys + o.fields.Keys { SameUnchanged(Null, path + [rest[0]], rest[1..]); }
    }
    ListWhole(fields, at, keys, ChangeAt(d, o, path));
  }

  ghost predicate ChangedPointer(d: Json, o: Json, p: string) {
    exists rest :: Changed(d, o, [], rest) && rest != [] && p == Pointer(rest)
  }

  // What the analysis lists: every changed pointer once, in ascending order.
  ghost predicate Lists(r: seq<string>, d: Json, o: Json) {
    Strings.Ascending(r) && forall p :: p in r <==> ChangedPointer(d, o, p)
  }

  // The changed fields of analyzeResourceUpdate; nothing is collected twice, so sorting loses nothing.
  method SortedChangedFields(live: map<string, Json>, desired: map<string, Json>) returns (changed: seq<string>)
    ensures Lists(changed, Obj(desired), Obj(live))
  {
    var d, o := Obj(desired), Obj(live);
    var fields, at := CollectResourceChangedFields(d, o, "", []);
    NoDuplicates(fields, at, d, o);
    changed := Strings.SortKeys(set f | f in fields);
    forall p ensures p in changed <==> ChangedPointer(d, o, p) { CollectedAreChanged(fields, at, d, o, p); }
  }

  lemma CollectedAreChanged(fields: seq<string>, at: seq<seq<string>>, d: Json, o: Json, p: string)
    requires Collects(fields, at, d, o, [])
    ensures p in fields <==> ChangedPointer(d, o, p)
  {
    if p in fields {
      var i :| 0 <= i < |fields| && fields[i] == p;
      assert [] + at[i] == at[i];
    }
    if ChangedPointer(d, o, p) {
      var rest :| Changed(d, o, [], rest) && rest != [] && p == Pointer(rest);
      assert [] + rest == rest;
      var i := Listed(fields, at, ChangeAt(d, o, []), rest);
    }
  }

  lemma NoDuplicates(fields: seq<string>, at: seq<seq<string>>, d: Json, o: Json)
    requires Collects(fields, at, d, o, [])
    ensures forall i, j | 0 <= i < j < |fields| :: fields[i] != fields[j]
  {
    forall i, j | 0 <= i < j < |fields| ensures fields[i] != fields[j] {
      assert [] + at[i] == at[i] && [] + at[j] == at[j];
      if fields[i] == fields[j] { PointerInjective(at[i], at[j]); }
    }
  }

  // ---------- what an empty analysis means ----------

  // Equal up to status, server metadata, and null against absent.
  predicate Equivalent(d: Json, o: Json, path: seq<string>)
    decreases d
  {
    d == o ||
    (d.Obj? && o.Obj? && forall k | k in d.fields.Keys + o.fields.Keys && !Skipped(path, k) ::
       if k in d.fields && k in o.fields then Equivalent(d.fields[k], o.fields[k], path + [k])
       else Get(d.fields, k) == Get(o.fields, k))
  }

  lemma {:induction false} UnchangedIffEquivalent(d: Json, o: Json, path: seq<string>)
    ensures Unchanged(d, o, path) <==> Equivalent(d, o, path)
    decreases d
  {
    if d == o {
      forall rest ensures !Changed(d, o, path, rest) { SameUnchanged(d, path, rest); }
    } else if d.Obj? && o.Obj? {
      forall k | k in d.fields.Keys + o.fields.Keys && !Skipped(path, k)
        ensures Unchanged(Get(d.fields, k), Get(o.fields, k), path + [k]) <==>
          (if k in d.fields && k in o.fields then Equivalent(d.fields[k], o.fields[k], path + [k])
           else Get(d.fields, k) == Get(o.fields, k))
      {
        if k in d.fields && k in o.fields {
          UnchangedIffEquivalent(d.fields[k], o.fields[k], path + [k]);
        } else {
          NullUnchanged(Get(d.fields, k), Get(o.fields, k), path + [k]);
        }
      }
      if Unchanged(d, o, path) {
        forall k | k in d.fields.Keys + o.fields.Keys && !Skipped(path, k)
          ensures Unchanged(Get(d.fields, k), Get(o.fields, k), path + [k])
        {
          forall rest ensures !Changed(Get(d.fields, k), Get(o.fields, k), path + [k], rest) {
            assert ([k] + rest)[1..] == rest && !Changed(d, o, path, [k] + rest);
          }
        }
      }
      if Equivalent(d, o, path) {
        forall rest ensures !Changed(d, o, path, rest) {
          if rest != [] && !Skipped(path, rest[0]) {
            var k := rest[0];
            if k in d.fields.Keys + o.fields.Keys {
              assert Unchanged(Get(d.fields, k), Get(o.fields, k), path + [k]);
            } else {
              SameUnchanged(Null, path + [k], rest[1..]);
            }
          }
        }
      }
    } else {
      assert Changed(d, o, path, []);
    }
  }

  lemma NullUnchanged(d: Json, o: Json, path: seq<string>)
    requires d.Null? || o.Null?
    ensures Unchanged(d, o, path) <==> d == o
  {
    if d == o {
      forall rest ensures !Changed(d, o, path, rest) { SameUnchanged(d, path, rest); }
    } else {
      assert Changed(d, o, path, []);
    }
  }

  // The analysis of two objects is empty exactly when they are equivalent.
  lemma EmptyIffEquivalent(changed: seq<string>, live: map<string, Json>, desired: map<string, Json>)
    requires Lists(changed, Obj(desired), Obj(live))
    ensures changed == [] <==> Equivalent(Obj(desired), Obj(live), [])
  {
    var d, o := Obj(desired), Obj(live);
    UnchangedIffEquivalent(d, o, []);
    if changed == [] {
      forall rest ensures !Changed(d, o, [], rest) {
        if rest != [] { assert Pointer(rest) !in changed; }
      }
    } else {
      assert changed[0] in changed;
    }
  }

  lemma {:induction false} ChangedSymmetric(d: Json, o: Json, path: seq<string>, rest: seq<string>)
    ensures Changed(d, o, path, rest) == Changed(o, d, path, rest)
    decreases |rest|
  {
    if rest == [] || !d.Obj? || !o.Obj? {
    } else {
      ChangedSymmetric(Get(d.fields, rest[0]), Get(o.fields, rest[0]), path + [rest[0]], rest[1..]);
    }
  }

  // Swapping the arguments gives the same list.
  lemma AnalysisSymmetric(r: seq<string>, q: seq<string>, d: Json, o: Json)
    requires Lists(r, d, o) && Lists(q, o, d)
    ensures r == q
  {
    forall rest ensures Changed(d, o, [], rest) == Changed(o, d, [], rest) { ChangedSymmetric(d, o, [], rest); }
    var s := set p | p in r;
    forall p ensures p in q <==> p in s { assert ChangedPointer(d, o, p) <==> ChangedPointer(o, d, p); }
    Strings.ListsUnique(r, q, s);
  }

  lemma {:induction false} NothingBelow(d: Json, o: Json, path: seq<string>, rest: seq<string>, deeper: seq<string>)
    requires Changed(d, o, path, rest) && Changed(d, o, path, deeper) && rest <= deeper
    ensures rest == deeper
    decreases |rest|
  {
    if rest == [] {
    } else {
      NothingBelow(Get(d.fields, rest[0]), Get(o.fields, rest[0]), path + [rest[0]], rest[1..], deeper[1..]);
      assert rest == [rest[0]] + rest[1..] && deeper == [deeper[0]] + deeper[1..];
    }
  }

  // No listed pointer lies below another one.
  lemma NoAncestors(r: seq<string>, d: Json, o: Json)
    requires Lists(r, d, o)
    ensures forall i, j | 0 <= i < |r| && 0 <= j < |r| :: !HasPrefix(r[j], r[i] + "/")
  {
    forall i, j | 0 <= i < |r| && 0 <= j < |r| ensures !HasPrefix(r[j], r[i] + "/") {
      assert r[i] in r && r[j] in r;
      var p :| Changed(d, o, [], p) && p != [] && r[i] == Pointer(p);
      var q :| Changed(d, o, [], q) && q != [] && r[j] == Pointer(q);
      PrefixIsAncestry(p, q);
      if p < q { NothingBelow(d, o, [], p, q); }
    }
  }

  lemma {:induction false} EquivalentTransitive(x: Json, y: Json, z: Json, path: seq<string>)
    requires Equivalent(x, y, path) && Equivalent(y, z, path)
    ensures Equivalent(x, z, path)
    decreases y
  {
    if x == y || y == z {
    } else {
      forall k | k in x.fields.Keys + z.fields.Keys && !Skipped(path, k)
        ensures if k in x.fields && k in z.fields then Equivalent(x.fields[k], z.fields[k], path + [k])
          else Get(x.fields, k) == Get(z.fields, k)
      {
        if k in x.fields && k in y.fields && k in z.fields {
          EquivalentTransitive(x.fields[k], y.fields[k], z.fields[k], path + [k]);
        }
      }
    }
  }
}
