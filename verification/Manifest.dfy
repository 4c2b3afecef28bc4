/** Projection of a live object onto a desired one, and the drift between the two. */
module Manifest {
  import opened Basics
  import opened Json
  import opened JsonPointer

  // ---------- projection ----------

  function ItemAt(j: Json, i: nat): Json {
    if i < |Items(j)| then Items(j)[i] else Null
  }

  function ProjectValue(desired: Json, observed: Json): Json
    decreases desired
  {
    match desired
    case Obj(fields) => Obj(map k | k in fields :: ProjectValue(fields[k], Get(Fields(observed), k)))
    case Arr(items) => Arr(seq(|items|, i requires 0 <= i < |items| => ProjectValue(items[i], ItemAt(observed, i))))
    case _ => observed
  }

  function ProjectMetadata(desired: map<string, Json>, observed: map<string, Json>): map<string, Json> {
    map k | k in desired && !ServerField(k) :: ProjectValue(desired[k], Get(observed, k))
  }

  function ProjectObject(desired: map<string, Json>, observed: map<string, Json>): map<string, Json> {
    map k | k in desired && k != "status" ::
      if k == "metadata" then Obj(ProjectMetadata(Fields(desired[k]), Fields(Get(observed, k))))
      else ProjectValue(desired[k], Get(observed, k))
  }

  method ProjectManifestValue(desired: Json, observed: Json) returns (r: Json)
    ensures r == ProjectValue(desired, observed)
    decreases desired
  {
    match desired {
      case Obj(fields) =>
        var result: map<string, Json> := map[];
        var rest := fields.Keys;
        while rest != {}
          invariant rest <= fields.Keys && result.Keys == fields.Keys - rest
          invariant forall k | k in result :: result[k] == ProjectValue(fields[k], Get(Fields(observed), k))
          decreases rest
        {
          var k :| k in rest;
          var child := ProjectManifestValue(fields[k], Get(Fields(observed), k));
          result := result[k := child];
          rest := rest - {k};
        }
        assert result == ProjectValue(desired, observed).fields;
        return Obj(result);
      case Arr(items) =>
        var result: seq<Json> := [];
        for i := 0 to |items|
          invariant |result| == i
          invariant forall j | 0 <= j < i :: result[j] == ProjectValue(items[j], ItemAt(observed, j))
        {
          var child := ProjectManifestValue(items[i], ItemAt(observed, i));
          result := result + [child];
        }
        return Arr(result);
      case _ =>
        return observed;
    }
  }

  method ProjectManifestMetadata(desired: map<string, Json>, observed: map<string, Json>)
    returns (result: map<string, Json>)
    ensures result == ProjectMetadata(desired, observed)
  {
    result := map[];
    var rest := desired.Keys;
    while rest != {}
      invariant rest <= desired.Keys
      invariant result == map k | k in desired.Keys - rest && !ServerField(k) ::
        ProjectValue(desired[k], Get(observed, k))
      decreases rest
    {
      var k :| k in rest;
      if !ServerField(k) {
        var child := ProjectManifestValue(desired[k], Get(observed, k));
        result := result[k := child];
      }
      rest := rest - {k};
    }
  }

  method ProjectManifestObject(desired: map<string, Json>, observed: map<string, Json>)
    returns (result: map<string, Json>)
    ensures result == ProjectObject(desired, observed)
  {
    result := map[];
    var rest := desired.Keys;
    while rest != {}
      invariant rest <= desired.Keys && result.Keys == desired.Keys - rest - {"status"}
      invariant forall k | k in result :: result[k] == ProjectObject(desired, observed)[k]
      decreases rest
    {
      var k :| k in rest;
      if k == "metadata" {
        var metadata := ProjectManifestMetadata(Fields(desired[k]), Fields(Get(observed, k)));
        result := result[k := Obj(metadata)];
      } else if k != "status" {
        var child := ProjectManifestValue(desired[k], Get(observed, k));
        result := result[k := child];
      }
      rest := rest - {k};
    }
  }

  // ---------- laws of the projection ----------

  lemma {:induction false} ProjectSelf(x: Json)
    ensures ProjectValue(x, x) == x
    decreases x
  {
    match x
    case Obj(fields) =>
      forall k | k in fields ensures ProjectValue(fields[k], Get(fields, k)) == fields[k] {
        ProjectSelf(fields[k]);
      }
      assert ProjectValue(x, x).fields == fields;
    case Arr(items) =>
      forall i | 0 <= i < |items| ensures ProjectValue(items[i], ItemAt(x, i)) == items[i] {
        ProjectSelf(items[i]);
      }
      assert ProjectValue(x, x).items == items;
    case _ =>
  }

  // Projecting the same observation through the projected shape changes nothing.
  lemma {:induction false} ProjectAgain(d: Json, o: Json)
    ensures ProjectValue(ProjectValue(d, o), o) == ProjectValue(d, o)
    decreases d
  {
    var p := ProjectValue(d, o);
    match d
    case Obj(fields) =>
      forall k | k in fields ensures ProjectValue(p.fields[k], Get(Fields(o), k)) == p.fields[k] {
        ProjectAgain(fields[k], Get(Fields(o), k));
      }
      assert ProjectValue(p, o).fields == p.fields;
    case Arr(items) =>
      forall i | 0 <= i < |items| ensures ProjectValue(p.items[i], ItemAt(o, i)) == p.items[i] {
        ProjectAgain(items[i], ItemAt(o, i));
      }
      assert ProjectValue(p, o).items == p.items;
    case _ => ProjectSelf(o);
  }

  // The projection keeps everything the desired shape can see.
  lemma {:induction false} ProjectOfProjected(d: Json, o: Json)
    ensures ProjectValue(d, ProjectValue(d, o)) == ProjectValue(d, o)
    decreases d
  {
    var p := ProjectValue(d, o);
    match d
    case Obj(fields) =>
      forall k | k in fields ensures ProjectValue(fields[k], Get(p.fields, k)) == p.fields[k] {
        ProjectOfProjected(fields[k], Get(Fields(o), k));
      }
      assert ProjectValue(d, p).fields == p.fields;
    case Arr(items) =>
      forall i | 0 <= i < |items| ensures ProjectValue(items[i], ItemAt(p, i)) == p.items[i] {
        ProjectOfProjected(items[i], ItemAt(o, i));
      }
      assert ProjectValue(d, p).items == p.items;
    case _ =>
  }

  // ---------- what the projection reads ----------

  // The live value has what is desired: at every leaf the same, and null for what a map or a list lacks.
  predicate Seen(d: Json, o: Json)
    decreases d
  {
    match d
    case Obj(fields) =>
      forall k | k in fields :: Seen(fields[k], if o.Obj? && k in o.fields then o.fields[k] else Null)
    case Arr(items) =>
      forall i | 0 <= i < |items| :: Seen(items[i], if o.Arr? && i < |o.items| then o.items[i] else Null)
    case _ => d == o
  }

  // Projecting gives the desired value back exactly when the live one has it.
  lemma {:induction false} ProjectIffSeen(d: Json, o: Json)
    ensures ProjectValue(d, o) == d <==> Seen(d, o)
    decreases d
  {
    var p := ProjectValue(d, o);
    match d
    case Obj(fields) =>
      forall k | k in fields
        ensures p.fields[k] == fields[k] <==> Seen(fields[k], if o.Obj? && k in o.fields then o.fields[k] else Null)
      {
        ProjectIffSeen(fields[k], Get(Fields(o), k));
      }
      assert (forall k | k in fields :: p.fields[k] == fields[k]) ==> p.fields == fields;
    case Arr(items) =>
      forall i | 0 <= i < |items|
        ensures p.items[i] == items[i] <==> Seen(items[i], if o.Arr? && i < |o.items| then o.items[i] else Null)
      {
        ProjectIffSeen(items[i], ItemAt(o, i));
      }
      assert (forall i | 0 <= i < |items| :: p.items[i] == items[i]) ==> p.items == items;
    case _ =>
  }

  datatype Step = Key(key: string) | Index(index: nat)

  function At(j: Json, path: seq<Step>): Option<Json>
    decreases |path|
  {
    if path == [] then Some(j)
    else match path[0]
      case Key(k) => if j.Obj? && k in j.fields then At(j.fields[k], path[1..]) else None
      case Index(i) => if j.Arr? && i < |j.items| then At(j.items[i], path[1..]) else None
  }

  // The live value at a path, or null.
  function LiveAt(o: Json, path: seq<Step>): Json {
    var x := At(o, path);
    if x.Some? then x.value else Null
  }

  // At a path of the desired value: a map has its keys again, a list its length, a leaf the live value.
  predicate ReadsAt(d: Json, o: Json, p: Json, path: seq<Step>) {
    match At(d, path)
    case None => true
    case Some(Obj(fields)) => At(p, path).Some? && HasKeys(At(p, path).value, fields.Keys)
    case Some(Arr(items)) => At(p, path).Some? && HasLength(At(p, path).value, |items|)
    case Some(_) => At(p, path) == Some(LiveAt(o, path))
  }

  predicate HasKeys(j: Json, keys: set<string>) {
    j.Obj? && j.fields.Keys == keys
  }

  predicate HasLength(j: Json, n: nat) {
    j.Arr? && |j.items| == n
  }

  ghost predicate Reads(d: Json, o: Json, p: Json) {
    forall path :: ReadsAt(d, o, p, path)
  }

  lemma {:induction false} LiveAtNull(path: seq<Step>)
    ensures LiveAt(Null, path) == Null
  {
  }

  lemma {:induction false} ProjectionReadsAt(d: Json, o: Json, path: seq<Step>)
    ensures ReadsAt(d, o, ProjectValue(d, o), path)
    decreases |path|
  {
    if path == [] || At(d, path).None? {
    } else {
      match path[0]
      case Key(k) =>
        ProjectionReadsAt(d.fields[k], Get(Fields(o), k), path[1..]);
        if !(o.Obj? && k in o.fields) { LiveAtNull(path[1..]); }
      case Index(i) =>
        ProjectionReadsAt(d.items[i], ItemAt(o, i), path[1..]);
        if !(o.Arr? && i < |o.items|) { LiveAtNull(path[1..]); }
    }
  }

  lemma KeyReads(d: Json, o: Json, p: Json, k: string)
    requires Reads(d, o, p) && d.Obj? && k in d.fields
    ensures p.Obj? && k in p.fields && Reads(d.fields[k], Get(Fields(o), k), p.fields[k])
  {
    assert ReadsAt(d, o, p, []);
    forall path ensures ReadsAt(d.fields[k], Get(Fields(o), k), p.fields[k], path) {
      assert ReadsAt(d, o, p, [Key(k)] + path) && ([Key(k)] + path)[1..] == path;
      LiveAtNull(path);
    }
  }

  lemma ItemReads(d: Json, o: Json, p: Json, i: nat)
    requires Reads(d, o, p) && d.Arr? && i < |d.items|
    ensures p.Arr? && i < |p.items| && Reads(d.items[i], ItemAt(o, i), p.items[i])
  {
    assert ReadsAt(d, o, p, []);
    forall path ensures ReadsAt(d.items[i], ItemAt(o, i), p.items[i], path) {
      assert ReadsAt(d, o, p, [Index(i)] + path) && ([Index(i)] + path)[1..] == path;
      LiveAtNull(path);
    }
  }

  lemma {:induction false} ReadsDetermine(d: Json, o: Json, p: Json)
    requires Reads(d, o, p)
    ensures p == ProjectValue(d, o)
    decreases d
  {
    assert ReadsAt(d, o, p, []);
    match d
    case Obj(fields) =>
      forall k | k in fields ensures p.fields[k] == ProjectValue(fields[k], Get(Fields(o), k)) {
        KeyReads(d, o, p, k);
        ReadsDetermine(fields[k], Get(Fields(o), k), p.fields[k]);
      }
      assert p.fields == ProjectValue(d, o).fields;
    case Arr(items) =>
      forall i | 0 <= i < |items| ensures p.items[i] == ProjectValue(items[i], ItemAt(o, i)) {
        ItemReads(d, o, p, i);
        ReadsDetermine(items[i], ItemAt(o, i), p.items[i]);
      }
      assert p.items == ProjectValue(d, o).items;
    case _ =>
  }

  // This is the whole of the projection: it reads like that, and no other value does.
  lemma ReadsIsProjection(d: Json, o: Json, p: Json)
    ensures Reads(d, o, p) <==> p == ProjectValue(d, o)
  {
    forall path ensures ReadsAt(d, o, ProjectValue(d, o), path) { ProjectionReadsAt(d, o, path); }
    if Reads(d, o, p) { ReadsDetermine(d, o, p); }
  }

  // ---------- drift ----------

  datatype DriftField = DriftField(path: string, desired: Json, observed: Json)

  // Reference definition: `rest` reaches, through desired maps only and past no skipped key,
  // a desired value that is not a map and is absent from the observation or differs from it.
  function Drift(d: map<string, Json>, o: map<string, Json>, path: seq<string>, rest: seq<string>): Option<DriftField>
    decreases |rest|
  {
    if rest == [] || rest[0] !in d || Skipped(path, rest[0]) then None
    else
      var k := rest[0];
      if |rest| > 1 then
        if d[k].Obj? then Drift(d[k].fields, Fields(Get(o, k)), path + [k], rest[1..]) else None
      else
        var seen := ProjectValue(d[k], Get(o, k));
        if !d[k].Obj? && (k !in o || d[k] != seen) then Some(DriftField(Pointer(path + [k]), d[k], seen)) else None
  }

  // The same walk, stopping at a desired value that the observation lacks altogether.
  predicate Missing(d: map<string, Json>, o: map<string, Json>, path: seq<string>, rest: seq<string>)
    decreases |rest|
  {
    rest != [] && rest[0] in d && !Skipped(path, rest[0]) &&
    var k := rest[0];
    if |rest| > 1 then d[k].Obj? && Missing(d[k].fields, Fields(Get(o, k)), path + [k], rest[1..])
    else !d[k].Obj? && k !in o
  }

  ghost predicate NoDrift(d: map<string, Json>, o: map<string, Json>, path: seq<string>) {
    forall rest :: Drift(d, o, path, rest) == None
  }

  ghost predicate NoMissing(d: map<string, Json>, o: map<string, Json>, path: seq<string>) {
    forall rest :: !Missing(d, o, path, rest)
  }

  // What an empty diff means, in terms of the values alone: every desired value that is not a map, at any depth
  // of maps and past no skipped key, is there and has what is desired.
  predicate Matches(d: map<string, Json>, o: map<string, Json>, path: seq<string>)
    decreases Obj(d)
  {
    forall k | k in d && !Skipped(path, k) ::
      assert d[k] < Obj(d);
      if d[k].Obj? then Matches(d[k].fields, if k in o && o[k].Obj? then o[k].fields else map[], path + [k])
      else k in o && Seen(d[k], o[k])
  }

  lemma {:induction false} NoDriftIffMatches(d: map<string, Json>, o: map<string, Json>, path: seq<string>)
    ensures NoDrift(d, o, path) <==> Matches(d, o, path)
    decreases Obj(d)
  {
    forall k | k in d && !Skipped(path, k)
      ensures d[k].Obj? ==> (NoDrift(d[k].fields, Fields(Get(o, k)), path + [k]) <==>
        Matches(d[k].fields, if k in o && o[k].Obj? then o[k].fields else map[], path + [k]))
      ensures !d[k].Obj? ==> (Drift(d, o, path, [k]) == None <==> k in o && Seen(d[k], o[k]))
    {
      if d[k].Obj? {
        assert d[k] < Obj(d);
        NoDriftIffMatches(d[k].fields, Fields(Get(o, k)), path + [k]);
      } else {
        ProjectIffSeen(d[k], Get(o, k));
      }
    }
    if NoDrift(d, o, path) {
      forall k | k in d && !Skipped(path, k) && d[k].Obj? ensures NoDrift(d[k].fields, Fields(Get(o, k)), path + [k]) {
        NestedNoDrift(d, o, path, k);
      }
    }
    if Matches(d, o, path) {
      forall rest ensures Drift(d, o, path, rest) == None {
        if rest != [] && rest[0] in d && !Skipped(path, rest[0]) && !d[rest[0]].Obj? && |rest| == 1 {
          assert rest == [rest[0]];
        }
      }
    }
  }

  lemma {:induction false} DriftPath(d: map<string, Json>, o: map<string, Json>, path: seq<string>, rest: seq<string>)
    requires Drift(d, o, path, rest).Some?
    ensures Drift(d, o, path, rest).value.path == Pointer(path + rest)
    decreases |rest|
  {
    var k := rest[0];
    if |rest| > 1 {
      DriftPath(d[k].fields, Fields(Get(o, k)), path + [k], rest[1..]);
      assert path + [k] + rest[1..] == path + rest;
    } else {
      assert path + [k] == path + rest;
    }
  }

  ghost function DriftAt(d: map<string, Json>, o: map<string, Json>, path: seq<string>):
    seq<string> -> Option<DriftField>
  {
    rest => Drift(d, o, path, rest)
  }

  // `at` names the token path of each reported field.
  ghost predicate Reports(fields: seq<DriftField>, at: seq<seq<string>>, d: map<string, Json>, o: map<string, Json>,
                          path: seq<string>, keys: set<string>)
  {
    ListsAll(fields, at, Within(DriftAt(d, o, path), keys))
  }

  method SkipsKey(prefix: string, key: string, ghost path: seq<string>) returns (skipped: bool)
    requires prefix == Pointer(path)
    ensures skipped <==> Skipped(path, key)
  {
    AtMetadata(path);
    skipped := key == "status" || (prefix == "/metadata" && ServerField(key));
  }

  // diffManifestFields: map order is free, the set of reports is not.
  method DiffManifestFields(desired: map<string, Json>, observed: map<string, Json>, prefix: string,
                            ghost path: seq<string>)
    returns (fields: seq<DriftField>, ghost at: seq<seq<string>>)
    requires prefix == Pointer(path)
    ensures Reports(fields, at, desired, observed, path, desired.Keys)
    ensures forall i, j | 0 <= i < j < |fields| :: fields[i].path != fields[j].path
    ensures fields == [] <==> Matches(desired, observed, path)
    decreases Obj(desired)
  {
    fields, at := [], [];
    var rest := desired.Keys;
    while rest != {}
      invariant rest <= desired.Keys
      invariant Reports(fields, at, desired, observed, path, desired.Keys - rest)
      decreases rest
    {
      var key :| key in rest;
      var skipped := SkipsKey(prefix, key, path);
      if !skipped {
        PointerAppend(path, key);
        var here := prefix + "/" + Escape(key);
        var value := desired[key];
        if value.Obj? {
          assert value < Obj(desired);
          var nested, inner := DiffManifestFields(value.fields, Fields(Get(observed, key)), here, path + [key]);
          AppendNested(fields, at, desired, observed, path, desired.Keys - rest, key, nested, inner);
          fields := fields + nested;
          at := at + Under(key, inner);
        } else {
          var seen := ProjectManifestValue(value, Get(observed, key));
          if key !in observed || value != seen {
            AppendLeaf(fields, at, desired, observed, path, desired.Keys - rest, key);
            fields := fields + [DriftField(here, value, seen)];
            at := at + [[key]];
          } else {
            SkipKey(fields, at, desired, observed, path, desired.Keys - rest, key);
          }
        }
      } else {
        SkipKey(fields, at, desired, observed, path, desired.Keys - rest, key);
      }
      assert desired.Keys - (rest - {key}) == desired.Keys - rest + {key};
      rest := rest - {key};
    }
    assert desired.Keys - rest == desired.Keys;
    DistinctPaths(fields, at, desired, observed, path);
    NoDriftIffMatches(desired, observed, path);
  }

  lemma SkipKey(fields: seq<DriftField>, at: seq<seq<string>>, d: map<string, Json>, o: map<string, Json>,
                path: seq<string>, keys: set<string>, key: string)
    requires Reports(fields, at, d, o, path, keys) && key in d
    requires Skipped(path, key) || (!d[key].Obj? && key in o && d[key] == ProjectValue(d[key], o[key]))
    ensures Reports(fields, at, d, o, path, keys + {key})
  {
  }

  lemma AppendLeaf(fields: seq<DriftField>, at: seq<seq<string>>, d: map<string, Json>, o: map<string, Json>,
                   path: seq<string>, keys: set<string>, key: string)
    requires Reports(fields, at, d, o, path, keys) && key in d && key !in keys
    requires !Skipped(path, key) && !d[key].Obj?
    requires key !in o || d[key] != ProjectValue(d[key], o[key])
    ensures Reports(fields + [DriftField(Pointer(path + [key]), d[key], ProjectValue(d[key], Get(o, key)))],
                    at + [[key]], d, o, path, keys + {key})
  {
    var leaf := DriftField(Pointer(path + [key]), d[key], ProjectValue(d[key], Get(o, key)));
    var item := Within(DriftAt(d, o, path), {key});
    forall rest | item(rest).Some? ensures rest == [key] { assert rest[0] == key && |rest| == 1; }
    ListOne(leaf, [key], item);
    ListJoin(fields, at, keys, [leaf], [[key]], {key}, DriftAt(d, o, path));
  }

  lemma AppendNested(fields: seq<DriftField>, at: seq<seq<string>>, d: map<string, Json>, o: map<string, Json>,
                     path: seq<string>, keys: set<string>, key: string,
                     nested: seq<DriftField>, inner: seq<seq<string>>)
    requires Reports(fields, at, d, o, path, keys) && key in d && key !in keys
    requires !Skipped(path, key) && d[key].Obj?
    requires Reports(nested, inner, d[key].fields, Fields(Get(o, key)), path + [key], d[key].fields.Keys)
    ensures Reports(fields + nested, at + Under(key, inner), d, o, path, keys + {key})
  {
    var below := Within(DriftAt(d[key].fields, Fields(Get(o, key)), path + [key]), d[key].fields.Keys);
    forall rest ensures DriftAt(d, o, path)([key] + rest) == below(rest) {
      assert ([key] + rest)[1..] == rest && ([key] + rest)[0] == key;
      if rest == [] {
        assert Drift(d, o, path, [key]) == None && [key] + rest == [key];
      } else {
        assert Drift(d, o, path, [key] + rest) == Drift(d[key].fields, Fields(Get(o, key)), path + [key], rest);
      }
    }
    ListUnder(nested, inner, key, below, DriftAt(d, o, path));
    ListJoin(fields, at, keys, nested, Under(key, inner), {key}, DriftAt(d, o, path));
  }

  lemma DistinctPaths(fields: seq<DriftField>, at: seq<seq<string>>, d: map<string, Json>, o: map<string, Json>,
                      path: seq<string>)
    requires Reports(fields, at, d, o, path, d.Keys)
    ensures forall i, j | 0 <= i < j < |fields| :: fields[i].path != fields[j].path
    ensures fields == [] <==> NoDrift(d, o, path)
  {
    forall i, j | 0 <= i < j < |fields| ensures fields[i].path != fields[j].path {
      DriftPath(d, o, path, at[i]);
      DriftPath(d, o, path, at[j]);
      assert (path + at[i])[|path|..] == at[i] && (path + at[j])[|path|..] == at[j];
      if fields[i].path == fields[j].path { PointerInjective(path + at[i], path + at[j]); }
    }
    if fields != [] {
      assert Drift(d, o, path, at[0]).Some?;
    } else {
      forall rest ensures Drift(d, o, path, rest) == None {
        if Drift(d, o, path, rest).Some? { var i := Listed(fields, at, Within(DriftAt(d, o, path), d.Keys), rest); }
      }
    }
  }

  // ---------- adoption ----------

  ghost predicate Fixed(d: map<string, Json>, o: map<string, Json>) {
    forall k | k in d :: ProjectValue(d[k], Get(o, k)) == d[k]
  }

  lemma {:induction false} FixedDrift(d: map<string, Json>, o: map<string, Json>, path: seq<string>, rest: seq<string>)
    requires Fixed(d, o)
    ensures Drift(d, o, path, rest).Some? <==> Missing(d, o, path, rest)
    decreases |rest|
  {
    if |rest| <= 1 || rest[0] !in d || !d[rest[0]].Obj? {
    } else {
      var k := rest[0];
      var p := ProjectValue(d[k], Get(o, k));
      assert forall c | c in d[k].fields :: ProjectValue(d[k].fields[c], Get(Fields(Get(o, k)), c)) == p.fields[c];
      FixedDrift(d[k].fields, Fields(Get(o, k)), path + [k], rest[1..]);
    }
  }

  lemma AdoptedIsFixed(desired: map<string, Json>, live: map<string, Json>)
    ensures Fixed(ProjectObject(desired, live), live)
  {
    var a := ProjectObject(desired, live);
    forall k | k in a ensures ProjectValue(a[k], Get(live, k)) == a[k] {
      if k == "metadata" {
        var d, o := Fields(desired[k]), Fields(Get(live, k));
        forall c | c in a[k].fields ensures ProjectValue(a[k].fields[c], Get(o, c)) == a[k].fields[c] {
          ProjectAgain(d[c], Get(o, c));
        }
        assert ProjectValue(a[k], Get(live, k)).fields == a[k].fields;
      } else {
        ProjectAgain(desired[k], Get(live, k));
      }
    }
  }

  // Nothing reached through a projected value is missing unless the desired value already was.
  lemma {:induction false} MissingInProjection(d: map<string, Json>, o: map<string, Json>, p: map<string, Json>,
                                               path: seq<string>, rest: seq<string>)
    requires p.Keys <= d.Keys && forall k | k in d && !Skipped(path, k) :: k in p
    requires forall k | k in p :: p[k] == ProjectValue(d[k], Get(o, k))
    ensures Missing(p, o, path, rest) <==> Missing(d, o, path, rest)
    decreases |rest|
  {
    if |rest| <= 1 || rest[0] !in d || Skipped(path, rest[0]) || !p[rest[0]].Obj? {
    } else {
      var k := rest[0];
      if d[k].Obj? {
        MissingInProjection(d[k].fields, Fields(Get(o, k)), p[k].fields, path + [k], rest[1..]);
      } else {
        NothingMissing(p[k].fields, path + [k], rest[1..]);
      }
    }
  }

  lemma {:induction false} NothingMissing(m: map<string, Json>, path: seq<string>, rest: seq<string>)
    ensures !Missing(m, m, path, rest)
    decreases |rest|
  {
    if |rest| <= 1 || rest[0] !in m || !m[rest[0]].Obj? {
    } else {
      NothingMissing(m[rest[0]].fields, path + [rest[0]], rest[1..]);
    }
  }

  // Adopting the live values removes the drift, exactly when no desired leaf is absent from live.
  lemma AdoptionRemovesDrift(desired: map<string, Json>, live: map<string, Json>)
    requires "metadata" in desired ==> desired["metadata"].Obj?
    ensures NoDrift(ProjectObject(desired, live), live, []) <==> NoMissing(desired, live, [])
  {
    var a := ProjectObject(desired, live);
    AdoptedIsFixed(desired, live);
    forall rest ensures Drift(a, live, [], rest) == None <==> !Missing(desired, live, [], rest) {
      FixedDrift(a, live, [], rest);
      if rest != [] && rest[0] == "metadata" {
        AdoptedMetadata(desired, live, rest);
      } else {
        AdoptedField(desired, live, rest);
      }
    }
  }

  lemma AdoptedMetadata(desired: map<string, Json>, live: map<string, Json>, rest: seq<string>)
    requires "metadata" in desired ==> desired["metadata"].Obj?
    requires rest != [] && rest[0] == "metadata"
    ensures Missing(ProjectObject(desired, live), live, [], rest) <==> Missing(desired, live, [], rest)
  {
    if "metadata" in desired && |rest| > 1 {
      var a := ProjectObject(desired, live);
      assert [] + ["metadata"] == ["metadata"];
      MissingInProjection(desired["metadata"].fields, Fields(Get(live, "metadata")), a["metadata"].fields,
                          ["metadata"], rest[1..]);
    }
  }

  lemma AdoptedField(desired: map<string, Json>, live: map<string, Json>, rest: seq<string>)
    requires rest == [] || rest[0] != "metadata"
    ensures Missing(ProjectObject(desired, live), live, [], rest) <==> Missing(desired, live, [], rest)
  {
    var meta := {"metadata"};
    var d, p := desired - meta, ProjectObject(desired, live) - meta;
    MissingInProjection(d, live, p, [], rest);
  }

  // ---------- drift and projection agree ----------

  // What drift compares: no skipped key at any map depth, lists untouched.
  function Comparable(d: map<string, Json>, path: seq<string>): map<string, Json>
    decreases Obj(d)
  {
    map k | k in d && !Skipped(path, k) ::
      assert d[k] < Obj(d);
      if d[k].Obj? then Obj(Comparable(d[k].fields, path + [k])) else d[k]
  }

  // No drift means: nothing is missing, and projecting live onto the compared fields gives them back.
  lemma {:induction false} DriftAgreesWithProjection(d: map<string, Json>, o: map<string, Json>, path: seq<string>)
    ensures NoDrift(d, o, path) <==> NoMissing(d, o, path) && Fixed(Comparable(d, path), o)
    decreases Obj(d)
  {
    var c := Comparable(d, path);
    forall k | k in d && !Skipped(path, k) && d[k].Obj?
      ensures NoDrift(d[k].fields, Fields(Get(o, k)), path + [k]) <==>
        NoMissing(d[k].fields, Fields(Get(o, k)), path + [k]) && ProjectValue(c[k], Get(o, k)) == c[k]
    {
      assert d[k] < Obj(d);
      DriftAgreesWithProjection(d[k].fields, Fields(Get(o, k)), path + [k]);
      FixedIsProjection(c[k].fields, Get(o, k));
    }
    if NoDrift(d, o, path) {
      forall rest ensures !Missing(d, o, path, rest) { MissingDrifts(d, o, path, rest); }
      forall k | k in c ensures ProjectValue(c[k], Get(o, k)) == c[k] {
        if d[k].Obj? { NestedNoDrift(d, o, path, k); } else { assert Drift(d, o, path, [k]) == None; }
      }
    }
    if NoMissing(d, o, path) && Fixed(c, o) {
      forall rest ensures Drift(d, o, path, rest) == None {
        if rest == [] || rest[0] !in d || Skipped(path, rest[0]) {
        } else {
          var k := rest[0];
          assert k in c && ProjectValue(c[k], Get(o, k)) == c[k];
          if d[k].Obj? {
            NestedNoMissing(d, o, path, k);
          } else {
            assert !Missing(d, o, path, [k]);
          }
        }
      }
    }
  }

  lemma FixedIsProjection(c: map<string, Json>, o: Json)
    ensures Fixed(c, Fields(o)) <==> ProjectValue(Obj(c), o) == Obj(c)
  {
    var p := ProjectValue(Obj(c), o);
    if Fixed(c, Fields(o)) { assert p.fields == c; }
    if p == Obj(c) { assert forall k | k in c :: p.fields[k] == ProjectValue(c[k], Get(Fields(o), k)); }
  }

  lemma {:induction false} MissingDrifts(d: map<string, Json>, o: map<string, Json>, path: seq<string>,
                                         rest: seq<string>)
    ensures Missing(d, o, path, rest) ==> Drift(d, o, path, rest).Some?
    decreases |rest|
  {
    if |rest| <= 1 || rest[0] !in d || !d[rest[0]].Obj? {
    } else {
      MissingDrifts(d[rest[0]].fields, Fields(Get(o, rest[0])), path + [rest[0]], rest[1..]);
    }
  }

  lemma NestedNoDrift(d: map<string, Json>, o: map<string, Json>, path: seq<string>, k: string)
    requires NoDrift(d, o, path) && k in d && !Skipped(path, k) && d[k].Obj?
    ensures NoDrift(d[k].fields, Fields(Get(o, k)), path + [k])
  {
    forall rest ensures Drift(d[k].fields, Fields(Get(o, k)), path + [k], rest) == None {
      assert Drift(d, o, path, [k] + rest) == None && ([k] + rest)[1..] == rest;
    }
  }

  lemma NestedNoMissing(d: map<string, Json>, o: map<string, Json>, path: seq<string>, k: string)
    requires NoMissing(d, o, path) && k in d && !Skipped(path, k) && d[k].Obj?
    ensures NoMissing(d[k].fields, Fields(Get(o, k)), path + [k])
  {
    forall rest ensures !Missing(d[k].fields, Fields(Get(o, k)), path + [k], rest) {
      assert !Missing(d, o, path, [k] + rest) && ([k] + rest)[1..] == rest;
    }
  }

  // The desired object without its status and volatile metadata.
  function Stripped(desired: map<string, Json>): map<string, Json> {
    map k | k in desired && k != "status" ::
      if k == "metadata" then Obj(map c | c in Fields(desired[k]) && !ServerField(c) :: Fields(desired[k])[c])
      else desired[k]
  }

  // A value the projection can change: somewhere in it is something that is neither a map nor a list.
  predicate HoldsLeaf(j: Json) {
    match j
    case Obj(fields) => exists k | k in fields :: HoldsLeaf(fields[k])
    case Arr(items) => exists i | 0 <= i < |items| :: HoldsLeaf(items[i])
    case _ => true
  }

  // The same shape with every leaf changed.
  function Changed(j: Json): Json {
    match j
    case Obj(fields) => Obj(map k | k in fields :: Changed(fields[k]))
    case Arr(items) => Arr(seq(|items|, i requires 0 <= i < |items| => Changed(items[i])))
    case Null => Bool(true)
    case _ => Null
  }

  // Without a leaf every projection gives the value back ...
  lemma {:induction false} ProjectLeafless(d: Json, o: Json)
    requires !HoldsLeaf(d)
    ensures ProjectValue(d, o) == d
    decreases d
  {
    match d
    case Obj(fields) =>
      forall k | k in fields ensures ProjectValue(fields[k], Get(Fields(o), k)) == fields[k] {
        ProjectLeafless(fields[k], Get(Fields(o), k));
      }
      assert ProjectValue(d, o).fields == fields;
    case Arr(items) =>
      forall i | 0 <= i < |items| ensures ProjectValue(items[i], ItemAt(o, i)) == items[i] {
        ProjectLeafless(items[i], ItemAt(o, i));
      }
      assert ProjectValue(d, o).items == items;
    case _ => assert false;
  }

  // ... and with one, that of the changed value does not.
  lemma {:induction false} ProjectChanged(d: Json)
    requires HoldsLeaf(d)
    ensures ProjectValue(d, Changed(d)) != d
    decreases d
  {
    var p := ProjectValue(d, Changed(d));
    match d
    case Obj(fields) =>
      var k :| k in fields && HoldsLeaf(fields[k]);
      ProjectChanged(fields[k]);
      assert p.fields[k] == ProjectValue(fields[k], Changed(fields[k]));
    case Arr(items) =>
      var i :| 0 <= i < |items| && HoldsLeaf(items[i]);
      ProjectChanged(items[i]);
      assert p.items[i] == ProjectValue(items[i], Changed(items[i]));
    case _ =>
  }

  // A status key at some map depth whose value holds a leaf.
  predicate HidesLeaf(d: map<string, Json>)
    decreases Obj(d)
  {
    exists k | k in d :: assert d[k] < Obj(d);
      if k == "status" then HoldsLeaf(d[k]) else d[k].Obj? && HidesLeaf(d[k].fields)
  }

  // The same maps with the leaves of every status changed.
  function Touched(d: map<string, Json>): map<string, Json>
    decreases Obj(d)
  {
    map k | k in d ::
      assert d[k] < Obj(d);
      if k == "status" then Changed(d[k]) else if d[k].Obj? then Obj(Touched(d[k].fields)) else d[k]
  }

  // Drift does not see a changed status, and misses nothing.
  lemma {:induction false} TouchedIsUnseen(d: map<string, Json>, path: seq<string>, rest: seq<string>)
    ensures Drift(d, Touched(d), path, rest) == None && !Missing(d, Touched(d), path, rest)
    decreases |rest|
  {
    if rest == [] || rest[0] !in d || Skipped(path, rest[0]) {
    } else {
      var k := rest[0];
      if d[k].Obj? {
        TouchedIsUnseen(d[k].fields, path + [k], rest[1..]);
      } else {
        ProjectSelf(d[k]);
      }
    }
  }

  // The projection does.
  lemma {:induction false} TouchedIsNotFixed(d: map<string, Json>, o: map<string, Json>)
    requires HidesLeaf(d) && forall k | k in d :: k in o && o[k] == Touched(d)[k]
    ensures !Fixed(d, o)
    decreases Obj(d)
  {
    var k :| k in d && if k == "status" then HoldsLeaf(d[k]) else d[k].Obj? && HidesLeaf(d[k].fields);
    if k == "status" {
      ProjectChanged(d[k]);
    } else {
      assert d[k] < Obj(d);
      TouchedIsNotFixed(d[k].fields, Touched(d[k].fields));
      FixedIsProjection(d[k].fields, o[k]);
    }
  }

  // If no status holds a leaf, comparing without the status keys is comparing with them.
  lemma {:induction false} LeaflessComparable(d: map<string, Json>, o: map<string, Json>, path: seq<string>)
    requires !HidesLeaf(d) && path != [] && (path == ["metadata"] ==> forall k | k in d :: !ServerField(k))
    ensures Fixed(Comparable(d, path), o) <==> Fixed(d, o)
    decreases Obj(d)
  {
    var c := Comparable(d, path);
    forall k | k in d
      ensures k in c ==> (ProjectValue(c[k], Get(o, k)) == c[k] <==> ProjectValue(d[k], Get(o, k)) == d[k])
      ensures k !in c ==> ProjectValue(d[k], Get(o, k)) == d[k]
    {
      assert d[k] < Obj(d);
      if k == "status" {
        ProjectLeafless(d[k], Get(o, k));
      } else if d[k].Obj? {
        LeaflessComparable(d[k].fields, Fields(Get(o, k)), path + [k]);
        FixedIsProjection(d[k].fields, Get(o, k));
        FixedIsProjection(c[k].fields, Get(o, k));
      }
    }
  }

  // A nested status that the projection keeps and drift skips, with something in it to project.
  predicate HidesStatus(desired: map<string, Json>) {
    var s := Stripped(desired);
    exists k | k in s :: s[k].Obj? && HidesLeaf(s[k].fields)
  }

  // The projection of an object is the projection of its stripped form.
  lemma ProjectStripped(desired: map<string, Json>, live: map<string, Json>)
    requires "metadata" in desired ==> desired["metadata"].Obj?
    ensures var s, p := Stripped(desired), ProjectObject(desired, live);
      p.Keys == s.Keys && (forall k | k in s :: p[k] == ProjectValue(s[k], Get(live, k))) &&
        (p == s <==> Fixed(s, live))
  {
    var s, p := Stripped(desired), ProjectObject(desired, live);
    if "metadata" in desired {
      assert p["metadata"].fields == ProjectValue(s["metadata"], Get(live, "metadata")).fields;
    }
    assert forall k | k in s :: p[k] == ProjectValue(s[k], Get(live, k));
  }

  // What drift compares of an object, key by key of its stripped form.
  lemma ComparableStripped(desired: map<string, Json>, k: string)
    requires "metadata" in desired ==> desired["metadata"].Obj?
    requires k in Stripped(desired)
    ensures var s, c := Stripped(desired)[k], Comparable(desired, []);
      k in c && c[k] == if s.Obj? then Obj(Comparable(s.fields, [k])) else s
  {
    var s, c := Stripped(desired)[k], Comparable(desired, []);
    assert [] + [k] == [k];
    if k == "metadata" { MetadataComparable(desired[k].fields, s.fields); }
  }

  lemma MetadataComparable(d: map<string, Json>, m: map<string, Json>)
    requires m == map k | k in d && !ServerField(k) :: d[k]
    ensures Comparable(d, ["metadata"]) == Comparable(m, ["metadata"])
  {
    var path := ["metadata"];
    var c, e := Comparable(d, path), Comparable(m, path);
    assert c.Keys == e.Keys;
    forall k | k in c ensures c[k] == e[k] { assert d[k] == m[k]; }
  }

  // The agreement in terms of projectManifestObject.
  lemma NoDriftIffProjectionMatches(desired: map<string, Json>, live: map<string, Json>)
    requires ("metadata" in desired ==> desired["metadata"].Obj?) && !HidesStatus(desired)
    ensures NoDrift(desired, live, []) <==>
      NoMissing(desired, live, []) && ProjectObject(desired, live) == Stripped(desired)
  {
    var c, s := Comparable(desired, []), Stripped(desired);
    forall k | k in s
      ensures k in c && (ProjectValue(c[k], Get(live, k)) == c[k] <==> ProjectValue(s[k], Get(live, k)) == s[k])
    {
      ComparableStripped(desired, k);
      if s[k].Obj? {
        LeaflessComparable(s[k].fields, Fields(Get(live, k)), [k]);
        FixedIsProjection(s[k].fields, Get(live, k));
        FixedIsProjection(c[k].fields, Get(live, k));
      }
    }
    assert c.Keys == s.Keys;
    ProjectStripped(desired, live);
    DriftAgreesWithProjection(desired, live, []);
  }

  lemma TouchedEscapes(desired: map<string, Json>)
    ensures NoDrift(desired, Touched(desired), []) && NoMissing(desired, Touched(desired), [])
  {
    var live := Touched(desired);
    forall rest ensures Drift(desired, live, [], rest) == None && !Missing(desired, live, [], rest) {
      TouchedIsUnseen(desired, [], rest);
    }
  }

  lemma TouchedStripped(desired: map<string, Json>, k: string)
    requires "metadata" in desired ==> desired["metadata"].Obj?
    requires k in Stripped(desired) && Stripped(desired)[k].Obj?
    ensures k in Touched(desired) && Touched(desired)[k].Obj?
    ensures var m, live := Stripped(desired)[k].fields, Touched(desired)[k].fields;
      forall c | c in m :: c in live && live[c] == Touched(m)[c]
  {
    assert Touched(desired)[k] == Obj(Touched(desired[k].fields));
  }

  // A nested status with a leaf is where the two views part: drift skips it, the projection does not.
  lemma NestedStatusEscapesDrift(desired: map<string, Json>)
    requires ("metadata" in desired ==> desired["metadata"].Obj?) && HidesStatus(desired)
    ensures var live := Touched(desired);
      NoDrift(desired, live, []) && NoMissing(desired, live, []) && ProjectObject(desired, live) != Stripped(desired)
  {
    var live, s := Touched(desired), Stripped(desired);
    assert NoDrift(desired, live, []) && NoMissing(desired, live, []) by { TouchedEscapes(desired); }
    var k :| k in s && s[k].Obj? && HidesLeaf(s[k].fields);
    ProjectStripped(desired, live);
    TouchedStripped(desired, k);
    TouchedIsNotFixed(s[k].fields, live[k].fields);
    FixedIsProjection(s[k].fields, live[k]);
  }

  ghost predicate ViewsAgree(desired: map<string, Json>, live: map<string, Json>) {
    NoDrift(desired, live, []) <==> NoMissing(desired, live, []) && ProjectObject(desired, live) == Stripped(desired)
  }

  // The two views agree for every live object exactly when no nested status holds a leaf.
  lemma ViewsAgreeIffNothingHidden(desired: map<string, Json>)
    requires "metadata" in desired ==> desired["metadata"].Obj?
    ensures (forall live :: ViewsAgree(desired, live)) <==> !HidesStatus(desired)
  {
    if HidesStatus(desired) {
      NestedStatusEscapesDrift(desired);
      assert !ViewsAgree(desired, Touched(desired));
    } else {
      forall live ensures ViewsAgree(desired, live) { NoDriftIffProjectionMatches(desired, live); }
    }
  }
}
