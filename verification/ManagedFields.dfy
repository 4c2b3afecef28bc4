/** Who manages which fields of a live object, and to whom an update conflict is attributed. */
module ManagedFields {
  import opened Basics
  import opened Json
  import opened JsonPointer
  import ChangedFields
  import Strings

  const RESOURCE_EDIT_FIELD_MANAGER := "opensoha-resource-edit/v1"
  const MAX_OWNED_FIELDS: nat := 256

  // ---------- the paths of a managed-fields tree ----------

  // What one key of the tree adds to a path: a field, an element of a list or a set, or nothing.
  function KeyTokens(key: string): seq<string> {
    if HasPrefix(key, "f:") then [key[2..]] else if HasPrefix(key, "k:") || HasPrefix(key, "v:") then ["*"] else []
  }

  function TokensOf(keys: seq<string>): seq<string> {
    if keys == [] then [] else KeyTokens(keys[0]) + TokensOf(keys[1..])
  }

  // Reference definition: the keys lead through the tree to an empty node or to a `.` that marks the
  // node it stands in.
  predicate Ends(tree: map<string, Json>, keys: seq<string>)
    decreases |keys|
  {
    if keys == [] then tree == map[]
    else keys[0] in tree && if keys[0] == "." then |keys| == 1 else Ends(Fields(tree[keys[0]]), keys[1..])
  }

  lemma NextPointer(tokens: seq<string>, key: string)
    ensures Pointer(tokens + KeyTokens(key)) ==
      if HasPrefix(key, "f:") then Pointer(tokens) + "/" + Escape(key[2..])
      else if HasPrefix(key, "k:") || HasPrefix(key, "v:") then Pointer(tokens) + "/*"
      else Pointer(tokens)
  {
    if HasPrefix(key, "f:") {
      PointerAppend(tokens, key[2..]);
    } else if HasPrefix(key, "k:") || HasPrefix(key, "v:") {
      PointerAppend(tokens, "*");
      PlainEscape("*");
      assert Pointer(tokens) + "/" + "*" == Pointer(tokens) + "/*";
    } else {
      assert tokens + [] == tokens;
    }
  }

  // The ends of the tree that give a path: all but an end at the root itself.
  ghost predicate Shown(tree: map<string, Json>, tokens: seq<string>, keys: seq<string>) {
    Ends(tree, keys) && tokens + TokensOf(keys) != []
  }

  ghost function ShownAt(tree: map<string, Json>, tokens: seq<string>): seq<string> -> Option<string> {
    keys => if Shown(tree, tokens, keys) then Some(Pointer(tokens + TokensOf(keys))) else None
  }

  // `paths` holds one pointer for each such end; `at` names the ends.
  ghost predicate Collects(paths: seq<string>, at: seq<seq<string>>, tree: map<string, Json>, tokens: seq<string>) {
    ListsAll(paths, at, ShownAt(tree, tokens))
  }

  // The same for the ends behind some of the keys.
  ghost predicate CollectsKeys(paths: seq<string>, at: seq<seq<string>>, tree: map<string, Json>,
                               tokens: seq<string>, done: set<string>)
  {
    ListsAll(paths, at, Within(ShownAt(tree, tokens), done))
  }

  // collectManagedFieldPaths.
  method CollectManagedFieldPaths(tree: map<string, Json>, path: string, ghost tokens: seq<string>)
    returns (paths: seq<string>, ghost at: seq<seq<string>>)
    requires path == Pointer(tokens)
    ensures Collects(paths, at, tree, tokens)
    decreases if tree == map[] then 0 else 1, Obj(tree)
  {
    paths, at := [], [];
    if tree == map[] {
      EmptyTree(tokens);
      if path != "" {
        paths, at := [path], [[]];
      }
      return;
    }
    var keys := Strings.SortKeys(tree.Keys);
    ghost var done: set<string> := {};
    for i := 0 to |keys|
      invariant forall k :: k in done <==> k in keys[..i]
      invariant CollectsKeys(paths, at, tree, tokens, done)
    {
      var key := keys[i];
      Strings.NotAmongEarlier(keys, i);
      assert key in tree;
      var more, ends := ThroughKey(tree, path, tokens, key);
      ListJoin(paths, at, done, more, ends, {key}, ShownAt(tree, tokens));
      paths, at, done := paths + more, at + ends, done + {key};
      Strings.TakeNext(keys, i);
    }
    Strings.TakeAll(keys);
    assert done == tree.Keys;
    AllKeysCollected(paths, at, tree, tokens);
  }

  lemma EmptyTree(tokens: seq<string>)
    ensures tokens != [] ==> Collects([Pointer(tokens)], [[]], map[], tokens)
    ensures tokens == [] ==> Collects([], [], map[], tokens)
  {
    var item := ShownAt(map[], tokens);
    assert tokens + TokensOf([]) == tokens && Ends(map[], []);
    forall keys | item(keys).Some? ensures keys == [] && tokens != [] { assert Ends(map[], keys); }
    if tokens == [] { ListNone(item); } else { ListOne(Pointer(tokens), [], item); }
  }

  lemma AllKeysCollected(paths: seq<string>, at: seq<seq<string>>, tree: map<string, Json>, tokens: seq<string>)
    requires tree != map[] && CollectsKeys(paths, at, tree, tokens, tree.Keys)
    ensures Collects(paths, at, tree, tokens)
  {
    assert forall keys | Ends(tree, keys) :: keys != [] && keys[0] in tree.Keys;
    ListWhole(paths, at, tree.Keys, ShownAt(tree, tokens));
  }

  method ThroughKey(tree: map<string, Json>, path: string, ghost tokens: seq<string>, key: string)
    returns (paths: seq<string>, ghost at: seq<seq<string>>)
    requires path == Pointer(tokens) && key in tree
    ensures CollectsKeys(paths, at, tree, tokens, {key})
    decreases if tree == map[] then 0 else 1, Obj(tree), 0
  {
    NextPointer(tokens, key);
    var next := path;
    if HasPrefix(key, "f:") {
      next := next + "/" + Escape(key[2..]);
    } else if HasPrefix(key, "k:") || HasPrefix(key, "v:") {
      next := next + "/*";
    } else if key == "." {
      MarkedNode(tree, tokens);
      paths, at := [], [];
      if next != "" {
        paths, at := [next], [["."]];
      }
      return;
    }
    assert tree[key] < Obj(tree);
    ghost var inner;
    paths, inner := CollectManagedFieldPaths(Fields(tree[key]), next, tokens + KeyTokens(key));
    at := Under(key, inner);
    BelowKey(tree, tokens, key, paths, inner);
  }

  // A `.` ends at the node it stands in.
  lemma MarkedNode(tree: map<string, Json>, tokens: seq<string>)
    requires "." in tree
    ensures tokens != [] ==> CollectsKeys([Pointer(tokens)], [["."]], tree, tokens, {"."})
    ensures tokens == [] ==> CollectsKeys([], [], tree, tokens, {"."})
  {
    var item := Within(ShownAt(tree, tokens), {"."});
    assert TokensOf(["."]) == [] && tokens + [] == tokens && Ends(tree, ["."]);
    forall keys | item(keys).Some? ensures tokens != [] && keys == ["."] {
      assert keys[0] == "." && Ends(tree, keys);
      assert keys == [keys[0]];
    }
    if tokens == [] { ListNone(item); } else { ListOne(Pointer(tokens), ["."], item); }
  }

  lemma EndsBelow(tree: map<string, Json>, tokens: seq<string>, key: string, keys: seq<string>)
    requires key in tree && key != "." && keys != [] && keys[0] == key
    ensures Shown(tree, tokens, keys) <==> Shown(Fields(tree[key]), tokens + KeyTokens(key), keys[1..])
    ensures tokens + TokensOf(keys) == tokens + KeyTokens(key) + TokensOf(keys[1..])
  {
    Regroup(tokens, KeyTokens(key), TokensOf(keys[1..]));
  }

  lemma BelowKey(tree: map<string, Json>, tokens: seq<string>, key: string, paths: seq<string>, inner: seq<seq<string>>)
    requires key in tree && key != "."
    requires Collects(paths, inner, Fields(tree[key]), tokens + KeyTokens(key))
    ensures CollectsKeys(paths, Under(key, inner), tree, tokens, {key})
  {
    var below := ShownAt(Fields(tree[key]), tokens + KeyTokens(key));
    forall rest ensures ShownAt(tree, tokens)([key] + rest) == below(rest) {
      assert ([key] + rest)[1..] == rest;
      EndsBelow(tree, tokens, key, [key] + rest);
    }
    ListUnder(paths, inner, key, below, ShownAt(tree, tokens));
  }

  // ---------- the sorted paths ----------

  // `paths` is a sorted list with one pointer for each end of the tree.
  ghost predicate Managed(paths: seq<string>, tree: map<string, Json>) {
    && Strings.NonDescending(paths)
    && exists all, at :: Collects(all, at, tree, []) && multiset(all) == multiset(paths)
  }

  // managedFieldPaths; fields that are absent or do not decode have no tree.
  method ManagedFieldPaths(tree: Option<map<string, Json>>) returns (paths: seq<string>)
    ensures if tree.None? then paths == [] else Managed(paths, tree.value)
  {
    if tree.None? {
      return [];
    }
    var all, at := CollectManagedFieldPaths(tree.value, "", []);
    paths := Strings.SortList(all);
  }

  predicate EndsAt(tree: map<string, Json>, keys: seq<string>, p: string) {
    Ends(tree, keys) && TokensOf(keys) != [] && p == Pointer(TokensOf(keys))
  }

  // A path is listed exactly when some end of the tree gives it.
  lemma ManagedHas(paths: seq<string>, tree: map<string, Json>, p: string)
    requires Managed(paths, tree)
    ensures p in paths <==> exists keys :: EndsAt(tree, keys, p)
  {
    var all, at :| Collects(all, at, tree, []) && multiset(all) == multiset(paths);
    assert p in paths <==> p in multiset(all);
    if p in all {
      var i :| 0 <= i < |all| && all[i] == p;
      assert ShownAt(tree, [])(at[i]) == Some(p);
      FromTheRoot(tree, at[i]);
      assert EndsAt(tree, at[i], p);
    }
    if keys :| EndsAt(tree, keys, p) {
      FromTheRoot(tree, keys);
      var i := Listed(all, at, ShownAt(tree, []), keys);
    }
  }

  lemma FromTheRoot(tree: map<string, Json>, keys: seq<string>)
    ensures Shown(tree, [], keys) <==> Ends(tree, keys) && TokensOf(keys) != []
    ensures [] + TokensOf(keys) == TokensOf(keys)
  {
  }

  function Pointers(at: seq<seq<string>>): seq<string> {
    if at == [] then [] else [Pointer(TokensOf(at[0]))] + Pointers(at[1..])
  }

  lemma {:induction false} PointersConcat(a: seq<seq<string>>, b: seq<seq<string>>)
    ensures Pointers(a + b) == Pointers(a) + Pointers(b)
  {
    if a == [] {
      assert a + b == b;
    } else {
      ConcatTail(a, b);
      PointersConcat(a[1..], b);
    }
  }

  ghost predicate PointsTo(all: seq<string>, at: seq<seq<string>>) {
    |all| == |at| && forall i | 0 <= i < |at| :: all[i] == Pointer([] + TokensOf(at[i]))
  }

  lemma PointsToFirst(all: seq<string>, at: seq<seq<string>>)
    requires PointsTo(all, at) && at != []
    ensures all == [Pointer(TokensOf(at[0]))] + all[1..]
  {
    FromTheRoot(map[], at[0]);
    assert all == [all[0]] + all[1..];
  }

  lemma PointsToRest(all: seq<string>, at: seq<seq<string>>)
    requires PointsTo(all, at) && at != []
    ensures PointsTo(all[1..], at[1..])
  {
    forall i | 0 <= i < |at[1..]| ensures all[1..][i] == Pointer([] + TokensOf(at[1..][i])) {
      assert all[i + 1] == Pointer([] + TokensOf(at[i + 1]));
    }
  }

  lemma {:induction false} PointersAt(all: seq<string>, at: seq<seq<string>>)
    requires PointsTo(all, at)
    ensures all == Pointers(at)
  {
    if at == [] {
      assert all == [];
    } else {
      PointsToFirst(all, at);
      PointsToRest(all, at);
      PointersAt(all[1..], at[1..]);
    }
  }

  lemma PointersFirst(x: seq<string>, after: seq<seq<string>>)
    ensures Pointers([x] + after) == [Pointer(TokensOf(x))] + Pointers(after)
  {
    assert ([x] + after)[1..] == after;
  }

  // Taking one end away takes its pointer away.
  lemma PointersWithout(b: seq<seq<string>>, j: nat)
    requires j < |b|
    ensures multiset(Pointers(b)) == multiset{Pointer(TokensOf(b[j]))} + multiset(Pointers(b[..j] + b[j + 1..]))
  {
    assert Pointers(b) == Pointers(b[..j]) + ([Pointer(TokensOf(b[j]))] + Pointers(b[j + 1..])) by {
      SplitAround(b, j);
      PointersConcat(b[..j], [b[j]] + b[j + 1..]);
      PointersFirst(b[j], b[j + 1..]);
    }
    PointersConcat(b[..j], b[j + 1..]);
    OneCount(Pointers(b[..j]), Pointer(TokensOf(b[j])), Pointers(b[j + 1..]));
  }

  lemma {:induction false} PointersPermute(a: seq<seq<string>>, b: seq<seq<string>>)
    requires multiset(a) == multiset(b)
    ensures multiset(Pointers(a)) == multiset(Pointers(b))
  {
    if a == [] {
      assert multiset(b) == multiset{} && b == [];
    } else {
      assert a[0] in multiset(b);
      var j :| 0 <= j < |b| && b[j] == a[0];
      var rest := b[..j] + b[j + 1..];
      assert a == [a[0]] + a[1..];
      PointersWithout(b, j);
      RemovedAt(b, j);
      SameRest(a[0], a[1..], rest);
      PointersPermute(a[1..], rest);
    }
  }

  lemma DistinctLists(a: seq<seq<string>>, b: seq<seq<string>>)
    requires forall i, j | 0 <= i < j < |a| :: a[i] != a[j]
    requires forall i, j | 0 <= i < j < |b| :: b[i] != b[j]
    requires forall x :: x in a <==> x in b
    ensures multiset(a) == multiset(b)
  {
    forall x ensures multiset(a)[x] == multiset(b)[x] {
      CountOnce(a, x);
      CountOnce(b, x);
    }
  }

  lemma {:induction false} CountOnce(a: seq<seq<string>>, x: seq<string>)
    requires forall i, j | 0 <= i < j < |a| :: a[i] != a[j]
    ensures multiset(a)[x] == if x in a then 1 else 0
  {
    if a == [] {
    } else {
      CountOnce(a[1..], x);
      assert a == [a[0]] + a[1..];
    }
  }

  // The tree determines the list, so no map order shows in it.
  lemma ManagedUnique(r: seq<string>, q: seq<string>, tree: map<string, Json>)
    requires Managed(r, tree) && Managed(q, tree)
    ensures r == q
  {
    var all, at :| Collects(all, at, tree, []) && multiset(all) == multiset(r);
    var all', at' :| Collects(all', at', tree, []) && multiset(all') == multiset(q);
    DistinctLists(at, at');
    PointersPermute(at, at');
    PointersAt(all, at);
    PointersAt(all', at');
    Strings.SortedUnique(r, q);
  }

  // ---------- the owners of an analysis ----------

  datatype Entry = Entry(
    manager: string, operation: string, apiVersion: string, time: Option<int>, tree: Option<map<string, Json>>)

  datatype Owner = Owner(manager: string, operation: string, apiVersion: string, time: string, fields: seq<string>)

  // Entries without a manager name are left out.
  function Named(entries: seq<Entry>): seq<Entry> {
    if entries == [] then [] else (if entries[0].manager == "" then [] else [entries[0]]) + Named(entries[1..])
  }

  lemma {:induction false} NamedHas(entries: seq<Entry>, entry: Entry)
    ensures entry in Named(entries) <==> entry in entries && entry.manager != ""
  {
    if entries == [] {
    } else {
      NamedHas(entries[1..], entry);
      assert entries == [entries[0]] + entries[1..];
    }
  }

  lemma {:induction false} NamedConcat(a: seq<Entry>, b: seq<Entry>)
    ensures Named(a + b) == Named(a) + Named(b)
  {
    if a == [] {
      assert a + b == b;
    } else {
      ConcatTail(a, b);
      NamedConcat(a[1..], b);
    }
  }

  // The owner keeps the first 256 paths of its entry.
  ghost predicate Owns(owner: Owner, entry: Entry, format: int -> string) {
    && owner.manager == entry.manager && owner.operation == entry.operation && owner.apiVersion == entry.apiVersion
    && owner.time == (match entry.time case Some(t) => format(t) case None => "")
    && if entry.tree.None? then owner.fields == []
       else exists all :: Managed(all, entry.tree.value) && owner.fields == FirstFields(all)
  }

  function FirstFields(fields: seq<string>): (r: seq<string>)
    ensures r <= fields && |r| <= MAX_OWNED_FIELDS && (|r| < MAX_OWNED_FIELDS ==> r == fields)
  {
    if |fields| > MAX_OWNED_FIELDS then fields[..MAX_OWNED_FIELDS] else fields
  }

  lemma OwnerUnique(owner: Owner, other: Owner, entry: Entry, format: int -> string)
    requires Owns(owner, entry, format) && Owns(other, entry, format)
    ensures owner == other
  {
    if entry.tree.Some? {
      var all :| Managed(all, entry.tree.value) && owner.fields == FirstFields(all);
      var all' :| Managed(all', entry.tree.value) && other.fields == FirstFields(all');
      ManagedUnique(all, all', entry.tree.value);
    }
  }

  // analyzeResourceUpdate: the changed fields, and one owner for each named entry, in order; `format` writes
  // a time in UTC as section 5.6 of RFC 3339 has it, with nanoseconds.
  method AnalyzeResourceUpdate(live: map<string, Json>, desired: map<string, Json>, entries: seq<Entry>,
                               format: int -> string)
    returns (changed: seq<string>, owners: seq<Owner>)
    ensures ChangedFields.Lists(changed, Obj(desired), Obj(live))
    ensures |owners| == |Named(entries)| && forall i | 0 <= i < |owners| :: Owns(owners[i], Named(entries)[i], format)
    // Every entry with a manager has its owner, and no other entry has one.
    ensures forall entry | entry in entries && entry.manager != "" ::
      exists owner :: owner in owners && Owns(owner, entry, format)
    ensures forall owner | owner in owners :: owner.manager != ""
  {
    changed := ChangedFields.SortedChangedFields(live, desired);
    owners := [];
    for i := 0 to |entries|
      invariant |owners| == |Named(entries[..i])|
      invariant forall k | 0 <= k < |owners| :: Owns(owners[k], Named(entries[..i])[k], format)
    {
      var entry := entries[i];
      var fields := ManagedFieldPaths(entry.tree);
      var time := if entry.time.Some? then format(entry.time.value) else "";
      var owner := Owner(entry.manager, entry.operation, entry.apiVersion, time, FirstFields(fields));
      assert Owns(owner, entry, format);
      SplitAfter(entries, i);
      NamedConcat(entries[..i], [entry]);
      assert Named([entry]) == if entry.manager == "" then [] else [entry];
      if owner.manager != "" {
        owners := owners + [owner];
      }
    }
    assert entries[..|entries|] == entries;
    forall entry | entry in entries && entry.manager != ""
      ensures exists owner :: owner in owners && Owns(owner, entry, format)
    {
      NamedHas(entries, entry);
      var k :| 0 <= k < |owners| && Named(entries)[k] == entry;
      assert owners[k] in owners;
    }
    forall owner | owner in owners ensures owner.manager != "" {
      var k :| 0 <= k < |owners| && owners[k] == owner;
      NamedHas(entries, Named(entries)[k]);
    }
  }

  // ---------- whose field an update conflicts with ----------

  datatype Conflict = Conflict(field: string, manager: string, message: string)

  predicate Claims(owner: Owner, changed: string) {
    owner.manager != RESOURCE_EDIT_FIELD_MANAGER && exists f | f in owner.fields :: Overlap(changed, f)
  }

  predicate Unclaimed(changed: string, owners: seq<Owner>) {
    forall owner | owner in owners :: !Claims(owner, changed)
  }

  predicate NobodyClaims(changed: seq<string>, owners: seq<Owner>) {
    forall c | c in changed :: Unclaimed(c, owners)
  }

  // The first changed field anybody else claims, and the first who does.
  ghost predicate FirstClaim(changed: seq<string>, owners: seq<Owner>, i: int, j: int) {
    && 0 <= i < |changed| && 0 <= j < |owners| && Claims(owners[j], changed[i])
    && (forall k | 0 <= k < i :: Unclaimed(changed[k], owners)) && Unclaimed(changed[i], owners[..j])
  }

  // conflictsFromError.
  method ConflictsFromError(message: string, changed: seq<string>, owners: seq<Owner>) returns (r: Conflict)
    ensures r.message == message
    ensures NobodyClaims(changed, owners) ==> r.field == "metadata.managedFields" && r.manager == ""
    ensures forall i, j | FirstClaim(changed, owners, i, j) :: r.field == changed[i] && r.manager == owners[j].manager
    ensures NobodyClaims(changed, owners) || exists i, j :: FirstClaim(changed, owners, i, j)
  {
    for i := 0 to |changed|
      invariant forall k | 0 <= k < i :: Unclaimed(changed[k], owners)
    {
      for j := 0 to |owners|
        invariant Unclaimed(changed[i], owners[..j])
      {
        var owner := owners[j];
        SplitAfter(owners, j);
        if owner.manager == RESOURCE_EDIT_FIELD_MANAGER {
          continue;
        }
        for n := 0 to |owner.fields|
          invariant forall k | 0 <= k < n :: !Overlap(changed[i], owner.fields[k])
        {
          if Overlap(changed[i], owner.fields[n]) {
            assert Claims(owner, changed[i]);
            assert FirstClaim(changed, owners, i, j);
            OneFirstClaim(changed, owners, i, j);
            assert changed[i] in changed && owner in owners;
            return Conflict(changed[i], owner.manager, message);
          }
        }
      }
      assert owners[..|owners|] == owners;
    }
    return Conflict("metadata.managedFields", "", message);
  }

  lemma NoClaimBefore(changed: string, owners: seq<Owner>, j: nat, k: nat)
    requires j < |owners| && k <= |owners| && Unclaimed(changed, owners[..k])
    ensures j < k ==> !Claims(owners[j], changed)
  {
    if j < k { assert owners[..k][j] == owners[j]; }
  }

  lemma OneFirstClaim(changed: seq<string>, owners: seq<Owner>, i: int, j: int)
    requires FirstClaim(changed, owners, i, j)
    ensures forall i', j' | FirstClaim(changed, owners, i', j') :: i' == i && j' == j
  {
    forall i', j' | FirstClaim(changed, owners, i', j') ensures i' == i && j' == j {
      assert owners[j] in owners && owners[j'] in owners;
      if i == i' {
        NoClaimBefore(changed[i], owners, j, j');
        NoClaimBefore(changed[i], owners, j', j);
      }
    }
  }

  // A manager's entry reaches the field, one of its parents, or something below it.
  ghost predicate Related(tree: map<string, Json>, field: seq<string>) {
    exists keys :: Ends(tree, keys) && TokensOf(keys) != [] && (field <= TokensOf(keys) || TokensOf(keys) <= field)
  }

  // The string tests attribute a field only to foreign managers whose tree holds a related path, and, up to
  // the cut at 256 paths, to all of them.
  lemma ClaimIsKinship(owner: Owner, entry: Entry, format: int -> string, all: seq<string>, field: seq<string>)
    requires Owns(owner, entry, format) && entry.tree.Some? && Managed(all, entry.tree.value)
    ensures Claims(owner, Pointer(field)) ==>
      owner.manager != RESOURCE_EDIT_FIELD_MANAGER && Related(entry.tree.value, field)
    ensures |all| <= MAX_OWNED_FIELDS ==>
      (Claims(owner, Pointer(field)) <==>
        owner.manager != RESOURCE_EDIT_FIELD_MANAGER && Related(entry.tree.value, field))
  {
    var listed :| Managed(listed, entry.tree.value) && owner.fields == FirstFields(listed);
    ManagedUnique(all, listed, entry.tree.value);
    if Claims(owner, Pointer(field)) { OverlapIsRelated(all, entry.tree.value, owner.fields, field); }
    if Related(entry.tree.value, field) && |all| <= MAX_OWNED_FIELDS {
      RelatedOverlaps(all, entry.tree.value, field);
    }
  }

  lemma OverlapIsRelated(all: seq<string>, tree: map<string, Json>, fields: seq<string>, field: seq<string>)
    requires Managed(all, tree) && fields <= all && exists f | f in fields :: Overlap(Pointer(field), f)
    ensures Related(tree, field)
  {
    var f :| f in fields && Overlap(Pointer(field), f);
    assert f in all;
    ManagedHas(all, tree, f);
    var keys :| EndsAt(tree, keys, f);
    OverlapIsKinship(field, TokensOf(keys));
  }

  lemma RelatedOverlaps(all: seq<string>, tree: map<string, Json>, field: seq<string>)
    requires Managed(all, tree) && Related(tree, field)
    ensures exists f | f in all :: Overlap(Pointer(field), f)
  {
    var keys :| Ends(tree, keys) && TokensOf(keys) != [] && (field <= TokensOf(keys) || TokensOf(keys) <= field);
    var f := Pointer(TokensOf(keys));
    assert EndsAt(tree, keys, f);
    ManagedHas(all, tree, f);
    OverlapIsKinship(field, TokensOf(keys));
    assert f in all && Overlap(Pointer(field), f);
  }
}
