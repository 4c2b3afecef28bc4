/** When the merged log page does not depend on the order in which the sources answer. */
module LogOrder {
  import opened Basics
  import opened LogMerge

  // ---------- filtering ----------

  function Ahead(d: LogEntry, before: Order): LogEntry -> bool {
    x => before(x, d)
  }

  function Behind(d: LogEntry, before: Order): LogEntry -> bool {
    x => before(d, x)
  }

  function Outside(entries: seq<LogEntry>): LogEntry -> bool {
    x => x !in entries
  }

  lemma {:induction false} FilterAll(s: seq<LogEntry>, keep: LogEntry -> bool)
    requires forall i | 0 <= i < |s| :: keep(s[i])
    ensures Filter(s, keep) == s
  {
    if s == [] {
    } else {
      FilterAll(s[1..], keep);
      assert s == [s[0]] + s[1..];
    }
  }

  lemma {:induction false} FilterCommutes(s: seq<LogEntry>, p: LogEntry -> bool, q: LogEntry -> bool)
    ensures Filter(Filter(s, p), q) == Filter(Filter(s, q), p)
  {
    if s == [] {
    } else {
      FilterCommutes(s[1..], p, q);
      var x := [s[0]];
      assert x[1..] == [];
      FilterConcat(if p(s[0]) then x else [], Filter(s[1..], p), q);
      FilterConcat(if q(s[0]) then x else [], Filter(s[1..], q), p);
    }
  }

  lemma {:induction false} FilterCounts(s: seq<LogEntry>, keep: LogEntry -> bool, x: LogEntry)
    ensures multiset(Filter(s, keep))[x] == if keep(x) then multiset(s)[x] else 0
  {
    if s == [] {
    } else {
      FilterCounts(s[1..], keep, x);
      assert s == [s[0]] + s[1..];
    }
  }

  lemma FilterMembers(s: seq<LogEntry>, keep: LogEntry -> bool)
    ensures forall x :: x in Filter(s, keep) <==> x in s && keep(x)
  {
    forall x ensures x in Filter(s, keep) <==> x in s && keep(x) {
      FilterCounts(s, keep, x);
      assert x in s <==> multiset(s)[x] > 0;
      assert x in Filter(s, keep) <==> multiset(Filter(s, keep))[x] > 0;
    }
  }

  lemma FilterMonotone(u: seq<LogEntry>, v: seq<LogEntry>, keep: LogEntry -> bool)
    requires multiset(u) <= multiset(v)
    ensures multiset(Filter(u, keep)) <= multiset(Filter(v, keep))
  {
    forall x ensures multiset(Filter(u, keep))[x] <= multiset(Filter(v, keep))[x] {
      FilterCounts(u, keep, x);
      FilterCounts(v, keep, x);
    }
  }

  lemma {:induction false} FilterSorted(s: seq<LogEntry>, keep: LogEntry -> bool, before: Order)
    requires Sorted(s, before)
    ensures Sorted(Filter(s, keep), before)
  {
    if s == [] {
    } else {
      FilterSorted(s[1..], keep, before);
      FilterMembers(s[1..], keep);
      var rest := Filter(s[1..], keep);
      forall j | 0 <= j < |rest| ensures !before(rest[j], s[0]) {
        assert rest[j] in s[1..];
        var i :| 0 <= i < |s[1..]| && s[1..][i] == rest[j];
        assert s[i + 1] == rest[j];
      }
    }
  }

  // Sorting, then filtering, is filtering, then sorting.
  lemma FilterOfSort(s: seq<LogEntry>, keep: LogEntry -> bool, before: Order)
    requires WeakOrder(before)
    ensures Filter(StableSort(s, before), keep) == StableSort(Filter(s, keep), before)
  {
    var l, r := Filter(StableSort(s, before), keep), StableSort(Filter(s, keep), before);
    StableSortSorted(s, before);
    StableSortSorted(Filter(s, keep), before);
    FilterSorted(StableSort(s, before), keep, before);
    forall x ensures Ties(l, x, before) == Ties(r, x, before) {
      FilterCommutes(StableSort(s, before), keep, TiedWith(x, before));
      FilterCommutes(s, keep, TiedWith(x, before));
      StableSortIsStable(s, x, before);
      StableSortIsStable(Filter(s, keep), x, before);
    }
    StableSortUnique(l, r, before);
  }

  // Sorting a part first changes nothing.
  lemma SortTwice(u: seq<LogEntry>, v: seq<LogEntry>, before: Order)
    requires WeakOrder(before)
    ensures StableSort(StableSort(u, before) + v, before) == StableSort(u + v, before)
  {
    var l, r := StableSort(StableSort(u, before) + v, before), StableSort(u + v, before);
    StableSortSorted(StableSort(u, before) + v, before);
    StableSortSorted(u + v, before);
    forall x ensures Ties(l, x, before) == Ties(r, x, before) {
      StableSortIsStable(StableSort(u, before) + v, x, before);
      StableSortIsStable(u + v, x, before);
      StableSortIsStable(u, x, before);
      FilterConcat(StableSort(u, before), v, TiedWith(x, before));
      FilterConcat(u, v, TiedWith(x, before));
    }
    StableSortUnique(l, r, before);
  }

  lemma FilterHead(s: seq<LogEntry>, keep: LogEntry -> bool)
    requires s != []
    ensures Filter(s, keep) == if keep(s[0]) then [s[0]] + Filter(s[1..], keep) else Filter(s[1..], keep)
  {
  }

  lemma IntoParts<T>(x: T, f: seq<T>, m: seq<T>, y: seq<T>)
    ensures [x] + (f + m + y) == ([x] + f) + m + y
    ensures f == [] ==> [x] + (f + m + y) == f + ([x] + m) + y
    ensures f == m == [] ==> [x] + (f + m + y) == f + m + ([x] + y)
  {
  }

  // A sorted list in three parts: what precedes `d`, what ties with it, what it precedes.
  lemma {:induction false} ThreeParts(s: seq<LogEntry>, d: LogEntry, before: Order)
    requires WeakOrder(before) && Sorted(s, before)
    ensures s == Filter(s, Ahead(d, before)) + Ties(s, d, before) + Filter(s, Behind(d, before))
  {
    if s == [] {
    } else {
      var x, rest := s[0], s[1..];
      var f, m, y := Filter(rest, Ahead(d, before)), Ties(rest, d, before), Filter(rest, Behind(d, before));
      assert s == [x] + (f + m + y) by {
        ThreeParts(rest, d, before);
        assert s == [x] + rest;
      }
      FilterHead(s, Ahead(d, before));
      FilterHead(s, TiedWith(d, before));
      FilterHead(s, Behind(d, before));
      if !before(x, d) { NoneAhead(s, d, before); }
      if before(d, x) { NoneTiedWith(s, d, before); }
      IntoParts(x, f, m, y);
    }
  }

  lemma NoneAhead(s: seq<LogEntry>, d: LogEntry, before: Order)
    requires WeakOrder(before) && Sorted(s, before) && s != [] && !before(s[0], d)
    ensures Filter(s[1..], Ahead(d, before)) == []
  {
    forall i | 1 <= i < |s| ensures !before(s[i], d) { assert !before(s[i], s[0]); }
    FilterNone(s[1..], Ahead(d, before));
  }

  lemma NoneTiedWith(s: seq<LogEntry>, d: LogEntry, before: Order)
    requires WeakOrder(before) && Sorted(s, before) && s != [] && before(d, s[0])
    ensures Filter(s[1..], TiedWith(d, before)) == []
  {
    forall i | 1 <= i < |s| ensures !Tie(s[i], d, before) { assert !before(s[i], s[0]); }
    FilterNone(s[1..], TiedWith(d, before));
  }

  // ---------- one part of a list fits if the whole does ----------

  lemma SplitEntry(v: seq<LogEntry>, i: nat)
    requires i < |v|
    ensures v == v[..i] + ([v[i]] + v[i + 1..])
  {
  }

  lemma TakeOutEntry(v: seq<LogEntry>, i: nat, size: LogEntry -> nat)
    requires i < |v|
    ensures multiset(v[..i] + v[i + 1..]) == multiset(v) - multiset{v[i]}
    ensures Bytes(v, size) == Bytes(v[..i] + v[i + 1..], size) + size(v[i]) + 1
  {
    var front, back := v[..i], v[i + 1..];
    SplitEntry(v, i);
    BytesConcat(front, [v[i]] + back, size);
    BytesConcat(front, back, size);
    assert ([v[i]] + back)[1..] == back;
  }

  lemma {:induction false} PartIsSmaller(u: seq<LogEntry>, v: seq<LogEntry>, size: LogEntry -> nat)
    requires multiset(u) <= multiset(v)
    ensures |u| <= |v| && Bytes(u, size) <= Bytes(v, size)
    decreases |u|
  {
    if u == [] {
    } else {
      assert u == [u[0]] + u[1..];
      assert u[0] in multiset(v);
      var i :| 0 <= i < |v| && v[i] == u[0];
      TakeOutEntry(v, i, size);
      assert multiset(u[1..]) == multiset(u) - multiset{u[0]};
      PartIsSmaller(u[1..], v[..i] + v[i + 1..], size);
    }
  }

  lemma PartFits(u: seq<LogEntry>, v: seq<LogEntry>, b: Paging)
    requires multiset(u) <= multiset(v) && Fits(v, b)
    ensures Fits(u, b)
  {
    PartIsSmaller(u, v, b.size);
  }

  // ---------- ties stay within a source ----------

  // Entries of different sources never tie; a source with entries answers once.
  ghost predicate TiesStayInSource(results: multiset<ReadResult>, before: Order) {
    && (forall r :: Entries(r) != [] ==> results[r] <= 1)
    && (forall r, q, x, y | r in results && q in results && x in Entries(r) && y in Entries(q) ::
      r != q ==> !Tie(x, y, before))
  }

  lemma {:induction false} ArrivalsConcat(x: seq<ReadResult>, y: seq<ReadResult>)
    ensures Arrivals(x + y) == Arrivals(x) + Arrivals(y)
  {
    if y == [] {
      assert x + y == x;
    } else {
      var init, last := y[..|y| - 1], y[|y| - 1];
      ArrivalsConcat(x, init);
      assert (x + y)[..|x + y| - 1] == x + init && (x + y)[|x + y| - 1] == last;
      Regroup(Arrivals(x), Arrivals(init), Entries(last));
    }
  }

  lemma ArrivalsMore(order: seq<ReadResult>, i: nat)
    requires i < |order|
    ensures Arrivals(order[..i + 1]) == Arrivals(order[..i]) + Entries(order[i])
    ensures Arrivals(order) == Arrivals(order[..i]) + Entries(order[i]) + Arrivals(order[i + 1..])
  {
    var front, back := order[..i + 1], order[i + 1..];
    SplitAfter(order, i);
    assert front[|front| - 1] == order[i] && front[..|front| - 1] == order[..i];
    ArrivalsConcat(front, back);
  }

  lemma {:induction false} NoneTied(rs: seq<ReadResult>, x: LogEntry, before: Order)
    requires forall r | r in rs :: Ties(Entries(r), x, before) == []
    ensures Ties(Arrivals(rs), x, before) == []
  {
    if rs == [] {
    } else {
      NoneTied(rs[..|rs| - 1], x, before);
      FilterConcat(Arrivals(rs[..|rs| - 1]), Entries(rs[|rs| - 1]), TiedWith(x, before));
    }
  }

  lemma OthersDoNotTie(order: seq<ReadResult>, i: nat, j: nat, x: LogEntry, before: Order)
    requires WeakOrder(before) && TiesStayInSource(multiset(order), before)
    requires i < |order| && j < |order| && i != j && Ties(Entries(order[i]), x, before) != []
    ensures Ties(Entries(order[j]), x, before) == []
  {
    var r, q := order[i], order[j];
    FilterMembers(Entries(r), TiedWith(x, before));
    FilterMembers(Entries(q), TiedWith(x, before));
    var y := Ties(Entries(r), x, before)[0];
    assert y in Entries(r) && Tie(y, x, before);
    if r == q { TwiceInOrder(order, i, j); }
    if Ties(Entries(q), x, before) != [] {
      var z := Ties(Entries(q), x, before)[0];
      assert z in Entries(q) && Tie(z, x, before);
      assert r in multiset(order) && q in multiset(order);
      assert Tie(y, z, before);
    }
  }

  lemma TwiceInOrder(order: seq<ReadResult>, i: nat, j: nat)
    requires i < |order| && j < |order| && i != j && order[i] == order[j]
    ensures multiset(order)[order[i]] >= 2
  {
    var l, h := if i < j then i else j, if i < j then j else i;
    WithoutPairPermutes(order, l, h);
  }

  lemma FilterMiddle(front: seq<LogEntry>, mine: seq<LogEntry>, back: seq<LogEntry>, keep: LogEntry -> bool)
    requires Filter(front, keep) == [] && Filter(back, keep) == []
    ensures Filter(front + mine + back, keep) == Filter(mine, keep)
  {
    FilterConcat(front + mine, back, keep);
    FilterConcat(front, mine, keep);
  }

  lemma TiesOfRest(order: seq<ReadResult>, i: nat, x: LogEntry, before: Order)
    requires WeakOrder(before) && TiesStayInSource(multiset(order), before)
    requires i < |order| && Ties(Entries(order[i]), x, before) != []
    ensures Ties(Arrivals(order[..i]), x, before) == [] && Ties(Arrivals(order[i + 1..]), x, before) == []
  {
    var front, back := order[..i], order[i + 1..];
    forall r | r in front ensures Ties(Entries(r), x, before) == [] {
      var j :| 0 <= j < |front| && front[j] == r;
      OthersDoNotTie(order, i, j, x, before);
    }
    forall r | r in back ensures Ties(Entries(r), x, before) == [] {
      var j :| 0 <= j < |back| && back[j] == r;
      OthersDoNotTie(order, i, i + 1 + j, x, before);
    }
    NoneTied(front, x, before);
    NoneTied(back, x, before);
  }

  // All ties of an entry are those of its own source, wherever that source stands.
  lemma TiesOfSource(order: seq<ReadResult>, i: nat, x: LogEntry, before: Order)
    requires WeakOrder(before) && TiesStayInSource(multiset(order), before)
    requires i < |order| && Ties(Entries(order[i]), x, before) != []
    ensures Ties(Arrivals(order), x, before) == Ties(Entries(order[i]), x, before)
    ensures Ties(Arrivals(order[..i]), x, before) == []
  {
    TiesOfRest(order, i, x, before);
    ArrivalsMore(order, i);
    FilterMiddle(Arrivals(order[..i]), Entries(order[i]), Arrivals(order[i + 1..]), TiedWith(x, before));
  }

  // Then the sorted list of everything read does not depend on the order of the results.
  lemma SameSort(order: seq<ReadResult>, results: seq<ReadResult>, before: Order)
    requires WeakOrder(before) && TiesStayInSource(multiset(results), before)
    requires multiset(order) == multiset(results)
    ensures StableSort(Arrivals(order), before) == StableSort(Arrivals(results), before)
  {
    var l, r := StableSort(Arrivals(order), before), StableSort(Arrivals(results), before);
    StableSortSorted(Arrivals(order), before);
    StableSortSorted(Arrivals(results), before);
    forall x ensures Ties(l, x, before) == Ties(r, x, before) {
      StableSortIsStable(Arrivals(order), x, before);
      StableSortIsStable(Arrivals(results), x, before);
      SameTies(order, results, x, before);
    }
    StableSortUnique(l, r, before);
  }

  lemma SameTies(order: seq<ReadResult>, results: seq<ReadResult>, x: LogEntry, before: Order)
    requires WeakOrder(before) && TiesStayInSource(multiset(results), before)
    requires multiset(order) == multiset(results)
    ensures Ties(Arrivals(order), x, before) == Ties(Arrivals(results), x, before)
  {
    if r :| r in results && Ties(Entries(r), x, before) != [] {
      assert r in multiset(order);
      var i :| 0 <= i < |order| && order[i] == r;
      var j :| 0 <= j < |results| && results[j] == r;
      TiesOfSource(order, i, x, before);
      TiesOfSource(results, j, x, before);
    } else {
      forall r | r in order ensures Ties(Entries(r), x, before) == [] {
        assert r in multiset(order);
        assert r in results;
      }
      NoneTied(order, x, before);
      NoneTied(results, x, before);
    }
  }

  // ---------- one delivery, seen from the first entry left out ----------

  // How many ties of `all[c]` stand ahead of it.
  function TiesKept(all: seq<LogEntry>, c: nat, before: Order): int
    requires c < |all|
  {
    c - |Filter(all, Ahead(all[c], before))|
  }

  lemma InMiddle(f: seq<LogEntry>, m: seq<LogEntry>, y: seq<LogEntry>, c: nat)
    requires c < |f + m + y| && (f + m + y)[c] !in f && (f + m + y)[c] !in y
    ensures |f| <= c < |f| + |m|
  {
  }

  lemma CutParts(all: seq<LogEntry>, c: nat, before: Order)
    requires WeakOrder(before) && Sorted(all, before) && c < |all|
    ensures var d, k := all[c], TiesKept(all, c, before);
      && 0 <= k < |Ties(all, d, before)|
      && all[..c] == Filter(all, Ahead(d, before)) + Ties(all, d, before)[..k]
      && all[..c + 1] == Filter(all, Ahead(d, before)) + Ties(all, d, before)[..k + 1]
  {
    var d := all[c];
    var f, m, y := Filter(all, Ahead(d, before)), Ties(all, d, before), Filter(all, Behind(d, before));
    ThreeParts(all, d, before);
    FilterMembers(all, Ahead(d, before));
    FilterMembers(all, Behind(d, before));
    InMiddle(f, m, y, c);
    PrefixOfThree(f, m, y, c);
    PrefixOfThree(f, m, y, c + 1);
  }

  function MiddleOf(f: seq<LogEntry>, m: seq<LogEntry>, n: nat): seq<LogEntry> {
    if |f| <= n <= |f| + |m| then m[..n - |f|] else m
  }

  function LastOf(f: seq<LogEntry>, m: seq<LogEntry>, y: seq<LogEntry>, n: nat): seq<LogEntry> {
    if |f| + |m| <= n <= |f| + |m| + |y| then y[..n - |f| - |m|] else []
  }

  lemma PrefixOfThree(f: seq<LogEntry>, m: seq<LogEntry>, y: seq<LogEntry>, n: nat)
    requires |f| <= n <= |f + m + y|
    ensures (f + m + y)[..n] == f + MiddleOf(f, m, n) + LastOf(f, m, y, n)
  {
  }

  // A prefix of a sorted list that reaches past what precedes `d`.
  lemma PrefixParts(list: seq<LogEntry>, n: nat, d: LogEntry, before: Order)
    requires WeakOrder(before) && Sorted(list, before)
    requires |Filter(list, Ahead(d, before))| <= n <= |list|
    ensures var f, m, y := Filter(list, Ahead(d, before)), Ties(list, d, before), Filter(list, Behind(d, before));
      && Filter(list[..n], Ahead(d, before)) == f
      && Ties(list[..n], d, before) == MiddleOf(f, m, n)
      && Filter(list[..n], Behind(d, before)) == LastOf(f, m, y, n)
      && list[..n] == f + MiddleOf(f, m, n) + LastOf(f, m, y, n)
  {
    var f, m, y := Filter(list, Ahead(d, before)), Ties(list, d, before), Filter(list, Behind(d, before));
    ThreeParts(list, d, before);
    PrefixOfThree(f, m, y, n);
    FilterMembers(list, Ahead(d, before));
    FilterMembers(list, TiedWith(d, before));
    FilterMembers(list, Behind(d, before));
    assert forall x | x in MiddleOf(f, m, n) :: x in m;
    assert forall x | x in LastOf(f, m, y, n) :: x in y;
    PartsOfConcat(f, MiddleOf(f, m, n), LastOf(f, m, y, n), d, before);
  }

  lemma PartsOfConcat(f: seq<LogEntry>, m: seq<LogEntry>, y: seq<LogEntry>, d: LogEntry, before: Order)
    requires WeakOrder(before)
    requires forall x | x in f :: before(x, d)
    requires forall x | x in m :: Tie(x, d, before)
    requires forall x | x in y :: before(d, x)
    ensures Filter(f + m + y, Ahead(d, before)) == f
    ensures Ties(f + m + y, d, before) == m
    ensures Filter(f + m + y, Behind(d, before)) == y
  {
    OnlyFirst(f, m, y, Ahead(d, before));
    OnlyMiddle(f, m, y, TiedWith(d, before));
    OnlyLast(f, m, y, Behind(d, before));
  }

  lemma Alone<T>(a: seq<T>, b: seq<T>, c: seq<T>)
    ensures b == [] && c == [] ==> a + b + c == a
    ensures a == [] && c == [] ==> a + b + c == b
    ensures a == [] && b == [] ==> a + b + c == c
  {
  }

  lemma OnlyFirst(f: seq<LogEntry>, m: seq<LogEntry>, y: seq<LogEntry>, keep: LogEntry -> bool)
    requires (forall x | x in f :: keep(x)) && (forall x | x in m :: !keep(x)) && (forall x | x in y :: !keep(x))
    ensures Filter(f + m + y, keep) == f
  {
    FilterThree(f, m, y, keep);
    FilterAll(f, keep);
    FilterNone(m, keep);
    FilterNone(y, keep);
    Alone(Filter(f, keep), Filter(m, keep), Filter(y, keep));
  }

  lemma OnlyMiddle(f: seq<LogEntry>, m: seq<LogEntry>, y: seq<LogEntry>, keep: LogEntry -> bool)
    requires (forall x | x in f :: !keep(x)) && (forall x | x in m :: keep(x)) && (forall x | x in y :: !keep(x))
    ensures Filter(f + m + y, keep) == m
  {
    FilterThree(f, m, y, keep);
    FilterNone(f, keep);
    FilterAll(m, keep);
    FilterNone(y, keep);
    Alone(Filter(f, keep), Filter(m, keep), Filter(y, keep));
  }

  lemma OnlyLast(f: seq<LogEntry>, m: seq<LogEntry>, y: seq<LogEntry>, keep: LogEntry -> bool)
    requires (forall x | x in f :: !keep(x)) && (forall x | x in m :: !keep(x)) && (forall x | x in y :: keep(x))
    ensures Filter(f + m + y, keep) == y
  {
    FilterThree(f, m, y, keep);
    FilterNone(f, keep);
    FilterNone(m, keep);
    FilterAll(y, keep);
    Alone(Filter(f, keep), Filter(m, keep), Filter(y, keep));
  }

  lemma FilterThree(f: seq<LogEntry>, m: seq<LogEntry>, y: seq<LogEntry>, keep: LogEntry -> bool)
    ensures Filter(f + m + y, keep) == Filter(f, keep) + Filter(m, keep) + Filter(y, keep)
  {
    FilterConcat(f + m, y, keep);
    FilterConcat(f, m, keep);
  }

  // All[c] has been read, and of its ties only those ahead of it are left on the page.
  ghost predicate Dropped(page: seq<LogEntry>, arrived: seq<LogEntry>, all: seq<LogEntry>, c: nat, before: Order)
    requires c < |all|
  {
    Ties(arrived, all[c], before) != [] && |Ties(page, all[c], before)| == TiesKept(all, c, before)
  }

  // A page merged from `arrived` holds everything read ahead of all[c], and its ties down to all[c]
  // unless the list up to all[c] no longer fitted.
  ghost predicate Follows(page: seq<LogEntry>, arrived: seq<LogEntry>, all: seq<LogEntry>, c: nat, b: Paging)
    requires c < |all|
  {
    var d, k := all[c], TiesKept(all, c, b.before);
    var f, m := Filter(page, Ahead(d, b.before)), Ties(page, d, b.before);
    && Sorted(page, b.before)
    && f == StableSort(Filter(arrived, Ahead(d, b.before)), b.before)
    && m <= Ties(all, d, b.before)
    && (if Ties(arrived, d, b.before) == [] then m == [] else |m| >= k)
    && (Dropped(page, arrived, all, c, b.before) ==>
      0 <= k < |Ties(all, d, b.before)| && !Fits(f + Ties(all, d, b.before)[..k + 1], b))
  }

  // What can follow: the entries are some of all, and those that tie with all[c] come at once.
  ghost predicate NextBatch(arrived: seq<LogEntry>, batch: seq<LogEntry>, all: seq<LogEntry>, c: nat, b: Paging)
    requires c < |all|
  {
    && WeakOrder(b.before) && Sorted(all, b.before) && c == CutLength(all, b)
    && multiset(arrived + batch) <= multiset(all)
    && (Ties(batch, all[c], b.before) == [] ||
        (Ties(batch, all[c], b.before) == Ties(all, all[c], b.before) && Ties(arrived, all[c], b.before) == []))
  }

  lemma ListedAhead(page: seq<LogEntry>, arrived: seq<LogEntry>, batch: seq<LogEntry>, d: LogEntry, before: Order)
    requires WeakOrder(before)
    requires Filter(page, Ahead(d, before)) == StableSort(Filter(arrived, Ahead(d, before)), before)
    ensures Filter(StableSort(page + batch, before), Ahead(d, before))
      == StableSort(Filter(arrived + batch, Ahead(d, before)), before)
  {
    var ahead := Ahead(d, before);
    FilterOfSort(page + batch, ahead, before);
    FilterConcat(page, batch, ahead);
    FilterConcat(arrived, batch, ahead);
    SortTwice(Filter(arrived, ahead), Filter(batch, ahead), before);
  }

  lemma ListedTies(page: seq<LogEntry>, batch: seq<LogEntry>, d: LogEntry, before: Order)
    requires WeakOrder(before)
    ensures Ties(StableSort(page + batch, before), d, before) == Ties(page, d, before) + Ties(batch, d, before)
  {
    StableSortIsStable(page + batch, d, before);
    FilterConcat(page, batch, TiedWith(d, before));
  }

  lemma ListedBehind(page: seq<LogEntry>, batch: seq<LogEntry>, d: LogEntry, before: Order)
    requires WeakOrder(before)
    ensures Filter(StableSort(page + batch, before), Behind(d, before))
      == StableSort(Filter(page, Behind(d, before)) + Filter(batch, Behind(d, before)), before)
  {
    FilterOfSort(page + batch, Behind(d, before), before);
    FilterConcat(page, batch, Behind(d, before));
  }

  // What precedes all[c] among the arrivals fits together with the ties kept.
  lemma FrontFits(arrived: seq<LogEntry>, all: seq<LogEntry>, c: nat, b: Paging)
    requires WeakOrder(b.before) && Sorted(all, b.before) && c < |all| && c == CutLength(all, b)
    requires multiset(arrived) <= multiset(all)
    ensures 0 <= TiesKept(all, c, b.before) < |Ties(all, all[c], b.before)|
    ensures Fits(StableSort(Filter(arrived, Ahead(all[c], b.before)), b.before)
                 + Ties(all, all[c], b.before)[..TiesKept(all, c, b.before)], b)
    ensures Fits(StableSort(Filter(arrived, Ahead(all[c], b.before)), b.before), b)
  {
    var d, k := all[c], TiesKept(all, c, b.before);
    CutParts(all, c, b.before);
    FilterMonotone(arrived, all, Ahead(d, b.before));
    var f := StableSort(Filter(arrived, Ahead(d, b.before)), b.before);
    StableSortPermutes(Filter(arrived, Ahead(d, b.before)), b.before);
    PartFits(f + Ties(all, d, b.before)[..k], all[..c], b);
    PartFits(f, all[..c], b);
  }

  lemma PrefixWithTies(list: seq<LogEntry>, f: seq<LogEntry>, m: seq<LogEntry>, k: nat, d: LogEntry, before: Order)
    requires WeakOrder(before) && Sorted(list, before)
    requires f == Filter(list, Ahead(d, before)) && m == Ties(list, d, before) && k <= |m|
    ensures |f| + k <= |list| && list[..|f| + k] == f + m[..k]
  {
    var y := Filter(list, Behind(d, before));
    ThreeParts(list, d, before);
    PrefixOfThree(f, m, y, |f| + k);
    Alone(f + m[..k], [], []);
  }

  // The cut of a list keeps what precedes all[c], and its first `k` ties if they were read.
  lemma CutKeeps(list: seq<LogEntry>, f: seq<LogEntry>, m: seq<LogEntry>, k: nat, d: LogEntry, b: Paging)
    requires WeakOrder(b.before) && Sorted(list, b.before)
    requires f == Filter(list, Ahead(d, b.before)) && m == Ties(list, d, b.before) && k <= |m| && Fits(f + m[..k], b)
    ensures |f| + k <= CutLength(list, b)
    ensures k < |m| && CutLength(list, b) == |f| + k ==> !Fits(f + m[..k + 1], b)
  {
    PrefixWithTies(list, f, m, k, d, b.before);
    CutIsLongest(list, b, |f| + k);
    if k < |m| {
      PrefixWithTies(list, f, m, k + 1, d, b.before);
      CutStops(list, b, CutLength(list, b));
    }
  }

  // The page after one more batch, in its three parts.
  lemma DeliverShape(page: seq<LogEntry>, arrived: seq<LogEntry>, batch: seq<LogEntry>, all: seq<LogEntry>, c: nat,
                     b: Paging)
    requires c < |all| && NextBatch(arrived, batch, all, c, b) && Follows(page, arrived, all, c, b)
    ensures var d, list, page' := all[c], StableSort(page + batch, b.before), OneShot(page + batch, b);
      var f := StableSort(Filter(arrived + batch, Ahead(d, b.before)), b.before);
      var m, y, n := Ties(page, d, b.before) + Ties(batch, d, b.before), Filter(list, Behind(d, b.before)),
        CutLength(list, b);
      && Sorted(page', b.before) && Sorted(list, b.before)
      && Filter(list, Ahead(d, b.before)) == Filter(page', Ahead(d, b.before)) == f
      && Ties(list, d, b.before) == m && Ties(page', d, b.before) == MiddleOf(f, m, n)
      && Filter(page', Behind(d, b.before)) == LastOf(f, m, y, n)
      && |f| <= n <= |list| && page' == list[..n] && list == f + m + y
  {
    var d, list := all[c], StableSort(page + batch, b.before);
    ListShape(page, arrived, batch, d, b.before);
    FrontIsKept(page, arrived, batch, all, c, b);
    StableSortSorted(page + batch, b.before);
    PrefixParts(list, CutLength(list, b), d, b.before);
  }

  lemma ListShape(page: seq<LogEntry>, arrived: seq<LogEntry>, batch: seq<LogEntry>, d: LogEntry, before: Order)
    requires WeakOrder(before)
    requires Filter(page, Ahead(d, before)) == StableSort(Filter(arrived, Ahead(d, before)), before)
    ensures var list := StableSort(page + batch, before);
      var f := StableSort(Filter(arrived + batch, Ahead(d, before)), before);
      && Sorted(list, before) && Filter(list, Ahead(d, before)) == f
      && Ties(list, d, before) == Ties(page, d, before) + Ties(batch, d, before)
      && list == f + Ties(list, d, before) + Filter(list, Behind(d, before))
  {
    StableSortSorted(page + batch, before);
    ListedAhead(page, arrived, batch, d, before);
    ListedTies(page, batch, d, before);
    ThreeParts(StableSort(page + batch, before), d, before);
  }

  // The cut leaves everything listed ahead of all[c].
  lemma FrontIsKept(page: seq<LogEntry>, arrived: seq<LogEntry>, batch: seq<LogEntry>, all: seq<LogEntry>, c: nat,
                    b: Paging)
    requires c < |all| && NextBatch(arrived, batch, all, c, b) && Follows(page, arrived, all, c, b)
    ensures |StableSort(Filter(arrived + batch, Ahead(all[c], b.before)), b.before)| <=
      CutLength(StableSort(page + batch, b.before), b)
  {
    var d, list := all[c], StableSort(page + batch, b.before);
    var f := StableSort(Filter(arrived + batch, Ahead(d, b.before)), b.before);
    ListShape(page, arrived, batch, d, b.before);
    FrontFits(arrived + batch, all, c, b);
    assert f + Ties(list, d, b.before)[..0] == f;
    CutKeeps(list, f, Ties(list, d, b.before), 0, d, b);
  }

  // The ties of all[c] among the listed entries are a prefix of all of them.
  lemma TiesOnList(page: seq<LogEntry>, arrived: seq<LogEntry>, batch: seq<LogEntry>, all: seq<LogEntry>, c: nat,
                   b: Paging)
    requires c < |all| && NextBatch(arrived, batch, all, c, b) && Follows(page, arrived, all, c, b)
    ensures var d, k, ties := all[c], TiesKept(all, c, b.before), Ties(all, all[c], b.before);
      var m := Ties(page, d, b.before) + Ties(batch, d, b.before);
      && 0 <= k < |ties| && m <= ties
      && (if Ties(arrived + batch, d, b.before) == [] then m == [] else |m| >= k)
  {
    CutParts(all, c, b.before);
    FilterConcat(arrived, batch, TiedWith(all[c], b.before));
  }

  // What is listed once all[c] has been read: sorted, with everything read ahead of all[c], and ties that
  // are a prefix of all of them and hold those kept.
  lemma ListedParts(page: seq<LogEntry>, arrived: seq<LogEntry>, batch: seq<LogEntry>, all: seq<LogEntry>, c: nat,
                    b: Paging)
    requires c < |all| && NextBatch(arrived, batch, all, c, b) && Follows(page, arrived, all, c, b)
    requires Ties(arrived + batch, all[c], b.before) != []
    ensures var d, k, list := all[c], TiesKept(all, c, b.before), StableSort(page + batch, b.before);
      var f, m := StableSort(Filter(arrived + batch, Ahead(d, b.before)), b.before), Ties(list, d, b.before);
      && Sorted(list, b.before) && Filter(list, Ahead(d, b.before)) == f
      && m == Ties(page, d, b.before) + Ties(batch, d, b.before)
      && 0 <= k <= |m| && k < |Ties(all, d, b.before)| && m <= Ties(all, d, b.before) && Fits(f + m[..k], b)
  {
    var d, k, ties := all[c], TiesKept(all, c, b.before), Ties(all, all[c], b.before);
    var m := Ties(page, d, b.before) + Ties(batch, d, b.before);
    ListShape(page, arrived, batch, d, b.before);
    TiesOnList(page, arrived, batch, all, c, b);
    assert m[..k] == ties[..k];
    FrontFits(arrived + batch, all, c, b);
  }

  // The cut leaves the kept ties, and stops there only if one more is too much ...
  lemma CutLeavesKept(page: seq<LogEntry>, arrived: seq<LogEntry>, batch: seq<LogEntry>, all: seq<LogEntry>, c: nat,
                      b: Paging)
    requires c < |all| && NextBatch(arrived, batch, all, c, b) && Follows(page, arrived, all, c, b)
    requires Ties(arrived + batch, all[c], b.before) != []
    ensures var d, k, ties := all[c], TiesKept(all, c, b.before), Ties(all, all[c], b.before);
      var f, n := StableSort(Filter(arrived + batch, Ahead(d, b.before)), b.before),
        CutLength(StableSort(page + batch, b.before), b);
      && 0 <= k < |ties| && |f| + k <= n
      && (k < |Ties(page, d, b.before) + Ties(batch, d, b.before)| && n == |f| + k ==> !Fits(f + ties[..k + 1], b))
  {
    var d, k, list := all[c], TiesKept(all, c, b.before), StableSort(page + batch, b.before);
    var f, m := Filter(list, Ahead(d, b.before)), Ties(list, d, b.before);
    ListedParts(page, arrived, batch, all, c, b);
    CutKeeps(list, f, m, k, d, b);
    if k < |m| { PrefixOfPrefix(m, Ties(all, d, b.before), k + 1); }
  }

  lemma PrefixOfPrefix<T>(m: seq<T>, ties: seq<T>, k: nat)
    requires m <= ties && k <= |m|
    ensures m[..k] == ties[..k]
  {
  }

  // ... and it is too much if no more ties are listed.
  lemma KeptIsTooMuch(page: seq<LogEntry>, arrived: seq<LogEntry>, batch: seq<LogEntry>, all: seq<LogEntry>, c: nat,
                      b: Paging)
    requires c < |all| && NextBatch(arrived, batch, all, c, b) && Follows(page, arrived, all, c, b)
    requires Ties(arrived + batch, all[c], b.before) != []
    requires |Ties(page, all[c], b.before) + Ties(batch, all[c], b.before)| == TiesKept(all, c, b.before)
    ensures var d, k, ties := all[c], TiesKept(all, c, b.before), Ties(all, all[c], b.before);
      && 0 <= k < |ties|
      && !Fits(StableSort(Filter(arrived + batch, Ahead(d, b.before)), b.before) + ties[..k + 1], b)
  {
    NoMoreTies(page, arrived, batch, all, c, b);
    StillTooMuch(page, arrived, batch, all, c, b);
  }

  // Down to how many ties the cut goes, once all[c] has been read.
  lemma DeliverTies(page: seq<LogEntry>, arrived: seq<LogEntry>, batch: seq<LogEntry>, all: seq<LogEntry>, c: nat,
                    b: Paging)
    requires c < |all| && NextBatch(arrived, batch, all, c, b) && Follows(page, arrived, all, c, b)
    requires Ties(arrived + batch, all[c], b.before) != []
    ensures var d, k, ties := all[c], TiesKept(all, c, b.before), Ties(all, all[c], b.before);
      var f, n := StableSort(Filter(arrived + batch, Ahead(d, b.before)), b.before),
        CutLength(StableSort(page + batch, b.before), b);
      && 0 <= k < |ties| && |f| + k <= n
      && (|Ties(page, d, b.before) + Ties(batch, d, b.before)| == k || n == |f| + k ==> !Fits(f + ties[..k + 1], b))
  {
    var m := Ties(page, all[c], b.before) + Ties(batch, all[c], b.before);
    CutLeavesKept(page, arrived, batch, all, c, b);
    assert |m| >= TiesKept(all, c, b.before) by { TiesOnList(page, arrived, batch, all, c, b); }
    if |m| == TiesKept(all, c, b.before) { KeptIsTooMuch(page, arrived, batch, all, c, b); }
  }

  // If only the kept ties are listed, all[c] had been dropped before.
  lemma NoMoreTies(page: seq<LogEntry>, arrived: seq<LogEntry>, batch: seq<LogEntry>, all: seq<LogEntry>, c: nat,
                   b: Paging)
    requires c < |all| && NextBatch(arrived, batch, all, c, b) && Follows(page, arrived, all, c, b)
    requires Ties(arrived + batch, all[c], b.before) != []
    requires |Ties(page, all[c], b.before) + Ties(batch, all[c], b.before)| == TiesKept(all, c, b.before)
    ensures Ties(batch, all[c], b.before) == [] && Dropped(page, arrived, all, c, b.before)
  {
    TiesOnList(page, arrived, batch, all, c, b);
    FilterConcat(arrived, batch, TiedWith(all[c], b.before));
  }

  lemma DeliverFollows(page: seq<LogEntry>, arrived: seq<LogEntry>, batch: seq<LogEntry>, all: seq<LogEntry>, c: nat,
                       b: Paging)
    requires c < |all| && NextBatch(arrived, batch, all, c, b) && Follows(page, arrived, all, c, b)
    ensures Follows(OneShot(page + batch, b), arrived + batch, all, c, b)
  {
    DeliverShape(page, arrived, batch, all, c, b);
    TiesOnList(page, arrived, batch, all, c, b);
    if Ties(arrived + batch, all[c], b.before) != [] { DeliverTies(page, arrived, batch, all, c, b); }
  }

  lemma StillTooMuch(page: seq<LogEntry>, arrived: seq<LogEntry>, batch: seq<LogEntry>, all: seq<LogEntry>, c: nat,
                     b: Paging)
    requires c < |all| && WeakOrder(b.before) && 0 <= TiesKept(all, c, b.before) < |Ties(all, all[c], b.before)|
    requires Filter(page, Ahead(all[c], b.before)) == StableSort(Filter(arrived, Ahead(all[c], b.before)), b.before)
    requires !Fits(Filter(page, Ahead(all[c], b.before)) +
      Ties(all, all[c], b.before)[..TiesKept(all, c, b.before) + 1], b)
    ensures !Fits(StableSort(Filter(arrived + batch, Ahead(all[c], b.before)), b.before)
                  + Ties(all, all[c], b.before)[..TiesKept(all, c, b.before) + 1], b)
  {
    var ahead, m := Ahead(all[c], b.before), Ties(all, all[c], b.before)[..TiesKept(all, c, b.before) + 1];
    var more := StableSort(Filter(arrived + batch, ahead), b.before);
    FilterMonotone(arrived, arrived + batch, ahead);
    StableSortPermutes(Filter(arrived, ahead), b.before);
    StableSortPermutes(Filter(arrived + batch, ahead), b.before);
    if Fits(more + m, b) { PartFits(Filter(page, ahead) + m, more + m, b); }
  }

  // ---------- which sources can slip in ----------

  // A source that can arrive after all[c] was dropped, with an entry that takes the room: it does not
  // hold all[c], the list down to all[c] is too much without it, and its first entry behind fits.
  predicate SlipsIn(batch: seq<LogEntry>, all: seq<LogEntry>, c: nat, b: Paging)
    requires c < |all|
  {
    var later := Filter(StableSort(batch, b.before), Behind(all[c], b.before));
    && all[c] !in batch
    && !Fits(Filter(all[..c + 1], Outside(batch)), b)
    && later != [] && Fits(all[..c] + [later[0]], b)
  }

  // Behind a dropped all[c] there is only what does not fit once everything is read.
  ghost predicate Quiet(page: seq<LogEntry>, arrived: seq<LogEntry>, all: seq<LogEntry>, c: nat, b: Paging)
    requires c < |all|
  {
    var y := Filter(page, Behind(all[c], b.before));
    Dropped(page, arrived, all, c, b.before) ==> y == [] || !Fits(all[..c] + [y[0]], b)
  }

  lemma HeadOf(q: seq<LogEntry>, x: LogEntry, before: Order)
    requires WeakOrder(before) && Sorted(q, before) && x in q
    requires Ties(q, x, before) != [] && Ties(q, x, before)[0] == x && forall y | y in q :: !before(y, x)
    ensures q[0] == x
  {
    FilterMembers(q, TiedWith(x, before));
    var i :| 0 <= i < |q| && q[i] == x;
    assert q[0] in q && (i == 0 || !before(x, q[0]));
    assert Tie(q[0], x, before);
    assert q == [q[0]] + q[1..];
  }

  // The first of two merged lists is the first of one of them.
  lemma FirstOfMerge(u: seq<LogEntry>, v: seq<LogEntry>, before: Order)
    requires WeakOrder(before) && Sorted(u, before) && u + v != []
    ensures var x := StableSort(u + v, before)[0]; (u != [] && x == u[0]) || (v != [] && x == StableSort(v, before)[0])
  {
    var q, w := StableSort(u + v, before), StableSort(v, before);
    var x := q[0];
    StableSortSorted(u + v, before);
    StableSortSorted(v, before);
    StableSortPermutes(u + v, before);
    StableSortPermutes(v, before);
    StableSortIsStable(u + v, x, before);
    StableSortIsStable(v, x, before);
    FilterConcat(u, v, TiedWith(x, before));
    assert Ties(q, x, before)[0] == x;
    forall y | y in u || y in v ensures !before(y, x) {
      assert y in multiset(u + v);
      assert y in multiset(q);
      assert y in q;
    }
    if Ties(u, x, before) != [] {
      FilterMembers(u, TiedWith(x, before));
      HeadOf(u, x, before);
    } else {
      FilterMembers(w, TiedWith(x, before));
      forall y | y in w ensures !before(y, x) {
        assert y in multiset(w);
        assert y in multiset(v);
        assert y in v;
      }
      HeadOf(w, x, before);
    }
  }

  lemma SubOutside(u: seq<LogEntry>, v: seq<LogEntry>, batch: seq<LogEntry>)
    requires multiset(u) <= multiset(v) && forall x | x in u :: x !in batch
    ensures multiset(u) <= multiset(Filter(v, Outside(batch)))
  {
    var kept := Filter(v, Outside(batch));
    forall x | x in multiset(u) ensures multiset(u)[x] <= multiset(kept)[x] { FilterCounts(v, Outside(batch), x); }
  }

  // Nothing of a source that is still to come has been counted against all[c].
  lemma CountedOutside(arrived: seq<LogEntry>, batch: seq<LogEntry>, all: seq<LogEntry>, c: nat, b: Paging)
    requires c < |all| && NextBatch(arrived, batch, all, c, b) && Ties(batch, all[c], b.before) == []
    requires forall x | x in arrived :: x !in batch
    ensures var k := TiesKept(all, c, b.before);
      && 0 <= k < |Ties(all, all[c], b.before)|
      && multiset(StableSort(Filter(arrived, Ahead(all[c], b.before)), b.before) + Ties(all, all[c], b.before)[..k + 1])
        <= multiset(Filter(all[..c + 1], Outside(batch)))
  {
    var ahead, k, ties := Ahead(all[c], b.before), TiesKept(all, c, b.before), Ties(all, all[c], b.before);
    var f := StableSort(Filter(arrived, ahead), b.before);
    CutParts(all, c, b.before);
    StableSortPermutes(Filter(arrived, ahead), b.before);
    FilterMonotone(arrived, all, ahead);
    FilterMembers(all, TiedWith(all[c], b.before));
    FilterMembers(batch, TiedWith(all[c], b.before));
    FilterMembers(arrived, ahead);
    forall x | x in f + ties[..k + 1] ensures x !in batch {
      if x in f {
        assert x in multiset(f);
        assert x in Filter(arrived, ahead);
      } else {
        assert x in ties;
      }
    }
    SubOutside(f + ties[..k + 1], all[..c + 1], batch);
  }

  // The first entry behind a dropped all[c] stays one that will not fit.
  lemma DeliverQuiet(page: seq<LogEntry>, arrived: seq<LogEntry>, batch: seq<LogEntry>, all: seq<LogEntry>, c: nat,
                     b: Paging)
    requires c < |all| && NextBatch(arrived, batch, all, c, b) && Follows(page, arrived, all, c, b)
    requires forall x | x in arrived :: x !in batch
    requires Quiet(page, arrived, all, c, b) && !SlipsIn(batch, all, c, b)
    ensures Quiet(OneShot(page + batch, b), arrived + batch, all, c, b)
  {
    var d, k, list, page' := all[c], TiesKept(all, c, b.before), StableSort(page + batch, b.before),
      OneShot(page + batch, b);
    DeliverShape(page, arrived, batch, all, c, b);
    if Dropped(page', arrived + batch, all, c, b.before) && Filter(page', Behind(d, b.before)) != [] {
      assert |Ties(page, d, b.before) + Ties(batch, d, b.before)| == k;
      NoMoreTies(page, arrived, batch, all, c, b);
      ListedBehind(page, batch, d, b.before);
      FilterSorted(page, Behind(d, b.before), b.before);
      FirstOfMerge(Filter(page, Behind(d, b.before)), Filter(batch, Behind(d, b.before)), b.before);
      FilterOfSort(batch, Behind(d, b.before), b.before);
      LateSource(page, arrived, batch, all, c, b);
    }
  }

  // A source read after all[c] was dropped brings nothing that would fit behind it.
  lemma LateSource(page: seq<LogEntry>, arrived: seq<LogEntry>, batch: seq<LogEntry>, all: seq<LogEntry>, c: nat,
                   b: Paging)
    requires c < |all| && NextBatch(arrived, batch, all, c, b) && Follows(page, arrived, all, c, b)
    requires forall x | x in arrived :: x !in batch
    requires Dropped(page, arrived, all, c, b.before) && !SlipsIn(batch, all, c, b)
    ensures var later := Filter(StableSort(batch, b.before), Behind(all[c], b.before));
      later == [] || !Fits(all[..c] + [later[0]], b)
  {
    TooMuchOutside(page, arrived, batch, all, c, b);
    UntiedIsOutside(batch, all[c], b.before);
    TakesNoRoom(batch, all, c, b);
  }

  lemma DroppedTooMuch(page: seq<LogEntry>, arrived: seq<LogEntry>, all: seq<LogEntry>, c: nat, b: Paging)
    requires c < |all| && Follows(page, arrived, all, c, b) && Dropped(page, arrived, all, c, b.before)
    ensures var f, k := StableSort(Filter(arrived, Ahead(all[c], b.before)), b.before), TiesKept(all, c, b.before);
      && Ties(arrived, all[c], b.before) != [] && 0 <= k < |Ties(all, all[c], b.before)|
      && !Fits(f + Ties(all, all[c], b.before)[..k + 1], b)
  {
  }

  lemma UntiedIsOutside(batch: seq<LogEntry>, d: LogEntry, before: Order)
    requires WeakOrder(before) && Ties(batch, d, before) == []
    ensures d !in batch
  {
    FilterMembers(batch, TiedWith(d, before));
    assert Tie(d, d, before);
  }

  lemma TakesNoRoom(batch: seq<LogEntry>, all: seq<LogEntry>, c: nat, b: Paging)
    requires c < |all| && all[c] !in batch && !Fits(Filter(all[..c + 1], Outside(batch)), b)
    requires !SlipsIn(batch, all, c, b)
    ensures var later := Filter(StableSort(batch, b.before), Behind(all[c], b.before));
      later == [] || !Fits(all[..c] + [later[0]], b)
  {
  }

  // Behind a dropped all[c], the list down to all[c] is too much without what is still to come.
  lemma TooMuchOutside(page: seq<LogEntry>, arrived: seq<LogEntry>, batch: seq<LogEntry>, all: seq<LogEntry>, c: nat,
                       b: Paging)
    requires c < |all| && NextBatch(arrived, batch, all, c, b) && Follows(page, arrived, all, c, b)
    requires forall x | x in arrived :: x !in batch
    requires Dropped(page, arrived, all, c, b.before)
    ensures Ties(batch, all[c], b.before) == [] && !Fits(Filter(all[..c + 1], Outside(batch)), b)
  {
    var f, k := StableSort(Filter(arrived, Ahead(all[c], b.before)), b.before), TiesKept(all, c, b.before);
    DroppedTooMuch(page, arrived, all, c, b);
    CountedOutside(arrived, batch, all, c, b);
    TooMuchIn(f + Ties(all, all[c], b.before)[..k + 1], Filter(all[..c + 1], Outside(batch)), b);
  }

  lemma TooMuchIn(u: seq<LogEntry>, v: seq<LogEntry>, b: Paging)
    requires multiset(u) <= multiset(v) && !Fits(u, b)
    ensures !Fits(v, b)
  {
    if Fits(v, b) { PartFits(u, v, b); }
  }

  // ---------- a whole delivery ----------

  // What an order of the results is assumed to be.
  ghost predicate Delivery(order: seq<ReadResult>, all: seq<LogEntry>, c: nat, b: Paging) {
    && WeakOrder(b.before) && TiesStayInSource(multiset(order), b.before)
    && all == StableSort(Arrivals(order), b.before) && c == CutLength(all, b) && c < |all|
  }

  lemma MergedStep(order: seq<ReadResult>, i: nat, b: Paging)
    requires i < |order| && WeakOrder(b.before)
    ensures Merged(order[..i + 1], b) == OneShot(Merged(order[..i], b) + Entries(order[i]), b)
  {
    assert order[..i + 1][..i] == order[..i];
    if order[i].Unavailable? {
      assert Merged(order[..i], b) + [] == Merged(order[..i], b);
      SortedOnceMore(order[..i], b);
    }
  }

  lemma DeliveryStep(order: seq<ReadResult>, i: nat, all: seq<LogEntry>, c: nat, b: Paging)
    requires Delivery(order, all, c, b) && i < |order|
    ensures NextBatch(Arrivals(order[..i]), Entries(order[i]), all, c, b)
    ensures forall x | x in Arrivals(order[..i]) :: x !in Entries(order[i])
    ensures Arrivals(order[..i + 1]) == Arrivals(order[..i]) + Entries(order[i])
  {
    ArrivalsMore(order, i);
    StableSortSorted(Arrivals(order), b.before);
    StableSortPermutes(Arrivals(order), b.before);
    StableSortIsStable(Arrivals(order), all[c], b.before);
    if Ties(Entries(order[i]), all[c], b.before) != [] { TiesOfSource(order, i, all[c], b.before); }
    forall x | x in Arrivals(order[..i]) ensures x !in Entries(order[i]) {
      if x in Entries(order[i]) {
        FilterMembers(Entries(order[i]), TiedWith(x, b.before));
        FilterMembers(Arrivals(order[..i]), TiedWith(x, b.before));
        assert x in Ties(Entries(order[i]), x, b.before) && x in Ties(Arrivals(order[..i]), x, b.before);
        TiesOfSource(order, i, x, b.before);
      }
    }
  }

  ghost predicate NobodySlipsIn(order: seq<ReadResult>, all: seq<LogEntry>, c: nat, b: Paging)
    requires c < |all|
  {
    forall r | r in order :: !SlipsIn(Entries(r), all, c, b)
  }

  lemma FollowsStep(order: seq<ReadResult>, i: nat, all: seq<LogEntry>, c: nat, b: Paging)
    requires Delivery(order, all, c, b) && i < |order|
    requires Follows(Merged(order[..i], b), Arrivals(order[..i]), all, c, b)
    ensures Follows(Merged(order[..i + 1], b), Arrivals(order[..i + 1]), all, c, b)
  {
    DeliveryStep(order, i, all, c, b);
    MergedStep(order, i, b);
    DeliverFollows(Merged(order[..i], b), Arrivals(order[..i]), Entries(order[i]), all, c, b);
  }

  lemma FollowsEmpty(all: seq<LogEntry>, c: nat, b: Paging)
    requires c < |all|
    ensures Follows(Merged([], b), Arrivals([]), all, c, b)
  {
  }

  lemma {:induction false} DeliveryFollows(order: seq<ReadResult>, i: nat, all: seq<LogEntry>, c: nat, b: Paging)
    requires Delivery(order, all, c, b) && i <= |order|
    ensures Follows(Merged(order[..i], b), Arrivals(order[..i]), all, c, b)
  {
    if i == 0 {
      assert order[..0] == [];
      FollowsEmpty(all, c, b);
    } else {
      DeliveryFollows(order, i - 1, all, c, b);
      FollowsStep(order, i - 1, all, c, b);
    }
  }

  lemma QuietStep(order: seq<ReadResult>, i: nat, all: seq<LogEntry>, c: nat, b: Paging)
    requires Delivery(order, all, c, b) && i < |order| && !SlipsIn(Entries(order[i]), all, c, b)
    requires Quiet(Merged(order[..i], b), Arrivals(order[..i]), all, c, b)
    ensures Quiet(Merged(order[..i + 1], b), Arrivals(order[..i + 1]), all, c, b)
  {
    DeliveryFollows(order, i, all, c, b);
    DeliveryStep(order, i, all, c, b);
    MergedStep(order, i, b);
    DeliverQuiet(Merged(order[..i], b), Arrivals(order[..i]), Entries(order[i]), all, c, b);
  }

  lemma {:induction false} DeliveryQuiet(order: seq<ReadResult>, i: nat, all: seq<LogEntry>, c: nat, b: Paging)
    requires Delivery(order, all, c, b) && i <= |order| && NobodySlipsIn(order, all, c, b)
    ensures Quiet(Merged(order[..i], b), Arrivals(order[..i]), all, c, b)
  {
    if i == 0 {
      assert order[..0] == [];
    } else {
      DeliveryQuiet(order, i - 1, all, c, b);
      assert order[i - 1] in order;
      QuietStep(order, i - 1, all, c, b);
    }
  }

  // A page that fits, down to the ties kept, with nothing behind that would fit, ends there.
  lemma PageEnds(page: seq<LogEntry>, f: seq<LogEntry>, m: seq<LogEntry>, y: seq<LogEntry>,
                 ties: seq<LogEntry>, k: nat, kept: seq<LogEntry>, b: Paging)
    requires page == f + m + y && Fits(page, b) && m <= ties && k <= |m| && k < |ties| && kept == f + ties[..k]
    requires !Fits(f + ties[..k + 1], b)
    requires |m| == k && y != [] ==> !Fits(kept + [y[0]], b)
    ensures page == kept
  {
    var c := |f| + k;
    assert page[..|page|] == page;
    if |m| > k {
      assert page[..c + 1] == f + ties[..k + 1];
      PrefixFits(page, b, |page|, c + 1);
    } else if y != [] {
      assert page[..c + 1] == kept + [y[0]];
      PrefixFits(page, b, |page|, c + 1);
    }
  }

  // The cut of the sorted list, by the ties of all[c].
  ghost predicate CutAt(all: seq<LogEntry>, c: nat, f: seq<LogEntry>, b: Paging)
    requires c < |all|
  {
    var k, ties := TiesKept(all, c, b.before), Ties(all, all[c], b.before);
    0 <= k < |ties| && all[..c] == f + ties[..k] && !Fits(f + ties[..k + 1], b)
  }

  // A page that fits, by the same ties: it holds at least those kept.
  ghost predicate PageAt(page: seq<LogEntry>, all: seq<LogEntry>, c: nat, f: seq<LogEntry>, b: Paging)
    requires c < |all|
  {
    var m, k := Ties(page, all[c], b.before), TiesKept(all, c, b.before);
    && page == f + m + Filter(page, Behind(all[c], b.before)) && Fits(page, b)
    && m <= Ties(all, all[c], b.before) && k <= |m|
  }

  ghost predicate NothingMoreFits(page: seq<LogEntry>, all: seq<LogEntry>, c: nat, b: Paging)
    requires c < |all|
  {
    var m, y := Ties(page, all[c], b.before), Filter(page, Behind(all[c], b.before));
    |m| == TiesKept(all, c, b.before) && y != [] ==> !Fits(all[..c] + [y[0]], b)
  }

  lemma PageIsCut(page: seq<LogEntry>, all: seq<LogEntry>, c: nat, f: seq<LogEntry>, b: Paging)
    requires c < |all| && CutAt(all, c, f, b) && PageAt(page, all, c, f, b) && NothingMoreFits(page, all, c, b)
    ensures page == all[..c]
  {
    PageEnds(page, f, Ties(page, all[c], b.before), Filter(page, Behind(all[c], b.before)),
             Ties(all, all[c], b.before), TiesKept(all, c, b.before), all[..c], b);
  }

  function FrontOf(order: seq<ReadResult>, d: LogEntry, before: Order): seq<LogEntry> {
    StableSort(Filter(Arrivals(order), Ahead(d, before)), before)
  }

  lemma CutOfDelivery(order: seq<ReadResult>, all: seq<LogEntry>, c: nat, b: Paging)
    requires Delivery(order, all, c, b)
    ensures CutAt(all, c, FrontOf(order, all[c], b.before), b)
  {
    StableSortSorted(Arrivals(order), b.before);
    FilterOfSort(Arrivals(order), Ahead(all[c], b.before), b.before);
    CutParts(all, c, b.before);
    CutStops(all, b, c);
  }

  lemma AllTiesArrive(order: seq<ReadResult>, all: seq<LogEntry>, c: nat, b: Paging)
    requires Delivery(order, all, c, b)
    ensures Ties(Arrivals(order), all[c], b.before) == Ties(all, all[c], b.before) != []
  {
    StableSortSorted(Arrivals(order), b.before);
    StableSortIsStable(Arrivals(order), all[c], b.before);
    CutParts(all, c, b.before);
  }

  lemma PageOfDelivery(order: seq<ReadResult>, all: seq<LogEntry>, c: nat, b: Paging)
    requires Delivery(order, all, c, b)
    ensures PageAt(Merged(order, b), all, c, FrontOf(order, all[c], b.before), b)
  {
    assert Follows(Merged(order, b), Arrivals(order), all, c, b) by {
      assert order[..|order|] == order;
      DeliveryFollows(order, |order|, all, c, b);
    }
    MergedFits(order, b);
    AllTiesArrive(order, all, c, b);
    ThreeParts(Merged(order, b), all[c], b.before);
  }

  lemma NothingMoreOfDelivery(order: seq<ReadResult>, all: seq<LogEntry>, c: nat, b: Paging)
    requires Delivery(order, all, c, b) && NobodySlipsIn(order, all, c, b)
    ensures NothingMoreFits(Merged(order, b), all, c, b)
  {
    AllTiesArrive(order, all, c, b);
    assert Quiet(Merged(order, b), Arrivals(order), all, c, b) by {
      assert order[..|order|] == order;
      DeliveryQuiet(order, |order|, all, c, b);
    }
  }

  // If no source can slip in, the delivery gives the page of one sort and one cut.
  lemma QuietDelivery(order: seq<ReadResult>, all: seq<LogEntry>, c: nat, b: Paging)
    requires Delivery(order, all, c, b) && NobodySlipsIn(order, all, c, b)
    ensures Merged(order, b) == all[..c]
  {
    CutOfDelivery(order, all, c, b);
    PageOfDelivery(order, all, c, b);
    NothingMoreOfDelivery(order, all, c, b);
    PageIsCut(Merged(order, b), all, c, FrontOf(order, all[c], b.before), b);
  }

  // ---------- orders that drop all[c], and orders that let a source slip in behind it ----------

  // When the source of all[c] arrives and the list down to all[c] is too much, the page ends there.
  lemma DropsNow(order: seq<ReadResult>, i: nat, all: seq<LogEntry>, c: nat, b: Paging)
    requires Delivery(order, all, c, b) && i < |order| && all[c] in Entries(order[i])
    requires 0 <= TiesKept(all, c, b.before) < |Ties(all, all[c], b.before)|
    requires !Fits(StableSort(Filter(Arrivals(order[..i + 1]), Ahead(all[c], b.before)), b.before)
                   + Ties(all, all[c], b.before)[..TiesKept(all, c, b.before) + 1], b)
    ensures Merged(order[..i + 1], b) ==
      StableSort(Filter(Arrivals(order[..i + 1]), Ahead(all[c], b.before)), b.before)
      + Ties(all, all[c], b.before)[..TiesKept(all, c, b.before)]
  {
    var page, arrived, batch := Merged(order[..i], b), Arrivals(order[..i]), Entries(order[i]);
    var d, k, ties := all[c], TiesKept(all, c, b.before), Ties(all, all[c], b.before);
    FilterMembers(batch, TiedWith(d, b.before));
    assert d in Ties(batch, d, b.before);
    DeliveryFollows(order, i, all, c, b);
    DeliveryStep(order, i, all, c, b);
    MergedStep(order, i, b);
    DropsList(page, arrived, batch, all, c, b);
  }

  lemma CutExactly(list: seq<LogEntry>, f: seq<LogEntry>, m: seq<LogEntry>, y: seq<LogEntry>, k: nat, b: Paging)
    requires list == f + m + y && k < |m| && Fits(f + m[..k], b) && !Fits(f + m[..k + 1], b)
    ensures Cut(list, b) == f + m[..k]
  {
    assert list[..|f| + k] == f + m[..k] && list[..|f| + k + 1] == f + m[..k + 1];
    CutStops(list, b, |f| + k);
  }

  lemma FirstTies(page: seq<LogEntry>, arrived: seq<LogEntry>, batch: seq<LogEntry>, all: seq<LogEntry>, c: nat,
                  b: Paging)
    requires c < |all| && NextBatch(arrived, batch, all, c, b) && Follows(page, arrived, all, c, b)
    requires Ties(batch, all[c], b.before) != []
    ensures Ties(page, all[c], b.before) + Ties(batch, all[c], b.before) == Ties(all, all[c], b.before)
  {
  }

  lemma DropsList(page: seq<LogEntry>, arrived: seq<LogEntry>, batch: seq<LogEntry>, all: seq<LogEntry>, c: nat,
                  b: Paging)
    requires c < |all| && NextBatch(arrived, batch, all, c, b) && Follows(page, arrived, all, c, b)
    requires Ties(batch, all[c], b.before) != [] && 0 <= TiesKept(all, c, b.before) < |Ties(all, all[c], b.before)|
    requires !Fits(StableSort(Filter(arrived + batch, Ahead(all[c], b.before)), b.before)
                   + Ties(all, all[c], b.before)[..TiesKept(all, c, b.before) + 1], b)
    ensures OneShot(page + batch, b) == StableSort(Filter(arrived + batch, Ahead(all[c], b.before)), b.before)
                                        + Ties(all, all[c], b.before)[..TiesKept(all, c, b.before)]
  {
    var list, ties := StableSort(page + batch, b.before), Ties(all, all[c], b.before);
    var f := StableSort(Filter(arrived + batch, Ahead(all[c], b.before)), b.before);
    var y := Filter(list, Behind(all[c], b.before));
    assert list == f + ties + y by {
      DeliverShape(page, arrived, batch, all, c, b);
      FirstTies(page, arrived, batch, all, c, b);
    }
    assert Fits(f + ties[..TiesKept(all, c, b.before)], b) by { FrontFits(arrived + batch, all, c, b); }
    CutExactly(list, f, ties, y, TiesKept(all, c, b.before), b);
  }

  // Everything read, up to all[c] and through it.
  lemma WholeList(arrivals: seq<LogEntry>, all: seq<LogEntry>, c: nat, before: Order)
    requires WeakOrder(before) && all == StableSort(arrivals, before) && c < |all|
    ensures var f, k := StableSort(Filter(arrivals, Ahead(all[c], before)), before), TiesKept(all, c, before);
      && 0 <= k < |Ties(all, all[c], before)|
      && all[..c] == f + Ties(all, all[c], before)[..k]
      && all[..c + 1] == f + Ties(all, all[c], before)[..k + 1]
  {
    StableSortSorted(arrivals, before);
    FilterOfSort(arrivals, Ahead(all[c], before), before);
    CutParts(all, c, before);
  }

  // With the source of all[c] last, the page is that of one sort and one cut.
  lemma CutSourceLast(order: seq<ReadResult>, n: nat, all: seq<LogEntry>, c: nat, b: Paging)
    requires Delivery(order, all, c, b) && |order| == n + 1 && all[c] in Entries(order[n])
    ensures Merged(order, b) == all[..c]
  {
    assert order[..n + 1] == order;
    WholeList(Arrivals(order), all, c, b.before);
    CutStops(all, b, c);
    DropsNow(order, n, all, c, b);
  }

  lemma LeftOver(arrived: seq<LogEntry>, batch: seq<LogEntry>, all: seq<LogEntry>)
    requires multiset(all) == multiset(arrived + batch)
    ensures multiset(Filter(all, Outside(batch))) <= multiset(arrived)
  {
    var kept := Filter(all, Outside(batch));
    forall x | x in multiset(kept) ensures multiset(kept)[x] <= multiset(arrived)[x] {
      FilterCounts(all, Outside(batch), x);
      assert multiset(all)[x] == multiset(arrived)[x] + multiset(batch)[x];
    }
  }

  // What does not fit without a late source does not fit before it is read.
  lemma TooMuchWithout(arrived: seq<LogEntry>, batch: seq<LogEntry>, all: seq<LogEntry>, c: nat, b: Paging)
    requires WeakOrder(b.before) && Sorted(all, b.before) && c < |all| && multiset(all) == multiset(arrived + batch)
    requires !Fits(Filter(all[..c + 1], Outside(batch)), b)
    ensures 0 <= TiesKept(all, c, b.before) < |Ties(all, all[c], b.before)|
    ensures !Fits(StableSort(Filter(arrived, Ahead(all[c], b.before)), b.before)
                  + Ties(all, all[c], b.before)[..TiesKept(all, c, b.before) + 1], b)
  {
    var ahead, outside := Ahead(all[c], b.before), Outside(batch);
    CutParts(all, c, b.before);
    var ties := Ties(all, all[c], b.before)[..TiesKept(all, c, b.before) + 1];
    var f := StableSort(Filter(arrived, ahead), b.before);
    StableSortPermutes(Filter(arrived, ahead), b.before);
    FilterConcat(Filter(all, ahead), ties, outside);
    FilterCommutes(all, ahead, outside);
    LeftOver(arrived, batch, all);
    FilterMonotone(Filter(all, outside), arrived, ahead);
    FilterSub(ties, outside);
    if Fits(f + ties, b) { PartFits(Filter(all[..c + 1], outside), f + ties, b); }
  }

  lemma FilterSub(s: seq<LogEntry>, keep: LogEntry -> bool)
    ensures multiset(Filter(s, keep)) <= multiset(s)
  {
    forall x | x in multiset(Filter(s, keep)) ensures multiset(Filter(s, keep))[x] <= multiset(s)[x] {
      FilterCounts(s, keep, x);
    }
  }

  lemma RoomTaken(list: seq<LogEntry>, head: seq<LogEntry>, later: seq<LogEntry>, b: Paging)
    requires list == head + later && later != [] && Fits(head + [later[0]], b)
    ensures |head| < |Cut(list, b)|
  {
    assert list[..|head| + 1] == head + [later[0]];
    CutIsLongest(list, b, |head| + 1);
  }

  lemma LastTakesRoom(page: seq<LogEntry>, arrived: seq<LogEntry>, batch: seq<LogEntry>, all: seq<LogEntry>, c: nat,
                      b: Paging)
    requires c < |all| && NextBatch(arrived, batch, all, c, b) && Follows(page, arrived, all, c, b)
    requires all == StableSort(arrived + batch, b.before) && SlipsIn(batch, all, c, b)
    requires Ties(batch, all[c], b.before) == [] && 0 <= TiesKept(all, c, b.before) < |Ties(all, all[c], b.before)|
    requires page == StableSort(Filter(arrived, Ahead(all[c], b.before)), b.before)
                     + Ties(all, all[c], b.before)[..TiesKept(all, c, b.before)]
    ensures c < |OneShot(page + batch, b)|
  {
    var list, later := StableSort(page + batch, b.before),
      Filter(StableSort(batch, b.before), Behind(all[c], b.before));
    assert list == all[..c] + later by { LastList(page, arrived, batch, all, c, b); }
    RoomTaken(list, all[..c], later, b);
  }

  lemma LastList(page: seq<LogEntry>, arrived: seq<LogEntry>, batch: seq<LogEntry>, all: seq<LogEntry>, c: nat,
                 b: Paging)
    requires c < |all| && NextBatch(arrived, batch, all, c, b) && Follows(page, arrived, all, c, b)
    requires all == StableSort(arrived + batch, b.before)
    requires Ties(batch, all[c], b.before) == [] && 0 <= TiesKept(all, c, b.before) < |Ties(all, all[c], b.before)|
    requires page == StableSort(Filter(arrived, Ahead(all[c], b.before)), b.before)
                     + Ties(all, all[c], b.before)[..TiesKept(all, c, b.before)]
    ensures StableSort(page + batch, b.before) ==
      all[..c] + Filter(StableSort(batch, b.before), Behind(all[c], b.before))
  {
    var d, ahead, behind, list :=
      all[c], Ahead(all[c], b.before), Behind(all[c], b.before), StableSort(page + batch, b.before);
    var m := Ties(all, d, b.before)[..TiesKept(all, c, b.before)];
    assert Filter(page, behind) == [] && Ties(page, d, b.before) == m by {
      NothingBehind(StableSort(Filter(arrived, ahead), b.before), m, arrived, all, d, b.before);
    }
    assert Filter(list, behind) == Filter(StableSort(batch, b.before), behind) by {
      ListedBehind(page, batch, d, b.before);
      FilterOfSort(batch, behind, b.before);
      assert [] + Filter(batch, behind) == Filter(batch, behind);
    }
    assert list == StableSort(Filter(arrived + batch, ahead), b.before) + (m + []) + Filter(list, behind) by {
      DeliverShape(page, arrived, batch, all, c, b);
    }
    WholeList(arrived + batch, all, c, b.before);
    assert m + [] == m;
  }

  lemma NoTieInSource(order: seq<ReadResult>, i: nat, j: nat, x: LogEntry, before: Order)
    requires WeakOrder(before) && TiesStayInSource(multiset(order), before)
    requires i < |order| && j < |order| && i != j && x in Entries(order[i])
    ensures Ties(Entries(order[j]), x, before) == []
  {
    FilterMembers(Entries(order[i]), TiedWith(x, before));
    assert x in Ties(Entries(order[i]), x, before);
    OthersDoNotTie(order, i, j, x, before);
  }

  // The page before the last source, which the list down to all[c] is too much without.
  lemma BeforeLast(order: seq<ReadResult>, n: nat, all: seq<LogEntry>, c: nat, b: Paging)
    requires Delivery(order, all, c, b) && |order| == n + 2
    requires all[c] in Entries(order[n]) && !Fits(Filter(all[..c + 1], Outside(Entries(order[n + 1]))), b)
    ensures 0 <= TiesKept(all, c, b.before) < |Ties(all, all[c], b.before)|
    ensures Merged(order[..n + 1], b) == StableSort(Filter(Arrivals(order[..n + 1]), Ahead(all[c], b.before)), b.before)
                                         + Ties(all, all[c], b.before)[..TiesKept(all, c, b.before)]
  {
    assert order[..n + 2] == order;
    ArrivalsMore(order, n + 1);
    StableSortSorted(Arrivals(order), b.before);
    StableSortPermutes(Arrivals(order), b.before);
    TooMuchWithout(Arrivals(order[..n + 1]), Entries(order[n + 1]), all, c, b);
    DropsNow(order, n, all, c, b);
  }

  // With the source of all[c] last but one and such a source last, an entry takes the room.
  lemma LateSourceSlips(order: seq<ReadResult>, n: nat, all: seq<LogEntry>, c: nat, b: Paging)
    requires Delivery(order, all, c, b) && |order| == n + 2
    requires all[c] in Entries(order[n]) && SlipsIn(Entries(order[n + 1]), all, c, b)
    ensures c < |Merged(order, b)|
  {
    BeforeLast(order, n, all, c, b);
    DeliveryFollows(order, n + 1, all, c, b);
    NoTieInSource(order, n, n + 1, all[c], b.before);
    LastStep(order, n + 1, all, c, b);
    LastTakesRoom(Merged(order[..n + 1], b), Arrivals(order[..n + 1]), Entries(order[n + 1]), all, c, b);
  }

  lemma LastStep(order: seq<ReadResult>, i: nat, all: seq<LogEntry>, c: nat, b: Paging)
    requires Delivery(order, all, c, b) && |order| == i + 1
    ensures NextBatch(Arrivals(order[..i]), Entries(order[i]), all, c, b)
    ensures all == StableSort(Arrivals(order[..i]) + Entries(order[i]), b.before)
    ensures Merged(order, b) == OneShot(Merged(order[..i], b) + Entries(order[i]), b)
  {
    assert order[..i + 1] == order;
    DeliveryStep(order, i, all, c, b);
    MergedStep(order, i, b);
  }

  // A page of entries ahead of `d` and of ties with it, in parts.
  lemma AllAhead(arrived: seq<LogEntry>, d: LogEntry, before: Order)
    ensures forall x | x in StableSort(Filter(arrived, Ahead(d, before)), before) :: before(x, d)
  {
    var ahead := Filter(arrived, Ahead(d, before));
    StableSortPermutes(ahead, before);
    FilterMembers(arrived, Ahead(d, before));
    forall x | x in StableSort(ahead, before) ensures before(x, d) {
      assert x in multiset(StableSort(ahead, before));
      assert x in ahead;
    }
  }

  lemma NothingBehind(f: seq<LogEntry>, m: seq<LogEntry>, arrived: seq<LogEntry>, all: seq<LogEntry>, d: LogEntry,
                      before: Order)
    requires WeakOrder(before) && f == StableSort(Filter(arrived, Ahead(d, before)), before)
    requires m <= Ties(all, d, before)
    ensures Filter(f + m, Behind(d, before)) == [] && Ties(f + m, d, before) == m
  {
    AllAhead(arrived, d, before);
    FilterMembers(all, TiedWith(d, before));
    forall x | x in m ensures Tie(x, d, before) { assert x in Ties(all, d, before); }
    PartsOfConcat(f, m, [], d, before);
    assert f + m + [] == f + m;
  }

  // ---------- the page over all completion orders ----------

  predicate Reorders(order: seq<ReadResult>, results: seq<ReadResult>) {
    multiset(order) == multiset(results)
  }

  // Nothing is left out, or no source can arrive behind the first entry left out and take its room.
  ghost predicate OrderFree(results: seq<ReadResult>, b: Paging) {
    var all := StableSort(Arrivals(results), b.before);
    var c := CutLength(all, b);
    c < |all| ==> NobodySlipsIn(results, all, c, b)
  }

  // Every delivery is read against the same sorted list.
  lemma ReorderIsDelivery(order: seq<ReadResult>, results: seq<ReadResult>, b: Paging)
    requires WeakOrder(b.before) && TiesStayInSource(multiset(results), b.before) && Reorders(order, results)
    ensures var all := StableSort(Arrivals(results), b.before);
      StableSort(Arrivals(order), b.before) == all &&
      (CutLength(all, b) < |all| ==> Delivery(order, all, CutLength(all, b), b))
  {
    SameSort(order, results, b.before);
  }

  lemma OrderFreePage(order: seq<ReadResult>, results: seq<ReadResult>, b: Paging)
    requires WeakOrder(b.before) && TiesStayInSource(multiset(results), b.before) && Reorders(order, results)
    requires OrderFree(results, b)
    ensures Merged(order, b) == OneShot(Arrivals(results), b)
  {
    var all := StableSort(Arrivals(results), b.before);
    var c := CutLength(all, b);
    ReorderIsDelivery(order, results, b);
    if c < |all| {
      forall r | r in order ensures !SlipsIn(Entries(r), all, c, b) {
        assert r in multiset(order);
        assert r in results;
      }
      QuietDelivery(order, all, c, b);
    } else {
      MergedExtendsOneShot(order, b);
    }
  }

  lemma {:induction false} SourceOf(results: seq<ReadResult>, x: LogEntry) returns (i: nat)
    requires x in Arrivals(results)
    ensures i < |results| && x in Entries(results[i])
  {
    if x in Entries(results[|results| - 1]) {
      i := |results| - 1;
    } else {
      i := SourceOf(results[..|results| - 1], x);
    }
  }

  lemma CutSource(results: seq<ReadResult>, b: Paging) returns (i: nat)
    requires var all := StableSort(Arrivals(results), b.before); CutLength(all, b) < |all|
    ensures i < |results| &&
      var all := StableSort(Arrivals(results), b.before); all[CutLength(all, b)] in Entries(results[i])
  {
    var all := StableSort(Arrivals(results), b.before);
    var d := all[CutLength(all, b)];
    StableSortPermutes(Arrivals(results), b.before);
    assert d in multiset(all);
    assert d in multiset(Arrivals(results));
    i := SourceOf(results, d);
  }

  // The results in an order that ends with those of the given sources.
  ghost predicate EndsWith(order: seq<ReadResult>, results: seq<ReadResult>, last: seq<nat>) {
    && Reorders(order, results) && |last| <= |order| && (forall k | 0 <= k < |last| :: last[k] < |results|)
    && forall k | 0 <= k < |last| :: order[|order| - |last| + k] == results[last[k]]
  }

  // The first entry left out, which source i holds, and a source j that can slip in behind it.
  ghost predicate Rivals(results: seq<ReadResult>, i: nat, j: nat, b: Paging) {
    var all := StableSort(Arrivals(results), b.before);
    var c := CutLength(all, b);
    && i < |results| && j < |results| && i != j && c < |all|
    && all[c] in Entries(results[i]) && SlipsIn(Entries(results[j]), all, c, b)
  }

  // If source j answers last and source i just before, an entry of source j takes the room.
  lemma SlippedDelivery(order: seq<ReadResult>, results: seq<ReadResult>, i: nat, j: nat, b: Paging)
    requires WeakOrder(b.before) && TiesStayInSource(multiset(results), b.before)
    requires Rivals(results, i, j, b) && EndsWith(order, results, [i, j])
    ensures Merged(order, b) != OneShot(Arrivals(results), b)
  {
    var all := StableSort(Arrivals(results), b.before);
    var c, n := CutLength(all, b), |order| - 2;
    assert order[n] == results[i] && order[n + 1] == results[j] by {
      assert order[n] == results[[i, j][0]] && order[n + 1] == results[[i, j][1]];
    }
    ReorderIsDelivery(order, results, b);
    LateSourceSlips(order, n, all, c, b);
    assert |OneShot(Arrivals(results), b)| == c;
  }

  // If source i answers last, nothing does.
  lemma CutLastDelivery(order: seq<ReadResult>, results: seq<ReadResult>, i: nat, j: nat, b: Paging)
    requires WeakOrder(b.before) && TiesStayInSource(multiset(results), b.before)
    requires Rivals(results, i, j, b) && EndsWith(order, results, [j, i])
    ensures Merged(order, b) == OneShot(Arrivals(results), b)
  {
    var all := StableSort(Arrivals(results), b.before);
    var n := |order| - 1;
    ReorderIsDelivery(order, results, b);
    assert order[n] == results[i] by { assert order[n] == results[[j, i][1]]; }
    CutSourceLast(order, n, all, CutLength(all, b), b);
  }

  lemma NotOrderFree(results: seq<ReadResult>, b: Paging) returns (i: nat, j: nat)
    requires !OrderFree(results, b)
    ensures Rivals(results, i, j, b)
  {
    var all := StableSort(Arrivals(results), b.before);
    var c := CutLength(all, b);
    var s :| s in results && SlipsIn(Entries(s), all, c, b);
    j :| 0 <= j < |results| && results[j] == s;
    i := CutSource(results, b);
  }

  lemma PutLast(results: seq<ReadResult>, i: nat, j: nat) returns (order: seq<ReadResult>)
    requires i < |results| && j < |results| && i != j
    ensures EndsWith(order, results, [i, j])
  {
    var l, h := if i < j then i else j, if i < j then j else i;
    var rest, last := WithoutPair(results, l, h), [results[i], results[j]];
    order := rest + last;
    assert multiset(order) == multiset(results) by {
      WithoutPairPermutes(results, l, h);
      assert multiset(last) == multiset{results[l], results[h]};
    }
    assert order[|order| - 2] == last[0] && order[|order| - 1] == last[1];
  }

  ghost predicate SamePages(results: seq<ReadResult>, b: Paging) {
    forall o, p | Reorders(o, results) && Reorders(p, results) :: Merged(o, b) == Merged(p, b)
  }

  ghost predicate OneShotPages(results: seq<ReadResult>, b: Paging) {
    forall o | Reorders(o, results) :: Merged(o, b) == OneShot(Arrivals(results), b)
  }

  // The results give the same page in every order exactly when no source can slip in; that page is
  // then the one of one sort and one cut.
  lemma SamePageForEveryOrder(results: seq<ReadResult>, b: Paging)
    requires WeakOrder(b.before) && TiesStayInSource(multiset(results), b.before)
    ensures SamePages(results, b) <==> OrderFree(results, b)
    ensures OneShotPages(results, b) <==> OrderFree(results, b)
  {
    if OrderFree(results, b) {
      forall o | Reorders(o, results) ensures Merged(o, b) == OneShot(Arrivals(results), b) {
        OrderFreePage(o, results, b);
      }
    } else {
      var i, j := NotOrderFree(results, b);
      var order := PutLast(results, i, j);
      var other := PutLast(results, j, i);
      SlippedDelivery(order, results, i, j, b);
      CutLastDelivery(other, results, i, j, b);
    }
  }

  // A page cut by count, or not at all, never depends on the order: only the byte budget lets entries in.
  lemma CountCutsAreOrderFree(results: seq<ReadResult>, b: Paging)
    requires var all := StableSort(Arrivals(results), b.before);
      CutLength(all, b) == b.limit || CutLength(all, b) == |all|
    ensures OrderFree(results, b)
  {
    var all := StableSort(Arrivals(results), b.before);
    var c := CutLength(all, b);
    if c < |all| {
      forall r | r in results ensures !SlipsIn(Entries(r), all, c, b) {
        var later := Filter(StableSort(Entries(r), b.before), Behind(all[c], b.before));
        if later != [] { assert |all[..c] + [later[0]]| == c + 1; }
      }
    }
  }

  // ---------- three sources whose order matters ----------

  lemma SortedPage(s: seq<LogEntry>, c: nat, b: Paging)
    requires Sorted(s, b.before) && c <= |s| && Fits(s[..c], b) && (c < |s| ==> !Fits(s[..c + 1], b))
    ensures OneShot(s, b) == s[..c]
  {
    SortOfSorted(s, b.before);
    CutStops(s, b, c);
  }

  lemma OneEntry(x: LogEntry, b: Paging)
    requires Fits([x], b)
    ensures OneShot([] + [x], b) == [x]
  {
    assert [] + [x] == [x] && [x][..1] == [x];
    SortedPage([x], 1, b);
  }

  // Three one-entry results, merged in the given order.
  function Singles(x: LogEntry, y: LogEntry, z: LogEntry): seq<ReadResult> {
    [Read([x], false), Read([y], false), Read([z], false)]
  }

  lemma MergedMore(rs: seq<ReadResult>, i: nat, page: seq<LogEntry>, x: LogEntry, b: Paging)
    requires i < |rs| && rs[i] == Read([x], false) && WeakOrder(b.before) && Merged(rs[..i], b) == page
    ensures Merged(rs[..i + 1], b) == OneShot(page + [x], b)
  {
    MergedStep(rs, i, b);
  }

  lemma MergedSingles(x: LogEntry, y: LogEntry, z: LogEntry, b: Paging)
    requires WeakOrder(b.before) && Fits([x], b)
    ensures Merged(Singles(x, y, z), b) == OneShot(OneShot([x] + [y], b) + [z], b)
  {
    var rs := Singles(x, y, z);
    assert rs[..0] == [] && rs[..3] == rs;
    MergedMore(rs, 0, [], x, b);
    OneEntry(x, b);
    MergedMore(rs, 1, [x], y, b);
    MergedMore(rs, 2, OneShot([x] + [y], b), z, b);
  }

  // `k` fits with `y` but not with `d`, which stands between them. If `d` answers before `y`, it is
  // dropped first and `y` takes the room ...
  lemma RoomIsTaken(k: LogEntry, d: LogEntry, y: LogEntry, b: Paging)
    requires WeakOrder(b.before) && b.before(k, d) && b.before(k, y) && Fits([k, y], b) && !Fits([k, d], b)
    ensures Merged(Singles(k, d, y), b) == [k, y]
  {
    assert [k, d][..1] == [k] == [k, y][..1] && [k, d][..2] == [k, d] && [k, y][..2] == [k, y];
    assert [k] + [d] == [k, d] && [k] + [y] == [k, y];
    PrefixFits([k, y], b, 2, 1);
    SortedPage([k, d], 1, b);
    SortedPage([k, y], 2, b);
    MergedSingles(k, d, y, b);
  }

  lemma SortTwo(k: LogEntry, y: LogEntry, before: Order)
    requires Asymmetric(before) && before(k, y)
    ensures StableSort([y] + [k], before) == [k, y]
  {
    SortLast([y], k, before);
    SortOfSorted([y], before);
    assert Place([y], k, before) == 0;
  }

  lemma SortThree(k: LogEntry, d: LogEntry, y: LogEntry, before: Order)
    requires Asymmetric(before) && before(k, y) && before(k, d) && before(d, y)
    ensures StableSort([k, y] + [d], before) == [k, d, y]
  {
    SortLast([k, y], d, before);
    assert StableSort([k, y], before) == [k, y] by { SortOfSorted([k, y], before); }
    PlacedSecond(k, d, y, before);
    Between(k, d, y);
  }

  lemma PlacedSecond(k: LogEntry, d: LogEntry, y: LogEntry, before: Order)
    requires !before(d, k) && before(d, y)
    ensures Place([k, y], d, before) == 1
  {
    assert [k, y][1..] == [y];
    assert Place([y], d, before) == 0;
  }

  lemma Between<T>(k: T, d: T, y: T)
    ensures [k, y][..1] + [d] + [k, y][1..] == [k, d, y]
  {
  }

  // ... and if `d` answers last, the page ends after `k`.
  lemma RoomIsKept(k: LogEntry, d: LogEntry, y: LogEntry, b: Paging)
    requires WeakOrder(b.before) && b.before(k, d) && b.before(d, y) && b.before(k, y)
    requires Fits([k, y], b) && !Fits([k, d], b)
    ensures Merged(Singles(y, k, d), b) == [k]
  {
    assert [k, y][..1] == [k] && [k, y][..2] == [k, y] && [k, d, y][..1] == [k] && [k, d, y][..2] == [k, d];
    PrefixFits([k, y], b, 2, 1);
    PartFits([y], [k, y], b);
    SortTwo(k, y, b.before);
    SortThree(k, d, y, b.before);
    CutStops([k, y], b, 2);
    CutStops([k, d, y], b, 1);
    MergedSingles(y, k, d, b);
  }

  lemma BytesOfTwo(x: LogEntry, y: LogEntry, size: LogEntry -> nat)
    ensures Bytes([x, y], size) == size(x) + size(y) + 2 && Bytes([x], size) == size(x) + 1
  {
    assert [x, y][1..] == [y] && [y][1..] == [] && [x][1..] == [];
    assert Bytes([y], size) == size(y) + 1;
  }

  // At most this much is read from one source, and JSON escapes a byte by six at most.
  const SOURCE_BYTES: nat := 256 * 1024

  // Such sources exist: three containers with one entry each, of 1.5, 1.0 and 0.1 MB, oldest first.
  lemma CompletionOrderExample(message: string, observedAt: int)
    ensures var size := (e: LogEntry) =>
        if e.timestamp == 1 then 1500000 else if e.timestamp == 2 then 1000000 else 100000;
      var b := Paging(EntryOrder(true), size, MAX_ENTRIES);
      var k := LogEntry(1, "n", "p", "a", message, observedAt);
      var d, y := k.(timestamp := 2, container := "b"), k.(timestamp := 3, container := "c");
      && (forall r | r in Singles(k, d, y) :: Bytes(Entries(r), size) <= 6 * SOURCE_BYTES)
      && Merged(Singles(k, d, y), b) == [k, y] && Merged(Singles(y, k, d), b) == [k]
  {
    var size := (e: LogEntry) => if e.timestamp == 1 then 1500000 else if e.timestamp == 2 then 1000000 else 100000;
    var b := Paging(EntryOrder(true), size, MAX_ENTRIES);
    var k := LogEntry(1, "n", "p", "a", message, observedAt);
    var d, y := k.(timestamp := 2, container := "b"), k.(timestamp := 3, container := "c");
    EntryOrderIsWeak(true);
    BytesOfTwo(k, d, size);
    BytesOfTwo(d, y, size);
    BytesOfTwo(y, k, size);
    BytesOfTwo(k, y, size);
    RoomIsTaken(k, d, y, b);
    RoomIsKept(k, d, y, b);
  }
}
