/** Merging the log entries of concurrently read sources into one bounded page. */
module LogMerge {
  import opened Basics
  import Strings

  // The order ignores when the agent saw the line, but the encoding holds it.
  datatype LogEntry = LogEntry(
    timestamp: int, namespace_: string, pod: string, container: string, message: string, observedAt: int)

  const MAX_ENTRIES: nat := 5000
  const BYTE_BUDGET: nat := 2 * 1024 * 1024 - 32 * 1024

  type Order = (LogEntry, LogEntry) -> bool

  // How a query pages: entry order, encoded length of an entry, and the entry limit in force.
  datatype Paging = Paging(before: Order, size: LogEntry -> nat, limit: nat)

  // ---------- the entry order ----------

  function SortKey(e: LogEntry): string {
    e.namespace_ + "\0" + e.pod + "\0" + e.container + "\0" + e.message
  }

  predicate Before(l: LogEntry, r: LogEntry, forward: bool) {
    if l.timestamp != r.timestamp then (if forward then l.timestamp < r.timestamp else l.timestamp > r.timestamp)
    else Strings.Less(SortKey(l), SortKey(r))
  }

  function EntryOrder(forward: bool): Order {
    (l, r) => Before(l, r, forward)
  }

  ghost predicate Asymmetric(before: Order) {
    forall x, y :: before(x, y) ==> !before(y, x)
  }

  // `!before(y, x)`: x may stand ahead of y.
  ghost predicate AheadTransitive(before: Order) {
    forall x, y, z {:trigger before(y, x), before(z, y)} :: !before(y, x) && !before(z, y) ==> !before(z, x)
  }

  ghost predicate WeakOrder(before: Order) {
    Asymmetric(before) && AheadTransitive(before)
  }

  lemma EntryOrderIsWeak(forward: bool)
    ensures WeakOrder(EntryOrder(forward))
  {
    var before := EntryOrder(forward);
    forall x, y | before(x, y) ensures !before(y, x) {
      Strings.LessTrichotomy(SortKey(x), SortKey(y));
    }
    forall x, y, z | !before(y, x) && !before(z, y) ensures !before(z, x) {
      var a, b, c := SortKey(x), SortKey(y), SortKey(z);
      Strings.LessTrichotomy(a, b);
      Strings.LessTrichotomy(b, c);
      Strings.LessTrichotomy(a, c);
      if Strings.Less(a, b) && Strings.Less(b, c) { Strings.LessTransitive(a, b, c); }
    }
  }

  // ---------- the order on the fields ----------

  // Kubernetes names hold no NUL.
  predicate PlainNames(e: LogEntry) {
    '\0' !in e.namespace_ && '\0' !in e.pod && '\0' !in e.container
  }

  // By namespace, then pod, then container, then message.
  predicate KeyBefore(l: LogEntry, r: LogEntry) {
    if l.namespace_ != r.namespace_ then Strings.Less(l.namespace_, r.namespace_)
    else if l.pod != r.pod then Strings.Less(l.pod, r.pod)
    else if l.container != r.container then Strings.Less(l.container, r.container)
    else Strings.Less(l.message, r.message)
  }

  // The oldest first, or the newest; at the same time by the key.
  predicate InOrder(l: LogEntry, r: LogEntry, forward: bool) {
    && (if forward then l.timestamp <= r.timestamp else l.timestamp >= r.timestamp)
    && (l.timestamp == r.timestamp && PlainNames(l) && PlainNames(r) ==> !KeyBefore(r, l))
  }

  lemma KeyInParts(e: LogEntry)
    ensures SortKey(e) == e.namespace_ + ("\0" + (e.pod + ("\0" + (e.container + ("\0" + e.message)))))
  {
    Regroup(e.container, "\0", e.message);
  }

  // The joined key orders as its four fields do.
  lemma KeyIsFields(l: LogEntry, r: LogEntry)
    requires PlainNames(l) && PlainNames(r)
    ensures Strings.Less(SortKey(l), SortKey(r)) <==> KeyBefore(l, r)
  {
    KeyInParts(l);
    KeyInParts(r);
    var podL, podR := l.container + ("\0" + l.message), r.container + ("\0" + r.message);
    Strings.LessInParts(l.namespace_, r.namespace_, l.pod + ("\0" + podL), r.pod + ("\0" + podR));
    Strings.LessInParts(l.pod, r.pod, podL, podR);
    Strings.LessInParts(l.container, r.container, l.message, r.message);
    Strings.LessTrichotomy(l.namespace_, l.namespace_);
    Strings.LessTrichotomy(l.pod, l.pod);
    Strings.LessTrichotomy(l.container, l.container);
  }

  // An entry may stand ahead of another exactly when they are in order.
  lemma AheadIffInOrder(l: LogEntry, r: LogEntry, forward: bool)
    ensures !Before(r, l, forward) ==> InOrder(l, r, forward)
    ensures PlainNames(l) && PlainNames(r) ==> (InOrder(l, r, forward) <==> !Before(r, l, forward))
  {
    if PlainNames(l) && PlainNames(r) { KeyIsFields(r, l); }
  }

  // ---------- the stable sort ----------

  ghost predicate Sorted(s: seq<LogEntry>, before: Order) {
    forall i, j | 0 <= i < j < |s| :: !before(s[j], s[i])
  }

  predicate Tie(l: LogEntry, r: LogEntry, before: Order) {
    !before(l, r) && !before(r, l)
  }

  // Where a later arrival goes: ahead of the first entry it precedes, behind its ties.
  function Place(s: seq<LogEntry>, x: LogEntry, before: Order): (p: nat)
    ensures p <= |s|
    ensures forall i | 0 <= i < p :: !before(x, s[i])
    ensures p < |s| ==> before(x, s[p])
  {
    if s == [] || before(x, s[0]) then 0 else 1 + Place(s[1..], x, before)
  }

  function Insert(s: seq<LogEntry>, x: LogEntry, before: Order): seq<LogEntry> {
    var p := Place(s, x, before);
    s[..p] + [x] + s[p..]
  }

  function StableSort(s: seq<LogEntry>, before: Order): (r: seq<LogEntry>)
    ensures |r| == |s|
  {
    if s == [] then [] else Insert(StableSort(s[..|s| - 1], before), s[|s| - 1], before)
  }

  lemma BehindPlace(s: seq<LogEntry>, x: LogEntry, before: Order)
    requires WeakOrder(before) && Sorted(s, before)
    ensures forall j | Place(s, x, before) <= j < |s| :: before(x, s[j])
  {
    var p := Place(s, x, before);
    forall j | p <= j < |s| ensures before(x, s[j]) {
      assert before(x, s[p]);
      if j > p { assert !before(s[j], s[p]); }
    }
  }

  lemma InsertSorted(s: seq<LogEntry>, x: LogEntry, before: Order)
    requires WeakOrder(before) && Sorted(s, before)
    ensures Sorted(Insert(s, x, before), before)
  {
    BehindPlace(s, x, before);
  }

  lemma {:induction false} StableSortSorted(s: seq<LogEntry>, before: Order)
    requires WeakOrder(before)
    ensures Sorted(StableSort(s, before), before)
  {
    if s == [] {
    } else {
      StableSortSorted(s[..|s| - 1], before);
      InsertSorted(StableSort(s[..|s| - 1], before), s[|s| - 1], before);
    }
  }

  lemma InsertPermutes(t: seq<LogEntry>, x: LogEntry, before: Order)
    ensures multiset(Insert(t, x, before)) == multiset(t) + multiset{x}
  {
    var p := Place(t, x, before);
    assert t == t[..p] + t[p..];
  }

  lemma {:induction false} StableSortPermutes(s: seq<LogEntry>, before: Order)
    ensures multiset(StableSort(s, before)) == multiset(s)
  {
    if s == [] {
    } else {
      var init, x := s[..|s| - 1], s[|s| - 1];
      StableSortPermutes(init, before);
      InsertPermutes(StableSort(init, before), x, before);
      assert s == init + [x];
    }
  }

  // The entries that `keep` accepts, in their order.
  function Filter(s: seq<LogEntry>, keep: LogEntry -> bool): seq<LogEntry> {
    if s == [] then [] else (if keep(s[0]) then [s[0]] else []) + Filter(s[1..], keep)
  }

  function TiedWith(x: LogEntry, before: Order): LogEntry -> bool {
    y => Tie(y, x, before)
  }

  function Ties(s: seq<LogEntry>, x: LogEntry, before: Order): seq<LogEntry> {
    Filter(s, TiedWith(x, before))
  }

  lemma {:induction false} FilterConcat(a: seq<LogEntry>, b: seq<LogEntry>, keep: LogEntry -> bool)
    ensures Filter(a + b, keep) == Filter(a, keep) + Filter(b, keep)
  {
    if a == [] {
      assert a + b == b;
    } else {
      FilterConcat(a[1..], b, keep);
      ConcatTail(a, b);
      Regroup(if keep(a[0]) then [a[0]] else [], Filter(a[1..], keep), Filter(b, keep));
    }
  }

  lemma {:induction false} FilterNone(s: seq<LogEntry>, keep: LogEntry -> bool)
    requires forall i | 0 <= i < |s| :: !keep(s[i])
    ensures Filter(s, keep) == []
  {
    if s == [] {
    } else {
      FilterNone(s[1..], keep);
    }
  }

  lemma SplitAt(t: seq<LogEntry>, p: nat)
    requires p <= |t|
    ensures t == t[..p] + t[p..]
  {
  }

  lemma NoTiesBehind(t: seq<LogEntry>, y: LogEntry, x: LogEntry, before: Order)
    requires WeakOrder(before) && Sorted(t, before) && Tie(y, x, before)
    ensures Ties(t[Place(t, y, before)..], x, before) == []
  {
    BehindPlace(t, y, before);
    FilterNone(t[Place(t, y, before)..], TiedWith(x, before));
  }

  lemma EmptyMoves(a: seq<LogEntry>, b: seq<LogEntry>, c: seq<LogEntry>)
    requires b == [] || c == []
    ensures a + b + c == a + c + b
  {
  }

  lemma TiesOfInsert(t: seq<LogEntry>, y: LogEntry, x: LogEntry, before: Order)
    requires WeakOrder(before) && Sorted(t, before)
    ensures Ties(Insert(t, y, before), x, before) == Ties(t, x, before) + Ties([y], x, before)
  {
    var p := Place(t, y, before);
    var front, back := t[..p], t[p..];
    SplitAt(t, p);
    FilterConcat(front, back, TiedWith(x, before));
    FilterConcat(front + [y], back, TiedWith(x, before));
    FilterConcat(front, [y], TiedWith(x, before));
    if Tie(y, x, before) { NoTiesBehind(t, y, x, before); }
    EmptyMoves(Ties(front, x, before), Ties([y], x, before), Ties(back, x, before));
  }

  // Tied entries keep their arrival order.
  lemma {:induction false} StableSortIsStable(s: seq<LogEntry>, x: LogEntry, before: Order)
    requires WeakOrder(before)
    ensures Ties(StableSort(s, before), x, before) == Ties(s, x, before)
  {
    if s == [] {
    } else {
      var init, y := s[..|s| - 1], s[|s| - 1];
      StableSortIsStable(init, x, before);
      StableSortSorted(init, before);
      TiesOfInsert(StableSort(init, before), y, x, before);
      assert s == init + [y];
      FilterConcat(init, [y], TiedWith(x, before));
    }
  }

  lemma {:induction false} TieMember(s: seq<LogEntry>, x: LogEntry, before: Order) returns (i: nat)
    requires Ties(s, x, before) != []
    ensures i < |s| && Tie(s[i], x, before)
  {
    if Tie(s[0], x, before) {
      i := 0;
    } else {
      var j := TieMember(s[1..], x, before);
      i := j + 1;
    }
  }

  lemma TiesTail(r: seq<LogEntry>, q: seq<LogEntry>, y: LogEntry, before: Order)
    requires r != [] && q != [] && r[0] == q[0] && Ties(r, y, before) == Ties(q, y, before)
    ensures Ties(r[1..], y, before) == Ties(q[1..], y, before)
  {
    if Tie(r[0], y, before) {
      assert Ties(r, y, before)[1..] == Ties(r[1..], y, before);
      assert Ties(q, y, before)[1..] == Ties(q[1..], y, before);
    } else {
      assert Ties(r, y, before) == Ties(r[1..], y, before);
      assert Ties(q, y, before) == Ties(q[1..], y, before);
    }
  }

  // Sorted order and the order among ties leave no freedom: the stable sort is unique.
  lemma {:induction false} StableSortUnique(r: seq<LogEntry>, q: seq<LogEntry>, before: Order)
    requires WeakOrder(before) && Sorted(r, before) && Sorted(q, before)
    requires forall x :: Ties(r, x, before) == Ties(q, x, before)
    ensures r == q
    decreases |r|
  {
    assert |q| == 0 || Ties(r, q[0], before)[0] == q[0];
    if r == [] {
    } else {
      var x := r[0];
      assert Ties(q, x, before)[0] == x;
      var i := TieMember(q, x, before);
      var j := TieMember(r, q[0], before);
      assert !before(q[i], q[0]) || i == 0;
      assert !before(r[j], x) || j == 0;
      assert Tie(q[0], x, before);
      assert Ties(q, x, before)[0] == q[0];
      forall y ensures Ties(r[1..], y, before) == Ties(q[1..], y, before) { TiesTail(r, q, y, before); }
      StableSortUnique(r[1..], q[1..], before);
    }
  }

  // ---------- the cut ----------

  function Bytes(s: seq<LogEntry>, size: LogEntry -> nat): nat {
    if s == [] then 0 else size(s[0]) + 1 + Bytes(s[1..], size)
  }

  predicate Fits(s: seq<LogEntry>, b: Paging) {
    |s| <= b.limit && Bytes(s, b.size) <= BYTE_BUDGET
  }

  // The length of the longest prefix within both bounds.
  function CutLength(s: seq<LogEntry>, b: Paging): (c: nat)
    ensures c <= |s| && Fits(s[..c], b)
  {
    if s == [] then 0
    else if Fits(s, b) then assert s[..|s|] == s; |s|
    else
      var init := s[..|s| - 1];
      var c := CutLength(init, b);
      assert s[..c] == init[..c];
      c
  }

  function Cut(s: seq<LogEntry>, b: Paging): seq<LogEntry> {
    s[..CutLength(s, b)]
  }

  lemma {:induction false} BytesConcat(x: seq<LogEntry>, y: seq<LogEntry>, size: LogEntry -> nat)
    ensures Bytes(x + y, size) == Bytes(x, size) + Bytes(y, size)
  {
    if x == [] {
      assert x + y == y;
    } else {
      BytesConcat(x[1..], y, size);
      assert (x + y)[1..] == x[1..] + y;
    }
  }

  lemma PrefixFits(s: seq<LogEntry>, b: Paging, long: nat, c: nat)
    requires c <= long <= |s| && Fits(s[..long], b)
    ensures Fits(s[..c], b)
  {
    BytesConcat(s[..c], s[c..long], b.size);
    assert s[..long] == s[..c] + s[c..long];
  }

  // No longer prefix fits.
  lemma {:induction false} CutIsLongest(s: seq<LogEntry>, b: Paging, c: nat)
    requires c <= |s| && Fits(s[..c], b)
    ensures c <= CutLength(s, b)
  {
    if Fits(s, b) {
    } else {
      assert s[..|s|] == s;
      assert s[..|s| - 1][..c] == s[..c];
      CutIsLongest(s[..|s| - 1], b, c);
    }
  }

  // The cut stops exactly at the first entry that does not fit.
  lemma CutStops(s: seq<LogEntry>, b: Paging, c: nat)
    requires c <= |s|
    ensures c == CutLength(s, b) <==> Fits(s[..c], b) && (c < |s| ==> !Fits(s[..c + 1], b))
  {
    var l := CutLength(s, b);
    if c < l { PrefixFits(s, b, l, c + 1); }
    if Fits(s[..c], b) { CutIsLongest(s, b, c); }
    if c < |s| && Fits(s[..c + 1], b) { CutIsLongest(s, b, c + 1); }
  }

  function EffectiveLimit(requested: int): nat {
    if requested <= 0 || requested > MAX_ENTRIES then MAX_ENTRIES else requested
  }

  // boundAggregateLogEntries.
  method BoundAggregateLogEntries(entries: seq<LogEntry>, requestedLimit: int, alreadyTruncated: bool, b: Paging)
    returns (page: seq<LogEntry>, truncated: bool)
    requires b.limit == EffectiveLimit(requestedLimit)
    ensures page == Cut(entries, b)
    ensures truncated <==> alreadyTruncated || |page| < |entries|
  {
    var limit := requestedLimit;
    if limit <= 0 || limit > MAX_ENTRIES { limit := MAX_ENTRIES; }
    page, truncated := entries, alreadyTruncated;
    if |entries| > limit {
      page, truncated := entries[..limit], true;
    }
    var used := 0;
    for index := 0 to |page|
      invariant page == entries[..|page|]
      invariant used == Bytes(entries[..index], b.size) && used <= BYTE_BUDGET
    {
      used := used + b.size(page[index]) + 1;
      assert entries[..index + 1] == entries[..index] + [page[index]];
      BytesConcat(entries[..index], [page[index]], b.size);
      if used > BYTE_BUDGET {
        CutStops(entries, b, index);
        return page[..index], true;
      }
    }
    CutStops(entries, b, |page|);
  }

  // sortAggregateLogEntries, with sort.SliceStable given by its contract.
  method SortAggregateLogEntries(entries: seq<LogEntry>, forward: bool) returns (sorted: seq<LogEntry>)
    ensures sorted == StableSort(entries, EntryOrder(forward)) && Ordered(sorted, forward)
  {
    sorted := [];
    ghost var before := EntryOrder(forward);
    for i := 0 to |entries|
      invariant sorted == StableSort(entries[..i], before)
    {
      var p := 0;
      while p < |sorted| && !Before(entries[i], sorted[p], forward)
        invariant p <= |sorted|
        invariant forall j | 0 <= j < p :: !before(entries[i], sorted[j])
      {
        p := p + 1;
      }
      PlaceIs(sorted, entries[i], p, before);
      SortNext(entries, i, before);
      sorted := sorted[..p] + [entries[i]] + sorted[p..];
    }
    assert entries[..|entries|] == entries;
    EntryOrderIsWeak(forward);
    StableSortSorted(entries, before);
    SortedIsOrdered(sorted, forward);
  }

  lemma PlaceIs(s: seq<LogEntry>, x: LogEntry, p: nat, before: Order)
    requires p <= |s| && (forall j | 0 <= j < p :: !before(x, s[j])) && (p < |s| ==> before(x, s[p]))
    ensures p == Place(s, x, before)
  {
  }

  lemma SortNext(s: seq<LogEntry>, i: nat, before: Order)
    requires i < |s|
    ensures StableSort(s[..i + 1], before) == Insert(StableSort(s[..i], before), s[i], before)
  {
    assert s[..i + 1][..i] == s[..i];
  }

  // ---------- the merge loop ----------

  datatype ReadResult = Read(entries: seq<LogEntry>, truncated: bool) | Unavailable

  datatype LogPage = LogPage(
    entries: seq<LogEntry>, truncated: bool, partial: bool, warnings: nat, successful: nat, failed: nat)

  function Entries(r: ReadResult): seq<LogEntry> {
    if r.Read? then r.entries else []
  }

  // All entries read, in arrival order.
  function Arrivals(results: seq<ReadResult>): seq<LogEntry> {
    if results == [] then [] else Arrivals(results[..|results| - 1]) + Entries(results[|results| - 1])
  }

  function Unread(results: seq<ReadResult>): nat {
    if results == [] then 0
    else Unread(results[..|results| - 1]) + if results[|results| - 1].Unavailable? then 1 else 0
  }

  ghost predicate SourceTruncated(results: seq<ReadResult>) {
    exists r :: r in results && r.Read? && r.truncated
  }

  // The page after sorting and cutting once per result.
  function Merged(results: seq<ReadResult>, b: Paging): seq<LogEntry> {
    if results == [] then []
    else
      var page := Merged(results[..|results| - 1], b);
      var last := results[|results| - 1];
      if last.Read? then OneShot(page + last.entries, b) else page
  }

  // The page of one sort and one cut over everything.
  function OneShot(entries: seq<LogEntry>, b: Paging): seq<LogEntry> {
    Cut(StableSort(entries, b.before), b)
  }

  // `page` and the full sorted list `all` share their first `g` entries; whatever `page` holds
  // beyond them stands behind all[g], which no longer fits.
  ghost predicate Tracks(page: seq<LogEntry>, all: seq<LogEntry>, g: nat, b: Paging) {
    && g <= |page| && g <= |all| && page[..g] == all[..g]
    && Sorted(page, b.before) && Sorted(all, b.before)
    && (g == |all| ==> g == |page|)
    && (g < |all| ==> |page| < |all| && !Fits(all[..g + 1], b))
    && (g < |all| ==> forall i | g <= i < |page| :: !b.before(page[i], all[g]))
  }

  lemma InsertStillTooMuch(s: seq<LogEntry>, p: nat, x: LogEntry, b: Paging)
    requires p <= |s| && !Fits(s, b)
    ensures !Fits(s[..p] + [x] + s[p..], b)
  {
    BytesConcat(s[..p] + [x], s[p..], b.size);
    BytesConcat(s[..p], [x], b.size);
    BytesConcat(s[..p], s[p..], b.size);
    assert s == s[..p] + s[p..];
  }

  lemma SamePlace(page: seq<LogEntry>, all: seq<LogEntry>, g: nat, x: LogEntry, b: Paging)
    requires WeakOrder(b.before) && Tracks(page, all, g, b)
    ensures var p, q := Place(page, x, b.before), Place(all, x, b.before);
      if q <= g then p == q else p >= g
  {
    var p, q := Place(page, x, b.before), Place(all, x, b.before);
    assert forall i | 0 <= i < g :: page[i] == page[..g][i] == all[..g][i] == all[i];
    assert p < |page| ==> b.before(x, page[p]);
    assert q == g < |all| && g < |page| ==> b.before(x, all[g]) && !b.before(page[g], all[g]);
  }

  lemma InsertTracks(page: seq<LogEntry>, all: seq<LogEntry>, g: nat, x: LogEntry, b: Paging) returns (g': nat)
    requires WeakOrder(b.before) && Tracks(page, all, g, b)
    ensures Tracks(Insert(page, x, b.before), Insert(all, x, b.before), g', b)
  {
    InsertSorted(page, x, b.before);
    InsertSorted(all, x, b.before);
    SamePlace(page, all, g, x, b);
    if Place(all, x, b.before) <= g {
      g' := g + 1;
      InsertWithin(page, all, g, Place(all, x, b.before), x, b);
    } else {
      g' := g;
      InsertBehind(page, all, g, Place(page, x, b.before), Place(all, x, b.before), x, b);
    }
  }

  lemma InsertWithin(page: seq<LogEntry>, all: seq<LogEntry>, g: nat, q: nat, x: LogEntry, b: Paging)
    requires Tracks(page, all, g, b) && q <= g
    requires Sorted(page[..q] + [x] + page[q..], b.before) && Sorted(all[..q] + [x] + all[q..], b.before)
    ensures Tracks(page[..q] + [x] + page[q..], all[..q] + [x] + all[q..], g + 1, b)
  {
    var page', all' := page[..q] + [x] + page[q..], all[..q] + [x] + all[q..];
    assert page'[..g + 1] == page[..g][..q] + [x] + page[..g][q..];
    assert all'[..g + 1] == all[..g][..q] + [x] + all[..g][q..];
    if g < |all| {
      InsertStillTooMuch(all[..g + 1], q, x, b);
      assert all'[..g + 2] == all[..g + 1][..q] + [x] + all[..g + 1][q..];
    }
  }

  lemma InsertBehind(page: seq<LogEntry>, all: seq<LogEntry>, g: nat, p: nat, q: nat, x: LogEntry, b: Paging)
    requires Tracks(page, all, g, b) && g <= p <= |page| && g < q <= |all| && !b.before(x, all[g])
    requires Sorted(page[..p] + [x] + page[p..], b.before) && Sorted(all[..q] + [x] + all[q..], b.before)
    ensures Tracks(page[..p] + [x] + page[p..], all[..q] + [x] + all[q..], g, b)
  {
    var page', all' := page[..p] + [x] + page[p..], all[..q] + [x] + all[q..];
    assert page'[..g] == page[..g] && all'[..g] == all[..g] && all'[..g + 1] == all[..g + 1];
  }

  lemma {:induction false} BatchTracks(page: seq<LogEntry>, arrived: seq<LogEntry>, batch: seq<LogEntry>, g: nat,
                                       b: Paging)
    returns (g': nat)
    requires WeakOrder(b.before) && StableSort(page, b.before) == page
    requires Tracks(page, StableSort(arrived, b.before), g, b)
    ensures Tracks(StableSort(page + batch, b.before), StableSort(arrived + batch, b.before), g', b)
    decreases |batch|
  {
    if batch == [] {
      assert page + batch == page && arrived + batch == arrived;
      g' := g;
    } else {
      var init, x := batch[..|batch| - 1], batch[|batch| - 1];
      var h := BatchTracks(page, arrived, init, g, b);
      SortAppend(page, batch, b.before);
      SortAppend(arrived, batch, b.before);
      g' := InsertTracks(StableSort(page + init, b.before), StableSort(arrived + init, b.before), h, x, b);
    }
  }

  lemma SortAppend(s: seq<LogEntry>, batch: seq<LogEntry>, before: Order)
    requires batch != []
    ensures StableSort(s + batch, before) ==
      Insert(StableSort(s + batch[..|batch| - 1], before), batch[|batch| - 1], before)
  {
    SplitLast(s, batch);
    SortLast(s + batch[..|batch| - 1], batch[|batch| - 1], before);
  }

  lemma SplitLast(s: seq<LogEntry>, batch: seq<LogEntry>)
    requires batch != []
    ensures s + batch == (s + batch[..|batch| - 1]) + [batch[|batch| - 1]]
  {
  }

  lemma SortLast(init: seq<LogEntry>, x: LogEntry, before: Order)
    ensures StableSort(init + [x], before) == Insert(StableSort(init, before), x, before)
  {
    assert (init + [x])[..|init|] == init;
  }

  lemma CutTracks(page: seq<LogEntry>, all: seq<LogEntry>, g: nat, b: Paging)
    requires Tracks(page, all, g, b)
    ensures Tracks(Cut(page, b), all, CutLength(all, b), b)
  {
    var c := CutLength(page, b);
    assert forall i | 0 <= i <= g :: page[..i] == page[..g][..i] == all[..g][..i] == all[..i];
    CutStops(page, b, c);
    if Fits(all[..g], b) {
      CutStops(all, b, g);
      CutIsLongest(page, b, g);
      assert page[..c][..g] == page[..g];
    } else {
      if c >= g { PrefixFits(page, b, c, g); }
      CutStops(all, b, c);
    }
  }

  lemma {:induction false} SortOfSorted(s: seq<LogEntry>, before: Order)
    requires Sorted(s, before)
    ensures StableSort(s, before) == s
  {
    if s == [] {
    } else {
      var init, x := s[..|s| - 1], s[|s| - 1];
      SortOfSorted(init, before);
      assert Place(init, x, before) == |init|;
      assert s == init + [x];
    }
  }

  lemma {:induction false} MergedTracks(results: seq<ReadResult>, b: Paging)
    requires WeakOrder(b.before)
    ensures var all := StableSort(Arrivals(results), b.before); Tracks(Merged(results, b), all, CutLength(all, b), b)
  {
    if results == [] {
    } else {
      var init, last := results[..|results| - 1], results[|results| - 1];
      MergedTracks(init, b);
      var page, arrived := Merged(init, b), Arrivals(init);
      if last.Read? {
        SortOfSorted(page, b.before);
        var g := BatchTracks(page, arrived, last.entries, CutLength(StableSort(arrived, b.before), b), b);
        CutTracks(StableSort(page + last.entries, b.before), StableSort(arrived + last.entries, b.before), g, b);
      } else {
        assert arrived + [] == arrived;
      }
    }
  }

  // However the results arrive: the page of one sort and one cut is a prefix of the merged page,
  // both leave something out or neither does, and the merged page keeps both bounds.
  lemma MergedExtendsOneShot(results: seq<ReadResult>, b: Paging)
    requires WeakOrder(b.before)
    ensures OneShot(Arrivals(results), b) <= Merged(results, b)
    ensures |Merged(results, b)| < |Arrivals(results)| <==> |OneShot(Arrivals(results), b)| < |Arrivals(results)|
    ensures |Merged(results, b)| <= |Arrivals(results)|
    ensures Fits(Merged(results, b), b)
  {
    MergedTracks(results, b);
    MergedFits(results, b);
  }

  lemma {:induction false} MergedFits(results: seq<ReadResult>, b: Paging)
    ensures Fits(Merged(results, b), b)
  {
    if results == [] {
    } else {
      MergedFits(results[..|results| - 1], b);
    }
  }

  lemma OneMore(results: seq<ReadResult>, i: nat, b: Paging)
    requires i < |results| && WeakOrder(b.before)
    ensures Merged(results[..i + 1], b) ==
      if results[i].Read? then OneShot(Merged(results[..i], b) + results[i].entries, b) else Merged(results[..i], b)
    ensures Unread(results[..i + 1]) == Unread(results[..i]) + if results[i].Unavailable? then 1 else 0
    ensures |Arrivals(results[..i + 1])| == |Arrivals(results[..i])| + |Entries(results[i])|
    ensures SourceTruncated(results[..i + 1]) <==>
      SourceTruncated(results[..i]) || (results[i].Read? && results[i].truncated)
    ensures |Merged(results[..i], b)| <= |Arrivals(results[..i])|
  {
    MergedExtendsOneShot(results[..i], b);
    assert results[..i + 1] == results[..i] + [results[i]];
    assert results[..i + 1][..i] == results[..i];
  }

  // What the page says about the results merged so far.
  ghost predicate Reflects(page: LogPage, results: seq<ReadResult>, warnings: nat, b: Paging) {
    && page.entries == Merged(results, b)
    && (page.truncated <==> SourceTruncated(results) || |page.entries| < |Arrivals(results)|)
    && page.failed == Unread(results) && page.successful + page.failed == |results|
    && page.warnings == warnings + page.failed
    && (page.partial <==> page.warnings > 0)
  }

  // One result of the channel: counted, merged, sorted and cut.
  method MergeResult(page: LogPage, ghost results: seq<ReadResult>, i: nat, result: ReadResult, requestedLimit: int,
                     forward: bool, ghost warnings: nat, b: Paging)
    returns (next: LogPage)
    requires i < |results| && result == results[i] && Reflects(page, results[..i], warnings, b)
    requires WeakOrder(b.before) && b.before == EntryOrder(forward) && b.limit == EffectiveLimit(requestedLimit)
    ensures Reflects(next, results[..i + 1], warnings, b)
  {
    OneMore(results, i, b);
    if result.Unavailable? {
      return page.(partial := true, failed := page.failed + 1, warnings := page.warnings + 1);
    }
    next := page.(successful := page.successful + 1, truncated := page.truncated || result.truncated);
    var sorted := SortAggregateLogEntries(page.entries + result.entries, forward);
    var cut, truncated := BoundAggregateLogEntries(sorted, requestedLimit, next.truncated, b);
    next := next.(entries := cut, truncated := truncated);
  }

  // ---------- the page, in terms of its entries ----------

  ghost predicate Ordered(page: seq<LogEntry>, forward: bool) {
    forall i, j | 0 <= i < j < |page| :: InOrder(page[i], page[j], forward)
  }

  // The first `n` entries of the page are the first of everything read.
  ghost predicate Leads(page: seq<LogEntry>, n: nat, read: seq<LogEntry>, forward: bool) {
    n <= |page| && forall i, e | 0 <= i < n && e in multiset(read) - multiset(page[..n]) :: InOrder(page[i], e, forward)
  }

  lemma SortedIsOrdered(page: seq<LogEntry>, forward: bool)
    requires Sorted(page, EntryOrder(forward))
    ensures Ordered(page, forward)
  {
    var before := EntryOrder(forward);
    forall i, j | 0 <= i < j < |page| ensures InOrder(page[i], page[j], forward) {
      assert !before(page[j], page[i]);
      AheadIffInOrder(page[i], page[j], forward);
    }
  }

  lemma HeadLeads(page: seq<LogEntry>, all: seq<LogEntry>, n: nat, read: seq<LogEntry>, forward: bool)
    requires Sorted(all, EntryOrder(forward)) && multiset(all) == multiset(read)
    requires n <= |page| && n <= |all| && page[..n] == all[..n]
    ensures Leads(page, n, read, forward)
  {
    var before := EntryOrder(forward);
    assert all == all[..n] + all[n..];
    forall i, e | 0 <= i < n && e in multiset(read) - multiset(page[..n]) ensures InOrder(page[i], e, forward) {
      assert multiset(read) - multiset(page[..n]) == multiset(all[n..]);
      var j :| 0 <= j < |all[n..]| && all[n..][j] == e;
      assert page[..n][i] == all[..n][i];
      assert !before(all[n + j], all[i]);
      AheadIffInOrder(page[i], e, forward);
    }
  }

  lemma {:induction false} SortedBytes(s: seq<LogEntry>, before: Order, size: LogEntry -> nat)
    ensures Bytes(StableSort(s, before), size) == Bytes(s, size)
  {
    if s == [] {
    } else {
      var init, x := s[..|s| - 1], s[|s| - 1];
      var t := StableSort(init, before);
      var p := Place(t, x, before);
      SortedBytes(init, before, size);
      BytesConcat(t[..p] + [x], t[p..], size);
      BytesConcat(t[..p], [x], size);
      BytesConcat(t[..p], t[p..], size);
      BytesConcat(init, [x], size);
      assert t == t[..p] + t[p..] && s == init + [x];
    }
  }

  // Everything read fits, so the page is all of it.
  lemma AllFits(results: seq<ReadResult>, b: Paging)
    requires WeakOrder(b.before) && |Arrivals(results)| <= b.limit && Bytes(Arrivals(results), b.size) <= BYTE_BUDGET
    ensures multiset(Merged(results, b)) == multiset(Arrivals(results))
  {
    var read := Arrivals(results);
    var all := StableSort(read, b.before);
    SortedBytes(read, b.before, b.size);
    StableSortPermutes(read, b.before);
    MergedExtendsOneShot(results, b);
    WholeCut(all, b);
    WholePrefix(all, Merged(results, b));
  }

  lemma WholeCut(s: seq<LogEntry>, b: Paging)
    requires Fits(s, b)
    ensures Cut(s, b) == s
  {
    assert s[..|s|] == s;
    CutIsLongest(s, b, |s|);
  }

  lemma WholePrefix(s: seq<LogEntry>, t: seq<LogEntry>)
    requires s <= t && |t| <= |s|
    ensures s == t
  {
  }

  predicate FitsWhole(read: seq<LogEntry>, requestedLimit: int, size: LogEntry -> nat) {
    |read| <= 5000 && (1 <= requestedLimit <= 5000 ==> |read| <= requestedLimit) && Bytes(read, size) <= BYTE_BUDGET
  }

  // If each entry read fits by itself, the page begins with the first of everything read.
  lemma FirstOfAll(results: seq<ReadResult>, b: Paging, forward: bool)
    requires b.before == EntryOrder(forward) && WeakOrder(b.before) && b.limit > 0
    requires Arrivals(results) != [] && forall e | e in Arrivals(results) :: b.size(e) < BYTE_BUDGET
    ensures var page := Merged(results, b);
      page != [] && forall e | e in Arrivals(results) :: InOrder(page[0], e, forward)
  {
    var read, page := Arrivals(results), Merged(results, b);
    var all := StableSort(read, b.before);
    StableSortPermutes(read, b.before);
    StableSortSorted(read, b.before);
    MergedExtendsOneShot(results, b);
    assert all[0] in multiset(read);
    assert Fits(all[..1], b) by { assert all[..1] == [all[0]] && all[..1][1..] == []; }
    CutIsLongest(all, b, 1);
    assert page[0] == OneShot(read, b)[0] == all[0];
    forall e | e in read ensures InOrder(page[0], e, forward) {
      assert e in multiset(all);
      var j :| 0 <= j < |all| && all[j] == e;
      assert !b.before(all[j], all[0]);
      AheadIffInOrder(all[0], e, forward);
    }
  }

  // What a page of the merged results is, on the fields of its entries.
  lemma PageOfMerged(results: seq<ReadResult>, b: Paging, forward: bool)
    requires b.before == EntryOrder(forward) && WeakOrder(b.before)
    ensures Ordered(Merged(results, b), forward)
    ensures Leads(Merged(results, b), |OneShot(Arrivals(results), b)|, Arrivals(results), forward)
  {
    var read, page := Arrivals(results), Merged(results, b);
    var all := StableSort(read, b.before);
    MergedTracks(results, b);
    SortedIsOrdered(page, forward);
    StableSortPermutes(read, b.before);
    HeadLeads(page, all, CutLength(all, b), read, forward);
  }

  // QueryPodLogs over the results in the order the channel delivers them.
  method QueryPodLogs(results: seq<ReadResult>, requestedLimit: int, forward: bool, size: LogEntry -> nat,
                      warnings: nat)
    returns (page: LogPage)
    ensures var b := Paging(EntryOrder(forward), size, EffectiveLimit(requestedLimit));
      && Reflects(page, results, warnings, b) && Fits(page.entries, b)
      && OneShot(Arrivals(results), b) <= page.entries
      && Leads(page.entries, |OneShot(Arrivals(results), b)|, Arrivals(results), forward)
    // Forward the page goes from old to new, backward from new to old; at the same time by namespace, pod,
    // container and message. It begins with the oldest or the newest entry of everything read.
    ensures Ordered(page.entries, forward)
    ensures Arrivals(results) != [] && (forall e | e in Arrivals(results) :: size(e) < BYTE_BUDGET) ==>
      page.entries != [] && forall e | e in Arrivals(results) :: InOrder(page.entries[0], e, forward)
    // The limit holds if it is between 1 and 5000, and 5000 otherwise; what fits is all there.
    ensures |page.entries| <= 5000 && (1 <= requestedLimit <= 5000 ==> |page.entries| <= requestedLimit)
    ensures FitsWhole(Arrivals(results), requestedLimit, size) ==>
      multiset(page.entries) == multiset(Arrivals(results))
  {
    var b := Paging(EntryOrder(forward), size, EffectiveLimit(requestedLimit));
    EntryOrderIsWeak(forward);
    page := MergeResults(results, requestedLimit, forward, warnings, b);
    MergedExtendsOneShot(results, b);
    SortedOnceMore(results, b);
    var sorted := SortAggregateLogEntries(page.entries, forward);
    var cut, truncated := BoundAggregateLogEntries(sorted, requestedLimit, page.truncated, b);
    page := page.(entries := cut, truncated := truncated);
    PageOfMerged(results, b, forward);
    if Arrivals(results) != [] && forall e | e in Arrivals(results) :: size(e) < BYTE_BUDGET {
      FirstOfAll(results, b, forward);
    }
    if FitsWhole(Arrivals(results), requestedLimit, size) { AllFits(results, b); }
  }

  // The loop over the channel.
  method MergeResults(results: seq<ReadResult>, requestedLimit: int, forward: bool, warnings: nat, b: Paging)
    returns (page: LogPage)
    requires WeakOrder(b.before) && b.before == EntryOrder(forward) && b.limit == EffectiveLimit(requestedLimit)
    ensures Reflects(page, results, warnings, b)
  {
    page := LogPage([], false, warnings > 0, warnings, 0, 0);
    for i := 0 to |results|
      invariant Reflects(page, results[..i], warnings, b)
    {
      page := MergeResult(page, results, i, results[i], requestedLimit, forward, warnings, b);
    }
    assert results[..|results|] == results;
  }

  // The last sort and cut, after the loop, change nothing.
  lemma SortedOnceMore(results: seq<ReadResult>, b: Paging)
    requires WeakOrder(b.before)
    ensures StableSort(Merged(results, b), b.before) == Merged(results, b)
    ensures Cut(Merged(results, b), b) == Merged(results, b)
  {
    var page := Merged(results, b);
    MergedTracks(results, b);
    MergedFits(results, b);
    SortOfSorted(page, b.before);
    assert page[..|page|] == page;
    CutStops(page, b, |page|);
  }
}
