/** The lease table and the table of active sandboxes, each operation atomic. */
module LeaseTables {
  import opened Basics
  import Strings

  // Times are instants; 0 is Go's zero time.
  const ZERO_TIME: int := 0

  datatype Quota = Quota(disk: int, memory: int, cpu: int, processes: int)
  datatype Lease = Lease(id: string, run: string, owner: string, scope: string, mode: string, quota: Quota,
                         issued: int, expires: int, released: int)
  datatype Entry = Entry(lease: Lease, handle: string)
  datatype Prepared = Handle(id: string) | PrepareFailed

  const NO_LEASE := Lease("", "", "", "", "", Quota(0, 0, 0, 0), ZERO_TIME, ZERO_TIME, ZERO_TIME)

  // What strings.TrimSpace strips.
  predicate Space(c: char) {
    || c in " \t\n\r\U{0b}\U{0c}\U{85}\U{a0}\U{1680}\U{2028}\U{2029}\U{202f}\U{205f}\U{3000}"
    || '\U{2000}' <= c <= '\U{200a}'
  }

  predicate Blank(s: string) {
    forall c | c in s :: Space(c)
  }

  // A specification by its backend and by what validateSpec says of it.
  datatype Spec = Spec(backend: string, valid: bool)

  // A lease names its run, owner and scope, has a mode, goes on, and is bounded in everything.
  predicate ValidLease(lease: Lease, now: int) {
    && !Blank(lease.id) && !Blank(lease.run) && !Blank(lease.owner) && !Blank(lease.scope)
    && (lease.mode == "observe-only" || lease.mode == "restricted-write")
    && lease.expires > now
    && lease.quota.disk > 0 && lease.quota.memory > 0 && lease.quota.cpu > 0 && lease.quota.processes > 0
  }

  // validateLease.
  method ValidateLease(lease: Lease, now: int) returns (ok: bool)
    ensures ok <==> ValidLease(lease, now)
  {
    if Blank(lease.id) || Blank(lease.run) || Blank(lease.owner) { return false; }
    if Blank(lease.scope) { return false; }
    if lease.mode != "observe-only" && lease.mode != "restricted-write" { return false; }
    if lease.expires <= now { return false; }
    if lease.quota.disk <= 0 || lease.quota.memory <= 0 || lease.quota.cpu <= 0 || lease.quota.processes <= 0 {
      return false;
    }
    return true;
  }

  function Acquired(lease: Lease, now: int): Lease {
    lease.(issued := if lease.issued == ZERO_TIME then now else lease.issued, released := ZERO_TIME)
  }

  function Marked(lease: Lease, now: int): Lease {
    if lease.released == ZERO_TIME then lease.(released := now) else lease
  }

  class Manager {
    var leases: map<string, Lease>

    constructor ()
      ensures leases == map[]
    {
      leases := map[];
    }

    method Acquire(lease: Lease, now: int) returns (ok: bool, acquired: Lease)
      modifies this
      ensures ok <==> ValidLease(lease, now) && lease.id !in old(leases)
      ensures acquired == Acquired(lease, now)
      ensures leases == if ok then old(leases)[lease.id := acquired] else old(leases)
      // What is stored is the lease as asked for, unreleased, and issued now unless it says when.
      ensures acquired == lease.(issued := acquired.issued, released := ZERO_TIME)
      ensures acquired.issued == lease.issued || (lease.issued == ZERO_TIME && acquired.issued == now)
      ensures lease.issued == ZERO_TIME ==> acquired.issued == now
    {
      acquired := Acquired(lease, now);
      var valid := ValidateLease(lease, now);
      if !valid || lease.id in leases { return false, acquired; }
      leases := leases[lease.id := acquired];
      return true, acquired;
    }

    // ReleasedAt is set once; an unknown id is an error.
    method Release(id: string, now: int) returns (ok: bool, lease: Lease)
      modifies this
      ensures ok <==> id in old(leases)
      ensures ok ==> lease == Marked(old(leases)[id], now) && leases == old(leases)[id := lease]
      ensures !ok ==> leases == old(leases)
    {
      if id !in leases { return false, NO_LEASE; }
      lease := leases[id];
      if lease.released == ZERO_TIME {
        lease := lease.(released := now);
        leases := leases[id := lease];
      }
      assert leases[id] == lease;
      return true, lease;
    }

    method Remove(id: string)
      modifies this
      ensures leases == old(leases) - {id}
    {
      leases := leases - {id};
    }
  }

  // Active entries are exactly the unreleased leases, and the two tables agree on them.
  ghost predicate Agree(leases: map<string, Lease>, active: map<string, Entry>) {
    && (forall id | id in leases :: leases[id].id == id)
    && (forall id :: id in active <==> id in leases && leases[id].released == ZERO_TIME)
    && (forall id | id in active :: active[id].lease == leases[id])
  }

  function Overdue(active: map<string, Entry>, now: int): set<string> {
    set id | id in active && active[id].lease.expires <= now
  }

  // The lowest ids first, at most one batch.
  ghost predicate Candidates(c: seq<string>, ids: set<string>, batch: nat) {
    exists r :: Strings.Lists(r, ids) && c == r[..if |r| < batch then |r| else batch]
  }

  class RuntimeManager {
    const leases: Manager
    var active: map<string, Entry>
    const backends: set<string>
    const batch: nat

    ghost predicate Valid()
      reads this, leases
    {
      batch > 0 && Agree(leases.leases, active)
    }

    constructor (kinds: set<string>, batchLimit: int)
      ensures Valid() && fresh(leases) && active == map[] && backends == kinds
      ensures batch == if batchLimit <= 0 then 32 else batchLimit
    {
      leases := new Manager();
      active := map[];
      backends := kinds;
      batch := if batchLimit <= 0 then 32 else batchLimit;
    }

    // NewRuntimeManager: `rootOk` tells whether the workspace root is an existing directory, and `kinds`
    // are those of the given backends, in order; a missing backend has none.
    static method New(rootOk: bool, kinds: seq<Option<string>>, batchLimit: int) returns (m: RuntimeManager?)
      ensures m != null <==> rootOk && Registrable(kinds)
      ensures m != null ==> m.Valid() && fresh(m) && fresh(m.leases) && m.active == map[]
      ensures m != null ==> m.backends == (set k | k in kinds && k.Some? :: k.value)
      ensures m != null ==> m.batch == if batchLimit <= 0 then 32 else batchLimit
    {
      if !rootOk { return null; }
      var registered: set<string> := {};
      for i := 0 to |kinds|
        invariant Registrable(kinds[..i]) && registered == set k | k in kinds[..i] && k.Some? :: k.value
      {
        assert kinds[..i + 1] == kinds[..i] + [kinds[i]];
        if kinds[i].None? || Blank(kinds[i].value) || kinds[i].value in registered {
          NotRegistrable(kinds, i);
          return null;
        }
        registered := registered + {kinds[i].value};
      }
      assert kinds[..|kinds|] == kinds;
      m := new RuntimeManager(registered, batchLimit);
    }

    // `prepared` is what the backend's Prepare answers.
    method Acquire(lease: Lease, spec: Spec, now: int, prepared: Prepared) returns (ok: bool)
      requires Valid()
      modifies this, leases
      ensures Valid()
      ensures ok <==> (spec.valid && spec.backend in backends
                       && ValidLease(lease, now) && lease.id !in old(leases.leases)
                       && prepared.Handle? && !Blank(prepared.id))
      ensures !ok ==> leases.leases == old(leases.leases) && active == old(active)
      ensures ok ==> leases.leases == old(leases.leases)[lease.id := Acquired(lease, now)]
      ensures ok ==> active == old(active)[lease.id := Entry(Acquired(lease, now), prepared.id)]
    {
      if !spec.valid || spec.backend !in backends { return false; }
      var accepted, acquired := leases.Acquire(lease, now);
      if !accepted { return false; }
      if prepared.PrepareFailed? || Blank(prepared.id) {
        leases.Remove(acquired.id);
        return false;
      }
      active := active[acquired.id := Entry(acquired, prepared.id)];
      return true;
    }

    // A failed backend release keeps the entry. Releasing at the zero time would leave a lease that
    // still reads as unreleased, so that is exactly when the tables stop agreeing.
    method Release(id: string, now: int, backendOk: bool) returns (ok: bool, lease: Lease)
      requires Valid()
      modifies this, leases
      ensures ok <==> if id in old(active) then backendOk else id in old(leases.leases)
      ensures ok ==> lease == if id in old(active) then Marked(old(leases.leases)[id], now) else old(leases.leases)[id]
      ensures id in old(active) && backendOk ==> active == old(active) - {id}
      ensures id in old(active) && backendOk ==> leases.leases == old(leases.leases)[id := lease]
      ensures !(id in old(active) && backendOk) ==> active == old(active) && leases.leases == old(leases.leases)
      ensures Valid() <==> !(id in old(active) && backendOk && now == ZERO_TIME)
    {
      lease := NO_LEASE;
      if id !in active {
        if id !in leases.leases { return false, lease; }
        return true, leases.leases[id];
      }
      if !backendOk { return false, lease; }
      ok, lease := leases.Release(id, now);
      active := active - {id};
    }

    // gcCandidates. A released lease is never active, so the second half of the test never decides.
    method GcCandidates(now: int) returns (ids: seq<string>)
      requires Valid()
      ensures Candidates(ids, (set id | id in active && active[id].lease.expires <= now), batch)
      ensures Candidates(ids, Overdue(active, now), batch)
    {
      var entries: set<string> := {};
      var rest := active.Keys;
      while rest != {}
        invariant rest <= active.Keys
        invariant entries == set id | id in active && id !in rest && active[id].lease.expires <= now
        decreases rest
      {
        var id :| id in rest;
        if active[id].lease.expires <= now || active[id].lease.released != ZERO_TIME { entries := entries + {id}; }
        rest := rest - {id};
      }
      assert entries == Overdue(active, now) == set id | id in active && active[id].lease.expires <= now;
      ids := Strings.SortKeys(entries);
      ghost var all := ids;
      if |ids| > batch { ids := ids[..batch]; }
      assert all[..|all|] == all;
    }

    method GcOne(id: string, now: int, backendOk: bool) returns (ok: bool, lease: Lease)
      requires Valid() && id in active
      modifies this, leases
      ensures Valid() && ok == backendOk
      ensures active == if ok then old(active) - {id} else old(active)
      ensures leases.leases == if ok then old(leases.leases) - {id} else old(leases.leases)
      ensures ok ==> lease.id == id && lease.expires == old(active)[id].lease.expires
    {
      ok, lease := Release(id, now, backendOk);
      if ok { leases.Remove(lease.id); }
    }

    // GC: `backendOk` tells which backend releases succeed, `stop` before which candidate the
    // context ends. Exactly the released candidates leave both tables; any other candidate is an error.
    method GC(now: int, backendOk: string -> bool, stop: nat)
      returns (released: seq<Lease>, ok: bool, ghost tried: seq<string>)
      requires Valid()
      modifies this, leases
      ensures Valid()
      // The candidates are the lowest ids among all active leases whose time is over.
      ensures exists c :: (&& Candidates(c, (set id | id in old(active) && old(active)[id].lease.expires <= now), batch)
                           && tried == c[..if |c| < stop then |c| else stop]
                           && (ok <==> |c| <= stop && Willing(c, backendOk)))
      ensures active == old(active) - Releasable(tried, backendOk)
      ensures leases.leases == old(leases.leases) - Releasable(tried, backendOk)
      ensures |released| == |Releasable(tried, backendOk)| && Strings.Ascending(IdsOf(released))
      ensures forall lease | lease in released :: lease.id in tried && backendOk(lease.id) && lease.expires <= now
      // With succeeding backends this is one round of the repeated collection below.
      ensures (forall id :: backendOk(id)) && stop >= batch ==>
        Round(Overdue(old(active), now), Overdue(active, now), batch)
    {
      ghost var before := active;
      var ids := GcCandidates(now);
      forall i | 0 <= i < |ids| ensures ids[i] in Overdue(active, now) {
        CandidateFacts(ids, Overdue(active, now), batch, i);
      }
      CandidatesAscend(ids, Overdue(active, now), batch);
      released, ok, tried := ReleaseEach(ids, now, backendOk, stop);
      if (forall id :: backendOk(id)) && stop >= batch {
        assert tried == ids;
        FullRound(before, active, ids, now, backendOk, batch);
      }
    }

    // One candidate of the loop below.
    method GcNext(ids: seq<string>, i: nat, now: int, backendOk: string -> bool, released: seq<Lease>,
                  ghost before: map<string, Entry>, ghost known: map<string, Lease>)
      returns (ok: bool, more: seq<Lease>)
      requires Valid() && i < |ids| && Strings.Ascending(ids) && AllOverdue(ids, before, now)
      requires active == before - Releasable(ids[..i], backendOk)
      requires leases.leases == known - Releasable(ids[..i], backendOk)
      requires Collected(released, Releasable(ids[..i], backendOk), now, ids[..i])
      modifies this, leases
      ensures Valid() && ok == backendOk(ids[i])
      ensures active == before - Releasable(ids[..i + 1], backendOk)
      ensures leases.leases == known - Releasable(ids[..i + 1], backendOk)
      ensures Collected(more, Releasable(ids[..i + 1], backendOk), now, ids[..i + 1])
    {
      ghost var gone := Releasable(ids[..i], backendOk);
      NotYetGone(ids, backendOk, i);
      RemoveOneMore(before, gone, ids[i]);
      RemoveOneMore(known, gone, ids[i]);
      var lease;
      ok, lease := GcOne(ids[i], now, backendOk(ids[i]));
      NextCollected(released, gone, now, ids, backendOk, i, lease);
      more := if ok then released + [lease] else released;
    }

    // The loop of GC. The candidates ascend, so the released leases do.
    method ReleaseEach(ids: seq<string>, now: int, backendOk: string -> bool, stop: nat)
      returns (released: seq<Lease>, ok: bool, ghost tried: seq<string>)
      requires Valid()
      requires Strings.Ascending(ids) && AllOverdue(ids, active, now)
      modifies this, leases
      ensures Valid() && tried == ids[..if |ids| < stop then |ids| else stop]
      ensures ok <==> |ids| <= stop && Willing(ids, backendOk)
      ensures active == old(active) - Releasable(tried, backendOk)
      ensures leases.leases == old(leases.leases) - Releasable(tried, backendOk)
      ensures |released| == |Releasable(tried, backendOk)| && Strings.Ascending(IdsOf(released))
      ensures forall lease | lease in released :: lease.id in tried && backendOk(lease.id) && lease.expires <= now
    {
      released, ok := [], true;
      var i := 0;
      while i < |ids| && i < stop
        invariant i <= |ids| && i <= stop && Valid()
        invariant active == old(active) - Releasable(ids[..i], backendOk)
        invariant leases.leases == old(leases.leases) - Releasable(ids[..i], backendOk)
        invariant Collected(released, Releasable(ids[..i], backendOk), now, ids[..i])
        invariant ok <==> Willing(ids[..i], backendOk)
      {
        var fine;
        OneMore(ids, backendOk, i);
        fine, released := GcNext(ids, i, now, backendOk, released, old(active), old(leases.leases));
        ok := ok && fine;
        i := i + 1;
      }
      ok := ok && i == |ids|;
      tried := ids[..i];
      AllTried(ids, backendOk, i, stop);
      AllCollected(released, Releasable(tried, backendOk), now, tried, backendOk);
    }
  }

  ghost predicate AllOverdue(ids: seq<string>, active: map<string, Entry>, now: int) {
    forall i | 0 <= i < |ids| :: ids[i] in active && active[ids[i]].lease.expires <= now
  }

  ghost predicate Willing(ids: seq<string>, backendOk: string -> bool) {
    forall k | 0 <= k < |ids| :: backendOk(ids[k])
  }

  lemma OneMore(ids: seq<string>, backendOk: string -> bool, i: nat)
    requires i < |ids|
    ensures Willing(ids[..i + 1], backendOk) <==> Willing(ids[..i], backendOk) && backendOk(ids[i])
  {
    assert ids[..i + 1] == ids[..i] + [ids[i]];
  }

  lemma AllTried(ids: seq<string>, backendOk: string -> bool, i: nat, stop: nat)
    requires i <= |ids| && i <= stop && (i == |ids| || i == stop)
    ensures ids[..i] == ids[..if |ids| < stop then |ids| else stop]
    ensures Willing(ids[..i], backendOk) && i == |ids| <==> |ids| <= stop && Willing(ids, backendOk)
  {
    assert ids[..|ids|] == ids;
  }

  lemma NotYetGone(ids: seq<string>, backendOk: string -> bool, i: nat)
    requires i < |ids| && Strings.Ascending(ids)
    ensures ids[i] !in Releasable(ids[..i], backendOk)
  {
    Strings.NotAmongEarlier(ids, i);
    ReleasableMember(ids[..i], backendOk, ids[i]);
  }

  lemma NextCollected(released: seq<Lease>, gone: set<string>, now: int, ids: seq<string>, backendOk: string -> bool,
                      i: nat, lease: Lease)
    requires i < |ids| && Strings.Ascending(ids) && Collected(released, gone, now, ids[..i])
    requires gone == Releasable(ids[..i], backendOk)
    requires backendOk(ids[i]) ==> lease.id == ids[i] && lease.expires <= now
    ensures
      var more := if backendOk(ids[i]) then released + [lease] else released;
      var gone' := if backendOk(ids[i]) then gone + {ids[i]} else gone;
      Collected(more, gone', now, ids[..i + 1]) && gone' == Releasable(ids[..i + 1], backendOk)
  {
    NotYetGone(ids, backendOk, i);
    ReleasableNext(ids, backendOk, i);
    CollectedMore(released, gone, now, ids, i, lease);
  }

  lemma AllCollected(released: seq<Lease>, gone: set<string>, now: int, tried: seq<string>, backendOk: string -> bool)
    requires Collected(released, gone, now, tried) && gone == Releasable(tried, backendOk)
    ensures |released| == |gone| && Strings.Ascending(IdsOf(released))
    ensures forall lease | lease in released :: lease.id in tried && backendOk(lease.id) && lease.expires <= now
  {
    forall lease | lease in released ensures lease.id in tried && backendOk(lease.id) {
      ReleasableMember(tried, backendOk, lease.id);
    }
  }

  // Backends can be registered: all there, of distinct kinds that are not blank.
  ghost predicate Registrable(kinds: seq<Option<string>>) {
    && (forall i | 0 <= i < |kinds| :: kinds[i].Some? && !Blank(kinds[i].value))
    && (forall i, j | 0 <= i < j < |kinds| :: kinds[i] != kinds[j])
  }

  lemma NotRegistrable(kinds: seq<Option<string>>, i: nat)
    requires i < |kinds|
    requires kinds[i].None? || Blank(kinds[i].value) ||
      exists k :: k in kinds[..i] && k.Some? && k.value == kinds[i].value
    ensures !Registrable(kinds)
  {
    if kinds[i].Some? && !Blank(kinds[i].value) {
      var k :| k in kinds[..i] && k.Some? && k.value == kinds[i].value;
      var j :| 0 <= j < i && kinds[..i][j] == k;
      assert kinds[j] == kinds[i];
    }
  }

  function IdsOf(leases: seq<Lease>): seq<string> {
    seq(|leases|, i requires 0 <= i < |leases| => leases[i].id)
  }

  // One released lease per collected id, in the order of the candidates tried, each overdue.
  ghost predicate Collected(released: seq<Lease>, gone: set<string>, now: int, tried: seq<string>) {
    && |released| == |gone| && (forall lease | lease in released :: lease.id in gone && lease.expires <= now)
    && Strings.Ascending(IdsOf(released)) && forall k | 0 <= k < |released| :: released[k].id in tried
  }

  lemma CollectedMore(released: seq<Lease>, gone: set<string>, now: int, ids: seq<string>, i: nat, lease: Lease)
    requires i < |ids| && Strings.Ascending(ids) && Collected(released, gone, now, ids[..i])
    ensures Collected(released, gone, now, ids[..i + 1])
    ensures lease.id == ids[i] && ids[i] !in gone && lease.expires <= now ==>
      Collected(released + [lease], gone + {lease.id}, now, ids[..i + 1])
  {
    assert ids[..i + 1] == ids[..i] + [ids[i]];
    if lease.id == ids[i] {
      var more := IdsOf(released + [lease]);
      forall k | 0 <= k < |released| ensures Strings.Less(more[k], more[|released|]) {
        var j :| 0 <= j < i && ids[..i][j] == released[k].id;
        assert Strings.Less(ids[j], ids[i]);
      }
      assert forall k | 0 <= k < |released| :: more[k] == IdsOf(released)[k];
    }
  }

  function Releasable(ids: seq<string>, backendOk: string -> bool): set<string> {
    if ids == [] then {}
    else
      var last := ids[|ids| - 1];
      Releasable(ids[..|ids| - 1], backendOk) + (if backendOk(last) then {last} else {})
  }

  lemma {:induction false} ReleasableMember(ids: seq<string>, backendOk: string -> bool, id: string)
    ensures id in Releasable(ids, backendOk) <==> id in ids && backendOk(id)
  {
    if ids == [] {
    } else {
      ReleasableMember(ids[..|ids| - 1], backendOk, id);
      assert ids == ids[..|ids| - 1] + [ids[|ids| - 1]];
    }
  }

  lemma ReleasableNext(ids: seq<string>, backendOk: string -> bool, i: nat)
    requires i < |ids|
    ensures Releasable(ids[..i + 1], backendOk) ==
      Releasable(ids[..i], backendOk) + (if backendOk(ids[i]) then {ids[i]} else {})
    ensures ids[i] in Releasable(ids[..i], backendOk) ==> ids[i] in ids[..i]
  {
    assert ids[..i + 1][..i] == ids[..i];
    ReleasableMember(ids[..i], backendOk, ids[i]);
  }

  lemma RemoveOneMore<V>(m: map<string, V>, gone: set<string>, id: string)
    ensures m - gone - {id} == m - (gone + {id})
  {
  }

  lemma CandidatesAscend(c: seq<string>, ids: set<string>, batch: nat)
    requires Candidates(c, ids, batch)
    ensures Strings.Ascending(c)
  {
  }

  lemma CandidateFacts(c: seq<string>, ids: set<string>, batch: nat, i: nat)
    requires Candidates(c, ids, batch) && i < |c|
    ensures c[i] in ids && c[i] !in c[..i]
  {
    var r :| Strings.Lists(r, ids) && c == r[..if |r| < batch then |r| else batch];
    Strings.NotAmongEarlier(r, i);
    assert c[i] == r[i] && r[i] in r && c[..i] == r[..i];
  }

  // ---------- repeated collection ----------

  // One GC with succeeding backends and a live context, seen on the overdue ids.
  ghost predicate Round(before: set<string>, after: set<string>, batch: nat) {
    exists c :: Candidates(c, before, batch) && after == before - (set id | id in c)
  }

  lemma {:induction false} ListedSize(r: seq<string>, s: set<string>)
    requires Strings.Lists(r, s)
    ensures |r| == |s|
    decreases |r|
  {
    if r == [] {
      assert s == {};
    } else {
      forall x ensures x in r[1..] <==> x in s - {r[0]} { Strings.TailMember(r, s, x); }
      ListedSize(r[1..], s - {r[0]});
    }
  }

  lemma FullRound(before: map<string, Entry>, after: map<string, Entry>, c: seq<string>, now: int,
                  backendOk: string -> bool, batch: nat)
    requires Candidates(c, Overdue(before, now), batch) && forall id :: backendOk(id)
    requires after == before - Releasable(c, backendOk)
    ensures Round(Overdue(before, now), Overdue(after, now), batch)
  {
    forall id ensures id in Overdue(after, now) <==> id in Overdue(before, now) - (set x | x in c) {
      ReleasableMember(c, backendOk, id);
    }
    assert Overdue(after, now) == Overdue(before, now) - (set x | x in c);
  }

  lemma TakenFromList(r: seq<string>, s: set<string>, c: seq<string>, left: set<string>)
    requires Strings.Lists(r, s) && c <= r && left == s - (set id | id in c)
    ensures |left| == |r| - |c|
  {
    var taken := set id | id in c;
    forall x ensures x in c <==> x in taken {}
    ListedSize(c, taken);
    ListedSize(r, s);
    assert left + taken == s && left !! taken;
  }

  lemma RoundTakesBatch(before: set<string>, after: set<string>, batch: nat)
    requires Round(before, after, batch)
    ensures |after| == if |before| < batch then 0 else |before| - batch
  {
    var c :| Candidates(c, before, batch) && after == before - (set id | id in c);
    var r :| Strings.Lists(r, before) && c == r[..if |r| < batch then |r| else batch];
    ListedSize(r, before);
    TakenFromList(r, before, c, after);
  }

  function Left(n: nat, batch: nat, rounds: nat): nat {
    if rounds == 0 then n else var m := Left(n, batch, rounds - 1); if m < batch then 0 else m - batch
  }

  lemma {:induction false} LeftIs(n: nat, batch: nat, rounds: nat)
    requires batch > 0
    ensures Left(n, batch, rounds) == if n < rounds * batch then 0 else n - rounds * batch
  {
    if rounds == 0 {
    } else {
      LeftIs(n, batch, rounds - 1);
      assert rounds * batch == (rounds - 1) * batch + batch;
    }
  }

  lemma {:induction false} RoundsLeave(sets: seq<set<string>>, batch: nat)
    requires sets != [] && forall k | 0 <= k < |sets| - 1 :: Round(sets[k], sets[k + 1], batch)
    ensures |sets[|sets| - 1]| == Left(|sets[0]|, batch, |sets| - 1)
  {
    var last := |sets| - 1;
    if last <= 0 {
    } else {
      RoundsLeave(sets[..last], batch);
      RoundTakesBatch(sets[last - 1], sets[last], batch);
    }
  }

  // n overdue leases are gone after ceil(n / batch) rounds, and no earlier.
  lemma RoundsClear(sets: seq<set<string>>, batch: nat)
    requires sets != [] && batch > 0
    requires forall k | 0 <= k < |sets| - 1 :: Round(sets[k], sets[k + 1], batch)
    ensures sets[|sets| - 1] == {} <==> |sets| - 1 >= (|sets[0]| + batch - 1) / batch
  {
    RoundsLeave(sets, batch);
    LeftIs(|sets[0]|, batch, |sets| - 1);
    CeilDiv(|sets[0]|, batch, |sets| - 1);
  }

  lemma CeilDiv(n: nat, batch: nat, k: nat)
    requires batch > 0
    ensures k >= (n + batch - 1) / batch <==> k * batch >= n
  {
    var q := (n + batch - 1) / batch;
    assert q * batch <= n + batch - 1 < q * batch + batch;
    if k >= q { assert k * batch >= q * batch; } else { assert (k + 1) * batch <= q * batch; }
  }
}
