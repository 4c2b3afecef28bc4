/** Garbage collection over durable container labels, and the personal operations built on the executor. */
module DockerRecovery {
  import opened Daemon
  import opened DockerClient
  import opened DockerExecutor
  import VolumeLock

  // ---------- garbage collection ----------

  function ExpiredIds(receipts: seq<Receipt>, now: int): seq<Id> {
    if receipts == [] then []
    else
      var init, r := receipts[..|receipts| - 1], receipts[|receipts| - 1];
      ExpiredIds(init, now) + (if r.deadline <= now then [r.id] else [])
  }

  lemma {:induction false} ExpiredPrefix(receipts: seq<Receipt>, now: int, i: nat)
    requires i <= |receipts|
    ensures ExpiredIds(receipts[..i], now) <= ExpiredIds(receipts, now)
    decreases |receipts|
  {
    if i == |receipts| {
      assert receipts[..i] == receipts;
    } else {
      ExpiredPrefix(receipts[..|receipts| - 1], now, i);
      assert receipts[..|receipts| - 1][..i] == receipts[..i];
    }
  }

  // expiredDockerReceiptIDs: the first batch of expired receipts, in listing order.
  method ExpiredReceiptIds(receipts: seq<Receipt>, now: int) returns (ids: seq<Id>)
    ensures ids <= ExpiredIds(receipts, now) && |ids| <= GC_BATCH_LIMIT
    ensures |ids| < GC_BATCH_LIMIT ==> ids == ExpiredIds(receipts, now)
    ensures forall id | id in ids :: exists r :: r in receipts && r.id == id && r.deadline <= now
  {
    ids := [];
    for i := 0 to |receipts|
      invariant ids == ExpiredIds(receipts[..i], now) && |ids| < GC_BATCH_LIMIT
      invariant forall id | id in ids :: exists r :: r in receipts && r.id == id && r.deadline <= now
    {
      assert receipts[..i + 1][..i] == receipts[..i];
      if receipts[i].deadline <= now {
        assert receipts[i] in receipts;
        ids := ids + [receipts[i].id];
      }
      if |ids| == GC_BATCH_LIMIT {
        ExpiredPrefix(receipts, now, i + 1);
        return;
      }
    }
    assert receipts[..|receipts|] == receipts;
  }

  // A container of the kind whose deadline, which is in its labels, has passed.
  predicate Overdue(s: State, id: Id, fences: bool, now: int) {
    id in s.issued && ReceiptOf(s.issued[id].labels, id).deadline <= now
    && if fences then s.issued[id].labels.Command? else s.issued[id].labels.Environment?
  }

  lemma BatchOverdue(s: State, receipts: seq<Receipt>, ids: seq<Id>, fences: bool, now: int)
    requires forall r | r in receipts :: if fences then IsFence(s, r) else IsEnvironment(s, r)
    requires forall id | id in ids :: exists r :: r in receipts && r.id == id && r.deadline <= now
    ensures forall k | 0 <= k < |ids| :: Overdue(s, ids[k], fences, now)
  {
    forall k | 0 <= k < |ids| ensures Overdue(s, ids[k], fences, now) {
      assert ids[k] in ids;
      var r :| r in receipts && r.id == ids[k] && r.deadline <= now;
      assert if fences then IsFence(s, r) else IsEnvironment(s, r);
    }
  }

  lemma OverdueLater(s: State, t: State, ids: seq<Id>, fences: bool, now: int)
    requires Later(s, t) && forall k | 0 <= k < |ids| :: Overdue(s, ids[k], fences, now)
    ensures forall k | 0 <= k < |ids| :: Overdue(t, ids[k], fences, now)
  {
  }

  lemma GoneLater(s: State, t: State, ids: seq<Id>, i: nat)
    requires Later(s, t) && i <= |ids| && forall k | 0 <= k < i :: ids[k] in s.issued && ids[k] !in s.live
    ensures forall k | 0 <= k < i :: ids[k] !in t.live
  {
  }

  lemma SweptLater(at: State, s: State, t: State, fences: bool, now: int)
    requires Later(at, s) && Later(s, t) && Swept(at, s, fences, now)
    ensures Swept(at, t, fences, now)
  {
  }

  lemma {:induction false} ExpiredHas(receipts: seq<Receipt>, now: int, r: Receipt)
    requires r in receipts && r.deadline <= now
    ensures r.id in ExpiredIds(receipts, now)
  {
    if r != receipts[|receipts| - 1] { ExpiredHas(receipts[..|receipts| - 1], now, r); }
  }

  // Everything of the kind that was there at `at`, ended and overdue, is gone.
  ghost predicate Swept(at: State, s: State, fences: bool, now: int) {
    forall id | id in at.live :: Listable(at, id, fences) && ReceiptOf(at.issued[id].labels, id).deadline <= now ==>
      id !in s.live
  }

  lemma AllSwept(at: State, s: State, fences: bool, now: int, receipts: seq<Receipt>, ids: seq<Id>)
    requires forall id | id in at.live :: Listable(at, id, fences) ==> ReceiptOf(at.issued[id].labels, id) in receipts
    requires ids == ExpiredIds(receipts, now) && forall id | id in ids :: id !in s.live
    ensures Swept(at, s, fences, now)
  {
    forall id | id in at.live && Listable(at, id, fences) && ReceiptOf(at.issued[id].labels, id).deadline <= now
      ensures id !in s.live
    {
      ExpiredHas(receipts, now, ReceiptOf(at.issued[id].labels, id));
    }
  }

  // An environment is due when its lease has expired, or a command reservation on it has.
  ghost predicate Due(s: State, x: Id, now: int) {
    x in s.issued &&
    ((s.issued[x].labels.Environment? && s.issued[x].labels.lease.expires <= now)
     || exists f :: f in s.issued && OverdueFence(s.issued[f].labels, x, now))
  }

  predicate OverdueFence(labels: Labels, parent: Id, now: int) {
    labels.Command? && labels.parent == parent && labels.deadline <= now
  }

  // GC removes due environments and command fences, nothing else; fences only after their parents
  // (which `Legal` demands of every step).
  ghost predicate GcTargets(before: Deeds, after: Deeds, s: State, now: int) {
    after == before.(removed := after.removed) &&
    forall x | x in after.removed && x !in before.removed ::
      x in s.issued && (s.issued[x].labels.Command? || Due(s, x, now))
  }

  ghost predicate Ended(s: State, lease: Lease, now: int) {
    lease.expires <= now && exists x :: x in s.issued && x !in s.live && EnvironmentOf(s.issued[x].labels, lease)
  }

  // A foreign container has, or had, the name of a command fence.
  ghost predicate Squatters(s: State) {
    exists x :: x in s.issued && s.issued[x].labels.Foreign? && s.issued[x].name.CommandName?
  }

  // Every environment removed is reported.
  ghost predicate Reported(before: Deeds, after: Deeds, s: State, released: seq<Lease>) {
    forall x | Removed(before, after, x) :: x in s.issued && s.issued[x].labels.Environment? ==>
      s.issued[x].labels.lease in released
  }

  lemma ReportedMore(a: Deeds, b: Deeds, c: Deeds, s: State, t: State, released: seq<Lease>, more: seq<Lease>, now: int)
    requires Later(s, t) && Reported(a, b, s, released) && Reported(b, c, t, more) && GcTargets(a, b, s, now)
    ensures Reported(a, c, t, released + more)
  {
    forall x | Removed(a, c, x) && x in t.issued && t.issued[x].labels.Environment?
      ensures t.issued[x].labels.lease in released + more
    {
      if x in b.removed { assert Removed(a, b, x); } else { assert Removed(b, c, x); }
    }
  }

  predicate EnvironmentOf(labels: Labels, lease: Lease) {
    labels.Environment? && labels.lease == lease
  }

  method GcDockerLease(e: Executor, d: Client, id: Id, now: int) returns (ok: bool, released: seq<Lease>)
    requires d.Valid()
    modifies d`s, d`log, d`did, d`setbacks
    ensures d.Valid() && Later(old(d.s), d.s)
    ensures forall lease | lease in released :: Ended(d.s, lease, now)
    ensures GcTargets(old(d.did), d.did, d.s, now)
    ensures ok && Overdue(d.s, id, false, now) ==> id !in d.s.live
    ensures ok ==> Reported(old(d.did), d.did, d.s, released)
    ensures d.setbacks >= old(d.setbacks) && (ok ==> d.setbacks == old(d.setbacks))
    ensures !ok && Overdue(d.s, id, false, now) ==> d.setbacks > old(d.setbacks) || Squatters(d.s)
    ensures Overdue(d.s, id, false, now) && id in d.s.live ==> d.setbacks > old(d.setbacks)
  {
    released := [];
    var r := e.RecordById(d, id);
    if !r.Found? { return r.Missing?, []; }
    if !r.container.labels.Environment? { return false, []; }
    var lease := r.container.labels.lease;
    var handle := Handle(r.id, r.container.labels.ref);
    d.Sound();
    assert Labelled(r.container, d.s.issued);
    if !ValidHandle(handle, r.id, r.container) { return false, []; }
    if lease.expires > now { return true, []; }
    ok := e.Stop(d, handle);
    if ok {
      assert EnvironmentOf(d.s.issued[id].labels, lease);
      released := [lease];
    }
  }

  // How many of the batch are still there.
  function Standing(ids: seq<Id>, live: set<Id>): nat {
    if ids == [] then 0
    else Standing(ids[..|ids| - 1], live) + if ids[|ids| - 1] in live then 1 else 0
  }

  lemma {:induction false} StandingLater(ids: seq<Id>, s: State, t: State)
    requires Later(s, t) && forall k | 0 <= k < |ids| :: ids[k] in s.issued
    ensures Standing(ids, t.live) <= Standing(ids, s.live)
  {
    if ids != [] { StandingLater(ids[..|ids| - 1], s, t); }
  }

  lemma StandingNext(ids: seq<Id>, i: nat, s: State, t: State)
    requires i < |ids| && Later(s, t) && forall k | 0 <= k < |ids| :: ids[k] in s.issued
    ensures Standing(ids[..i + 1], t.live) <= Standing(ids[..i], s.live) + if ids[i] in t.live then 1 else 0
  {
    StandingLater(ids[..i], s, t);
    assert ids[..i + 1][..i] == ids[..i];
  }

  lemma {:induction false} NoneStands(ids: seq<Id>, live: set<Id>)
    ensures Standing(ids, live) == 0 <==> forall k | 0 <= k < |ids| :: ids[k] !in live
  {
    if ids != [] {
      NoneStands(ids[..|ids| - 1], live);
      assert forall k | 0 <= k < |ids| - 1 :: ids[..|ids| - 1][k] == ids[k];
    }
  }

  // What the pass over the first `i` of the batch has done.
  ghost predicate Collected(ok: bool, released: seq<Lease>, before: Deeds, after: Deeds, s: State, ids: seq<Id>,
                            i: nat, now: int)
  {
    && i <= |ids| && (forall lease | lease in released :: Ended(s, lease, now)) && GcTargets(before, after, s, now)
    && (ok ==> (forall k | 0 <= k < i :: ids[k] !in s.live) && Reported(before, after, s, released))
  }

  lemma CollectedNext(ok: bool, fine: bool, released: seq<Lease>, more: seq<Lease>, a: Deeds, b: Deeds, c: Deeds,
                      s: State, t: State, ids: seq<Id>, i: nat, now: int)
    requires Collected(ok, released, a, b, s, ids, i, now) && i < |ids| && Later(s, t)
    requires forall k | 0 <= k < |ids| :: ids[k] in s.issued
    requires (forall lease | lease in more :: Ended(t, lease, now)) && GcTargets(b, c, t, now)
    requires fine ==> ids[i] !in t.live && Reported(b, c, t, more)
    ensures Collected(ok && fine, released + more, a, c, t, ids, i + 1, now)
  {
    EndedLater(released, s, t, now);
    TargetsJoin(a, b, c, s, t, now);
    if ok && fine {
      GoneLater(s, t, ids, i);
      ReportedMore(a, b, c, s, t, released, more, now);
    }
  }

  lemma TargetsJoin(a: Deeds, b: Deeds, c: Deeds, s: State, t: State, now: int)
    requires GcTargets(a, b, s, now) && Later(s, t) && GcTargets(b, c, t, now)
    ensures GcTargets(a, c, t, now)
  {
  }

  // The batch, until the context ends.
  method GcEachLease(e: Executor, d: Client, ids: seq<Id>, now: int)
    returns (ok: bool, released: seq<Lease>, ghost whole: bool)
    requires d.Valid() && forall k | 0 <= k < |ids| :: Overdue(d.s, ids[k], false, now)
    modifies d`s, d`log, d`did, d`setbacks
    ensures d.Valid() && Later(old(d.s), d.s)
    ensures forall lease | lease in released :: Ended(d.s, lease, now)
    ensures GcTargets(old(d.did), d.did, d.s, now)
    ensures ok ==> forall i | 0 <= i < |ids| :: ids[i] !in d.s.live
    ensures ok ==> Reported(old(d.did), d.did, d.s, released)
    ensures d.setbacks >= old(d.setbacks) && (ok ==> d.setbacks == old(d.setbacks))
    ensures !ok ==> d.setbacks > old(d.setbacks) || Squatters(d.s)
    // One failure leaves one container and does not keep the pass from the others.
    ensures if whole then Standing(ids, d.s.live) <= d.setbacks - old(d.setbacks) else d.setbacks > old(d.setbacks)
  {
    ok, released, whole := true, [], false;
    for i := 0 to |ids|
      invariant d.Valid() && Later(old(d.s), d.s)
      invariant Standing(ids[..i], d.s.live) <= d.setbacks - old(d.setbacks)
      invariant Collected(ok, released, old(d.did), d.did, d.s, ids, i, now)
      invariant d.setbacks >= old(d.setbacks) && (ok ==> d.setbacks == old(d.setbacks))
      invariant !ok ==> d.setbacks > old(d.setbacks) || Squatters(d.s)
    {
      var inTime := d.Ask();   // whether the context goes on
      if !inTime { return false, released, false; }
      ghost var mid, deeds := d.s, d.did;
      OverdueLater(old(d.s), mid, ids, false, now);
      var fine, more := GcDockerLease(e, d, ids[i], now);
      OverdueLater(mid, d.s, ids, false, now);
      CollectedNext(ok, fine, released, more, old(d.did), deeds, d.did, mid, d.s, ids, i, now);
      StandingNext(ids, i, mid, d.s);
      ok, released := ok && fine, released + more;
    }
    assert ids[..|ids|] == ids;
    whole := true;
  }

  // Unless the batch is full, success leaves nothing behind that was ended and expired when the
  // containers were listed.
  method GcDockerLeases(e: Executor, d: Client, now: int)
    returns (listed: bool, ok: bool, released: seq<Lease>, ghost at: State, ghost full: bool)
    requires d.Valid()
    modifies d`s, d`log, d`did, d`setbacks
    ensures d.Valid() && Later(old(d.s), d.s) && Later(old(d.s), at) && Later(at, d.s)
    ensures forall lease | lease in released :: Ended(d.s, lease, now)
    ensures GcTargets(old(d.did), d.did, d.s, now)
    ensures !listed ==> !ok && d.did == old(d.did) && released == [] && d.setbacks > old(d.setbacks)
    ensures (ok || d.setbacks == old(d.setbacks)) && !full ==> Swept(at, d.s, false, now)
    // Nothing removed goes unreported, and without a setback nothing keeps it from success.
    ensures ok ==> Reported(old(d.did), d.did, d.s, released)
    ensures d.setbacks >= old(d.setbacks) && (ok ==> d.setbacks == old(d.setbacks))
    ensures !ok ==> d.setbacks > old(d.setbacks) || Squatters(d.s)
  {
    ok, released, full := false, [], false;
    var receipts;
    listed, receipts := d.ListReceipts(false);
    at := d.s;
    if !listed { return; }
    var ids := ExpiredReceiptIds(receipts, now);
    full := |ids| == GC_BATCH_LIMIT;
    BatchOverdue(at, receipts, ids, false, now);
    ghost var whole;
    ok, released, whole := GcEachLease(e, d, ids, now);
    NoneStands(ids, d.s.live);
    if (ok || d.setbacks == old(d.setbacks)) && !full { AllSwept(at, d.s, false, now, receipts, ids); }
  }

  lemma EndedLater(leases: seq<Lease>, s: State, t: State, now: int)
    requires Later(s, t) && forall lease | lease in leases :: Ended(s, lease, now)
    ensures forall lease | lease in leases :: Ended(t, lease, now)
  {
    forall lease | lease in leases ensures Ended(t, lease, now) {
      var x :| x in s.issued && x !in s.live && EnvironmentOf(s.issued[x].labels, lease);
      assert x in t.issued && x !in t.live && EnvironmentOf(t.issued[x].labels, lease);
    }
  }

  // Each expired fence: stop its immutable parent; Stop clears the fence once the parent is gone.
  method GcDockerCommandFence(e: Executor, d: Client, id: Id, now: int) returns (ok: bool)
    requires d.Valid() && Overdue(d.s, id, true, now)
    modifies d`s, d`log, d`did, d`setbacks
    ensures d.Valid() && Later(old(d.s), d.s)
    ensures GcTargets(old(d.did), d.did, d.s, now)
    ensures ok ==> id !in d.s.live
    ensures d.setbacks >= old(d.setbacks) && (ok ==> d.setbacks == old(d.setbacks))
    ensures !ok ==> d.setbacks > old(d.setbacks) || Squatters(d.s)
    ensures id in d.s.live ==> d.setbacks > old(d.setbacks)
  {
    d.Sound();
    assert Labelled(d.s.issued[id], d.s.issued);
    var r := e.RecordById(d, id);
    if !r.Found? { return r.Missing?; }
    var labels := r.container.labels;
    if !labels.Command? { return false; }
    ok := e.Stop(d, Handle(labels.parent, labels.ref));
    assert OverdueFence(d.s.issued[id].labels, labels.parent, now);
    d.Sound();
    NoSquatterBeside(d.s, id);
  }

  // While a fence stands, no other container has its name.
  lemma NoSquatterBeside(s: State, fence: Id)
    requires Inv(s) && fence in s.issued && s.issued[fence].labels.Command?
    ensures fence in s.live ==> !Squatted(s, s.issued[fence].labels.parent)
  {
    assert Labelled(s.issued[fence], s.issued);
  }

  method GcEachFence(e: Executor, d: Client, ids: seq<Id>, now: int) returns (ok: bool, ghost whole: bool)
    requires d.Valid() && forall k | 0 <= k < |ids| :: Overdue(d.s, ids[k], true, now)
    modifies d`s, d`log, d`did, d`setbacks
    ensures d.Valid() && Later(old(d.s), d.s)
    ensures GcTargets(old(d.did), d.did, d.s, now)
    ensures ok ==> forall i | 0 <= i < |ids| :: ids[i] !in d.s.live
    ensures d.setbacks >= old(d.setbacks) && (ok ==> d.setbacks == old(d.setbacks))
    ensures !ok ==> d.setbacks > old(d.setbacks) || Squatters(d.s)
    ensures if whole then Standing(ids, d.s.live) <= d.setbacks - old(d.setbacks) else d.setbacks > old(d.setbacks)
  {
    ok, whole := true, false;
    for i := 0 to |ids|
      invariant d.Valid() && Later(old(d.s), d.s)
      invariant Standing(ids[..i], d.s.live) <= d.setbacks - old(d.setbacks)
      invariant GcTargets(old(d.did), d.did, d.s, now)
      invariant ok ==> Standing(ids[..i], d.s.live) == 0
      invariant d.setbacks >= old(d.setbacks) && (ok ==> d.setbacks == old(d.setbacks))
      invariant !ok ==> d.setbacks > old(d.setbacks) || Squatters(d.s)
    {
      var inTime := d.Ask();
      if !inTime { return false, false; }
      ghost var mid := d.s;
      OverdueLater(old(d.s), mid, ids, true, now);
      var fine := GcDockerCommandFence(e, d, ids[i], now);
      StandingNext(ids, i, mid, d.s);
      ok := ok && fine;
    }
    assert ids[..|ids|] == ids;
    NoneStands(ids, d.s.live);
    whole := true;
    var inTime := d.Ask();   // the context's error counts at the end as well
    ok := ok && inTime;
  }

  method GcDockerCommandFences(e: Executor, d: Client, now: int) returns (ok: bool, ghost at: State, ghost full: bool)
    requires d.Valid()
    modifies d`s, d`log, d`did, d`setbacks
    ensures d.Valid() && Later(old(d.s), d.s) && Later(old(d.s), at) && Later(at, d.s)
    ensures GcTargets(old(d.did), d.did, d.s, now)
    ensures (ok || d.setbacks == old(d.setbacks)) && !full ==> Swept(at, d.s, true, now)
    ensures d.setbacks >= old(d.setbacks) && (ok ==> d.setbacks == old(d.setbacks))
    ensures !ok ==> d.setbacks > old(d.setbacks) || Squatters(d.s)
  {
    ok, full := false, false;
    var listed, receipts := d.ListReceipts(true);
    at := d.s;
    if !listed { return; }
    var ids := ExpiredReceiptIds(receipts, now);
    full := |ids| == GC_BATCH_LIMIT;
    BatchOverdue(at, receipts, ids, true, now);
    ghost var whole;
    ok, whole := GcEachFence(e, d, ids, now);
    NoneStands(ids, d.s.live);
    if (ok || d.setbacks == old(d.setbacks)) && !full { AllSwept(at, d.s, true, now, receipts, ids); }
  }

  const PROBE_OWNER := "quota-probe:"

  // Only what belongs to a container of exactly this lease was removed, and nothing else done.
  ghost predicate EndsLease(before: Deeds, after: Deeds, s: State, lease: Lease) {
    after == before ||
    exists x :: x in s.issued && EnvironmentOf(s.issued[x].labels, lease)
      && StopTargets(before, after, s, Handle(x, RefOf(lease)))
  }

  lemma EndsIsDue(before: Deeds, after: Deeds, s: State, lease: Lease, now: int)
    requires EndsLease(before, after, s, lease) && lease.expires <= now
    ensures GcTargets(before, after, s, now)
  {
  }

  // The container of the lease, if there is one, is stopped.
  method EndLease(e: Executor, d: Client, lease: Lease) returns (ok: bool)
    requires d.Valid()
    modifies d`s, d`log, d`did, d`setbacks
    ensures d.Valid() && Undisturbed(d.me, old(d.s), d.s)
    ensures EndsLease(old(d.did), d.did, d.s, lease)
    ensures ok ==> NameLeft(old(d.s), d.s, LeaseName(lease))
    ensures d.setbacks >= old(d.setbacks) && (ok ==> d.setbacks == old(d.setbacks))
    ensures !ok ==> d.setbacks > old(d.setbacks) || Held(d.s, lease) || Squatters(d.s)
  {
    var found, handle;
    ok, found, handle := PersonalHandle(e, d, lease);
    if !ok { return false; }
    d.Sound();
    ghost var mid := d.s;
    if found {
      ok := e.Stop(d, handle);
      assert EnvironmentOf(d.s.issued[handle.id].labels, lease) && handle == Handle(handle.id, RefOf(lease));
      if !ok { return false; }
    }
    NameIsGone(old(d.s), mid, d.s, handle.id, LeaseName(lease));
  }

  // cleanupPersonalProbe: refused for anything but a probe, whose owner is named after the lease;
  // success leaves no container of the lease's name that was there before.
  method CleanupPersonalProbe(e: Executor, d: Client, lease: Lease) returns (ok: bool)
    requires d.Valid()
    modifies d`s, d`log, d`did, d`setbacks
    ensures d.Valid() && Undisturbed(d.me, old(d.s), d.s)
    ensures EndsLease(old(d.did), d.did, d.s, lease)
    ensures lease.owner != PROBE_OWNER + lease.id ==> !ok && d.did == old(d.did)
    ensures ok ==> NameLeft(old(d.s), d.s, LeaseName(lease))
    ensures d.setbacks >= old(d.setbacks) && (ok ==> d.setbacks == old(d.setbacks))
    ensures !ok && lease.owner == PROBE_OWNER + lease.id ==>
      d.setbacks > old(d.setbacks) || Held(d.s, lease) || Squatters(d.s)
  {
    var canonical := d.Ask();   // the lease id is a canonical UUID
    if !canonical || lease.owner != PROBE_OWNER + lease.id { return false; }
    ok := EndLease(e, d, lease);
    if !ok { return false; }
    ghost var mid := d.s;
    ok := e.RunHelper(d);   // the volume's checks, its subvolume and the volume itself
    EndsLater(old(d.did), d.did, mid, d.s, lease);
  }

  // Nobody who was there at `s` has the name at `t`.
  ghost predicate NameLeft(s: State, t: State, name: Name) {
    forall x | x in s.live && x in s.issued && x in t.live :: s.issued[x].name != name
  }

  lemma EndsLater(before: Deeds, after: Deeds, s: State, t: State, lease: Lease)
    requires Later(s, t) && EndsLease(before, after, s, lease)
    ensures EndsLease(before, after, t, lease)
  {
    if after != before {
      var x :| x in s.issued && EnvironmentOf(s.issued[x].labels, lease)
        && StopTargets(before, after, s, Handle(x, RefOf(lease)));
      assert EnvironmentOf(t.issued[x].labels, lease) && StopTargets(before, after, t, Handle(x, RefOf(lease)));
    }
  }

  // A name has one holder; when that is gone, so is everybody who had the name before.
  lemma NameIsGone(s: State, t: State, u: State, id: Id, name: Name)
    requires Later(s, t) && Later(t, u) && Inv(t)
    requires NameFree(t, name) || (id in t.live && t.issued[id].name == name && id !in u.live)
    ensures NameLeft(s, u, name)
  {
    forall x | x in s.live && x in s.issued && x in u.live ensures s.issued[x].name != name {
      assert x in t.live && t.issued[x] == s.issued[x];
    }
  }

  // What Preflight tries out before its deferred cleanup.
  method TryProbe(e: Executor, d: Client, lease: Lease) returns (ok: bool, handle: Handle)
    requires d.Valid()
    modifies d`s, d`log, d`did, d`notes, d`setbacks
    ensures d.Valid() && Later(old(d.s), d.s)
    ensures Launched(old(d.did), d.did, lease, e.image)
    ensures ok ==> handle.ref == RefOf(lease) && Admitted(d.s, handle, e.image, old(d.s.now))
    ensures d.setbacks >= old(d.setbacks) && (ok ==> d.setbacks == old(d.setbacks))
  {
    handle := Handle(0, RefOf(lease));
    ok := e.RunHelper(d);   // createPersonalProbeVolume
    if !ok { return; }
    var valid := d.Ask();
    var failures;
    failures, handle := e.Start(d, lease, valid, true);
    if failures != {} { return false, handle; }
    var limited := d.Ask();   // verifyPersonalProbeLimits
    if !limited { return false, handle; }
    ok := e.Inspect(d, handle);
  }

  // Preflight: ready only after a sandbox of exactly the probe's lease was seen active, and is gone again.
  method Preflight(e: Executor, d: Client, id: string, scope: string, disk: nat, timeout: nat)
    returns (ready: bool, lease: Lease)
    requires d.Valid()
    modifies d`s, d`log, d`did, d`notes, d`setbacks
    ensures d.Valid() && Later(old(d.s), d.s) && lease.id == id && lease.owner == PROBE_OWNER + id
    ensures d.did.dispatched == old(d.did).dispatched
    ensures ready ==> exists x :: Admitted(d.s, Handle(x, RefOf(lease)), e.image, old(d.s.now)) && x !in d.s.live
    ensures d.setbacks >= old(d.setbacks) && (ready ==> d.setbacks == old(d.setbacks))
  {
    var now := d.Clock();
    lease := Lease(id, id, PROBE_OWNER + id, scope, RestrictedWrite, disk, now, now + 2 * timeout);
    var valid := d.Ask();   // the request
    if !valid { return false, lease; }
    var handle;
    ready, handle := TryProbe(e, d, lease);
    d.Sound();
    ghost var mid := d.s;
    var cleaned := CleanupPersonalProbe(e, d, lease);
    ready := ready && cleaned;
    if ready {
      assert handle == Handle(handle.id, RefOf(lease));
      assert Labelled(mid.issued[handle.id], mid.issued);
      assert handle.id !in d.s.live;
      assert Admitted(d.s, handle, e.image, old(d.s.now));
    }
  }

  // A probe that was over has no sandbox any more.
  ghost predicate ProbeGone(from: State, s: State, lease: Lease, now: int) {
    lease.expires <= now && NameLeft(from, s, LeaseName(lease))
  }

  lemma ProbesLater(from: State, s: State, t: State, probes: seq<Lease>, i: nat, now: int)
    requires Later(s, t) && from.issued.Keys <= s.issued.Keys && i <= |probes|
    requires forall k | 0 <= k < i :: ProbeGone(from, s, probes[k], now)
    ensures forall k | 0 <= k < i :: ProbeGone(from, t, probes[k], now)
  {
  }

  // gcPersonalProbes, over the leases that the labels of expired probe volumes gave.
  method GcPersonalProbes(e: Executor, d: Client, probes: seq<Lease>, now: int) returns (ok: bool)
    requires d.Valid()
    modifies d`s, d`log, d`did, d`setbacks
    ensures d.Valid() && Later(old(d.s), d.s)
    ensures GcTargets(old(d.did), d.did, d.s, now)
    ensures ok ==> forall lease | lease in probes :: ProbeGone(old(d.s), d.s, lease, now)
    ensures d.setbacks >= old(d.setbacks) && (ok ==> d.setbacks == old(d.setbacks))
    ensures !ok && probes == [] ==> d.setbacks > old(d.setbacks)
  {
    ok := d.Ask();   // the listing and the labels it gave
    for i := 0 to |probes|
      invariant d.Valid() && Later(old(d.s), d.s)
      invariant GcTargets(old(d.did), d.did, d.s, now)
      invariant ok ==> forall k | 0 <= k < i :: ProbeGone(old(d.s), d.s, probes[k], now)
      invariant d.setbacks >= old(d.setbacks) && (ok ==> d.setbacks == old(d.setbacks))
      invariant !ok && i == 0 ==> d.setbacks > old(d.setbacks)
    {
      if probes[i].expires > now {
        ok := false;
      } else {
        ghost var before, mid := d.did, d.s;
        var fine := CleanupPersonalProbe(e, d, probes[i]);
        EndsIsDue(before, d.did, d.s, probes[i], now);
        if ok { ProbesLater(old(d.s), mid, d.s, probes, i, now); }
        ok := ok && fine;
      }
    }
    var inTime := d.Ask();
    ok := ok && inTime;
  }

  // The two passes over durable labels.
  method GcReceipts(e: Executor, d: Client, now: int)
    returns (listed: bool, ok: bool, released: seq<Lease>,
             ghost environments: State, ghost fences: State, ghost full: bool)
    requires d.Valid()
    modifies d`s, d`log, d`did, d`setbacks
    ensures d.Valid() && Later(old(d.s), d.s)
    ensures forall lease | lease in released :: Ended(d.s, lease, now)
    ensures GcTargets(old(d.did), d.did, d.s, now)
    ensures Later(old(d.s), environments) && Later(environments, d.s) && Later(old(d.s), fences) && Later(fences, d.s)
    ensures !listed ==> !ok && d.setbacks > old(d.setbacks)
    ensures (ok || d.setbacks == old(d.setbacks)) && !full ==>
      Swept(environments, d.s, false, now) && Swept(fences, d.s, true, now)
    ensures d.setbacks >= old(d.setbacks) && (ok ==> d.setbacks == old(d.setbacks))
    ensures !ok ==> d.setbacks > old(d.setbacks) || Squatters(d.s)
  {
    listed, ok, released, environments, full := GcDockerLeases(e, d, now);
    fences := d.s;
    if !listed { return; }
    ghost var mid, met := d.s, d.setbacks;
    var fine;
    ghost var more;
    fine, fences, more := GcDockerCommandFences(e, d, now);
    if (ok || met == old(d.setbacks)) && !full { SweptLater(environments, mid, d.s, false, now); }
    EndedLater(released, mid, d.s, now);
    ok, full := ok && fine, full || more;
  }

  // GC: no user command is dispatched, no lease is reported released that still has its container; unless
  // a batch is full, success has cleared everything overdue.
  method GC(e: Executor, d: Client, probes: seq<Lease>, now: int)
    returns (ok: bool, released: seq<Lease>, ghost environments: State, ghost fences: State, ghost full: bool)
    requires d.Valid()
    modifies d`s, d`log, d`did, d`setbacks
    ensures d.Valid() && Later(old(d.s), d.s)
    ensures forall lease | lease in released :: Ended(d.s, lease, now)
    ensures GcTargets(old(d.did), d.did, d.s, now)
    ensures Later(old(d.s), environments) && Later(old(d.s), fences)
    // Nothing overdue is left either if no request fails, whatever else keeps the pass from success.
    ensures (ok || d.setbacks == old(d.setbacks)) && !full ==>
      Swept(environments, d.s, false, now) && Swept(fences, d.s, true, now)
    // Without a setback, and with no probe left behind, it succeeds.
    ensures d.setbacks >= old(d.setbacks) && (ok ==> d.setbacks == old(d.setbacks))
    ensures !ok && probes == [] ==> d.setbacks > old(d.setbacks) || Squatters(d.s)
  {
    var listed;
    listed, ok, released, environments, fences, full := GcReceipts(e, d, now);
    if !listed { return; }
    ghost var mid, met := d.s, d.setbacks;
    var swept := GcPersonalProbes(e, d, probes, now);
    EndedLater(released, mid, d.s, now);
    if (ok || met == old(d.setbacks)) && !full {
      SweptLater(environments, mid, d.s, false, now);
      SweptLater(fences, mid, d.s, true, now);
    }
    ok := ok && swept;
  }

  // ---------- personal operations ----------

  datatype PersonalAction = Acquire | Execute | Release | DeleteData | Observe
  datatype Outcome = Refused | DataDeleted | DataMissing | LeaseMissing | LeaseReleased | LeaseExpired | LeaseActive

  method PersonalHandle(e: Executor, d: Client, lease: Lease) returns (ok: bool, found: bool, handle: Handle)
    requires d.Valid()
    modifies d`s, d`log, d`did, d`setbacks
    ensures d.Valid() && Undisturbed(d.me, old(d.s), d.s) && d.did == old(d.did)
    ensures ok && found ==> Names(d.s, handle) && d.s.issued[handle.id].labels.lease == lease
    ensures ok && found ==> handle.id in d.s.live && d.s.issued[handle.id].name == LeaseName(lease)
    ensures ok && !found ==> NameFree(d.s, LeaseName(lease))
    ensures d.setbacks >= old(d.setbacks) && (ok ==> d.setbacks == old(d.setbacks))
    ensures !ok ==> d.setbacks > old(d.setbacks) || Held(d.s, lease)
    ensures ok || d.setbacks == old(d.setbacks) ==> OnlyFound(old(d.s), d.s, lease, ok && found, handle.id)
  {
    d.Sound();
    handle := Handle(0, RefOf(lease));
    var r := e.RecordByName(d, LeaseName(lease));
    if r.Failed? { return false, false, handle; }
    d.Sound();
    if r.Missing? {
      NameFinds(old(d.s), d.s, lease, false, handle.id);
      return true, false, handle;
    }
    handle := Handle(r.id, RefOf(lease));
    if !ValidHandle(handle, r.id, r.container) {
      assert Holds(r.container, r.id, lease);
      NameFinds(old(d.s), d.s, lease, false, handle.id);
      return false, false, handle;
    }
    NameFinds(old(d.s), d.s, lease, true, handle.id);
    return true, true, handle;
  }

  // A user command, if any, entered a container labelled with exactly this lease.
  ghost predicate RanIn(before: Deeds, after: Deeds, s: State, lease: Lease) {
    exists x :: x in s.issued && EnvironmentOf(s.issued[x].labels, lease) && after.dispatched == before.dispatched + [x]
  }

  // A container of exactly this lease was admitted, unexpired at `now` and of the image; the last thing
  // the call did was to see it run under its supervisor's lock.
  ghost predicate SeenActive(s: State, lease: Lease, image: string, now: int, notes: seq<Note>) {
    exists x :: Admitted(s, Handle(x, RefOf(lease)), image, now) && Ends(notes, RunningNotes(x))
  }

  predicate Ends(notes: seq<Note>, last: seq<Note>) {
    |last| <= |notes| && notes[|notes| - |last|..] == last
  }

  ghost predicate LeaseGone(s: State, lease: Lease) {
    exists x :: x in s.issued && x !in s.live && EnvironmentOf(s.issued[x].labels, lease)
  }

  // The one script an action may start on its owner's volume.
  predicate OwnScript(action: PersonalAction, createData: bool, script: VolumeLock.Script) {
    match action
    case Acquire => script.Prepare? && (script.allowCreate ==> createData)
    case Execute => script == VolumeLock.Prepare(false)
    case Release => false
    case DeleteData => script == VolumeLock.Delete
    case Observe => script == VolumeLock.Inspect
  }

  ghost predicate OwnErrand(before: Deeds, after: Deeds, action: PersonalAction, createData: bool, owner: string) {
    after.errands == before.errands ||
    exists script :: OwnScript(action, createData, script) && after.errands == before.errands + [Errand(owner, script)]
  }

  // The volume was prepared; data could be made only with permission, and for a new sandbox.
  predicate MadeReady(before: Deeds, after: Deeds, createData: bool, owner: string) {
    after.errands == before.errands + [Errand(owner, VolumeLock.Prepare(createData && Created(before, after)))]
  }

  // The sandbox of the lease that was there before is gone.
  ghost predicate Cleared(from: State, s: State, lease: Lease) {
    forall x | x in from.live && x in from.issued && EnvironmentOf(from.issued[x].labels, lease) :: x !in s.live
  }

  // The only sandbox of the lease that was there before and still is, if any, is the one found.
  ghost predicate OnlyFound(from: State, s: State, lease: Lease, found: bool, id: Id) {
    forall x | x in from.live && x in from.issued && EnvironmentOf(from.issued[x].labels, lease) && x in s.live ::
      found && x == id
  }

  lemma NameFinds(from: State, s: State, lease: Lease, found: bool, id: Id)
    requires Inv(from) && Inv(s) && Later(from, s)
    requires if found then id in s.live && s.issued[id].name == LeaseName(lease)
      else NameFree(s, LeaseName(lease)) || Held(s, lease)
    ensures OnlyFound(from, s, lease, found, id)
  {
    forall x | x in from.live && x in from.issued && EnvironmentOf(from.issued[x].labels, lease) && x in s.live
      ensures found && x == id
    {
      assert s.issued[x] == from.issued[x] && Labelled(s.issued[x], s.issued);
    }
  }

  // Nothing was removed but containers of exactly this lease and fences on them.
  ghost predicate EndsOnly(before: Deeds, after: Deeds, s: State, lease: Lease) {
    forall x | Removed(before, after, x) ::
      x in s.issued && (EnvironmentOf(s.issued[x].labels, lease) || FenceOf(s, x, lease))
  }

  predicate FenceOf(s: State, x: Id, lease: Lease)
    requires x in s.issued
  {
    s.issued[x].labels.Command? && s.issued[x].labels.parent in s.issued &&
    EnvironmentOf(s.issued[s.issued[x].labels.parent].labels, lease)
  }

  // A sandbox of the lease was removed.
  ghost predicate EndedSandbox(before: Deeds, after: Deeds, s: State, lease: Lease) {
    exists x :: Removed(before, after, x) && x in s.issued && EnvironmentOf(s.issued[x].labels, lease)
  }

  // Another call's reservation of a sandbox of the lease, its time over or not.
  ghost predicate Blocked(from: State, s: State, lease: Lease, me: Call, over: bool) {
    exists x :: x in s.issued && EnvironmentOf(s.issued[x].labels, lease) &&
      (Overrun(from, s, x, me) || (!over && Contended(from, s, x, me)))
  }

  // A sandbox of the lease that was there when the call began, or came later, cannot be used, for no doing
  // of this call.
  ghost predicate Unusable(from: State, s: State, lease: Lease, image: string, before: Deeds, after: Deeds) {
    exists x :: x in s.issued && EnvironmentOf(s.issued[x].labels, lease) && (x in from.issued ==> x in from.live)
      && Unfit(s, Handle(x, RefOf(lease)), image, before, after)
  }

  predicate Finishes(action: PersonalAction, lease: Lease, now: int) {
    action.Release? || (lease.expires <= now && (action.Execute? || action.Observe?))
  }

  ghost predicate Unstartable(lease: Lease, image: string, from: State, s: State, before: Deeds, after: Deeds) {
    || lease.expires <= s.now || OldImage(s, lease, image)
    || (Created(before, after) && NameFree(s, LeaseName(lease)))
    || Unusable(from, s, lease, image, before, after)
  }

  // What keeps an operation that meets no setback from its answer.
  ghost predicate Obstacle(action: PersonalAction, lease: Lease, image: string, argvOk: bool, timeout: nat, me: Call,
                           from: State, s: State, before: Deeds, after: Deeds)
  {
    || Held(s, lease)
    || match action
       case Acquire => Unstartable(lease, image, from, s, before, after)
       case Execute => lease.expires <= s.now || NameFree(s, LeaseName(lease))
         || !argvOk || from.now + timeout <= s.now || Blocked(from, s, lease, me, false)
         || Unusable(from, s, lease, image, before, after)
       case Release => Squatters(s)
       case DeleteData => Attached(s, lease.owner)
       case Observe => Squatters(s) || (lease.expires > from.now && Unusable(from, s, lease, image, before, after))
  }

  // PersonalOperation: the action decides what may happen, the outcome tells what did.
  method PersonalOperation(e: Executor, d: Client, action: PersonalAction, lease: Lease, createData: bool,
                           hasTask: bool, argvOk: bool, timeout: nat)
    returns (outcome: Outcome)
    requires d.Valid() && forall f :: !Mine(d.s, f, d.me)
    modifies d`s, d`log, d`did, d`notes, d`setbacks
    ensures d.Valid() && Later(old(d.s), d.s) && d.setbacks >= old(d.setbacks)
    ensures !outcome.Refused? ==> d.setbacks == old(d.setbacks)
    ensures d.did.dispatched == old(d.did).dispatched || (action.Execute? && RanIn(old(d.did), d.did, d.s, lease))
    ensures d.did.created == old(d.did).created || action.Acquire? || action.Execute?
    ensures OwnErrand(old(d.did), d.did, action, createData, lease.owner)
    ensures outcome.LeaseActive? && action.Execute? ==> RanIn(old(d.did), d.did, d.s, lease)
    ensures outcome.LeaseActive? ==>
      SeenActive(d.s, lease, e.image, old(d.s.now), d.notes) && !action.Release? && !action.DeleteData?
    ensures outcome.LeaseActive? && action.Acquire? ==> MadeReady(old(d.did), d.did, createData, lease.owner)
    ensures outcome.LeaseMissing? ==> action.Release? && NameFree(d.s, LeaseName(lease))
    ensures outcome.LeaseReleased? ==> action.Release? && LeaseGone(d.s, lease)
    ensures outcome.LeaseExpired? ==> action.Observe? && lease.expires <= d.s.now && LeaseGone(d.s, lease)
    ensures outcome.DataDeleted? ==> action.Observe? || (action.DeleteData? && !Attached(d.s, lease.owner))
    ensures outcome.DataMissing? ==> action.Observe?
    ensures outcome.DataDeleted? || outcome.DataMissing? ==> NameLeft(old(d.s), d.s, LeaseName(lease))
    // "Deleted" is said only of data given up and gone, which it then stays. From then on no operation of
    // any call is answered "active" or "missing" for the owner, starts a sandbox or sends a command into one.
    ensures outcome.DataDeleted? ==> lease.owner in Retirees(d.s)
    ensures lease.owner in Tombstones(old(d.s)) ==>
      !outcome.LeaseActive? && !outcome.DataMissing?
      && d.did.dispatched == old(d.did).dispatched && d.did.created == old(d.did).created
    // A sandbox is ended only by a release, after its lease or another call's reservation is over, or after a
    // run under this call's own fence; never by an acquisition, a deletion, or the observation of a lease that
    // goes on, and never behind the answer "active".
    ensures EndsOnly(old(d.did), d.did, d.s, lease)
    ensures action.Acquire? || action.DeleteData? ==> d.did.removed == old(d.did).removed
    ensures action.Observe? && lease.expires > d.s.now ==> Quiet(old(d.did), d.did)
    ensures EndedSandbox(old(d.did), d.did, d.s, lease) ==>
      action.Release? || lease.expires <= d.s.now ||
      (action.Execute? && (Created(old(d.did), d.did) || Blocked(old(d.s), d.s, lease, d.me, true)))
    ensures outcome.LeaseActive? ==> !EndedSandbox(old(d.did), d.did, d.s, lease)
    // A release, and an execution or observation of a lease that is over, do end it unless a request fails.
    ensures d.setbacks == old(d.setbacks) && Finishes(action, lease, old(d.s.now)) ==>
      Cleared(old(d.s), d.s, lease)
    // A deletion leaves the data alone beside a sandbox that is attached all the time.
    ensures action.DeleteData? && StaysAttached(old(d.s), d.s, lease.owner) ==> d.did == old(d.did)
    // Refused without a setback: then there is an obstacle.
    ensures outcome.Refused? && d.setbacks == old(d.setbacks) ==>
      Obstacle(action, lease, e.image, argvOk, timeout, d.me, old(d.s), d.s, old(d.did), d.did)
  {
    var ok, found, handle := PersonalHandle(e, d, lease);
    if !ok {
      outcome := Refused;
    } else {
      match action {
        case DeleteData =>
          outcome := DeleteUnused(e, d, lease, found, handle, old(d.s));
        case Release =>
          if found { outcome := EndFound(e, d, lease, handle); } else { outcome := LeaseMissing; }
        case Acquire =>
          outcome := AcquireSandbox(e, d, lease, createData, old(d.s));
        case _ =>
          outcome := ExecuteOrObserve(e, d, action.Execute?, lease, found, handle, hasTask, argvOk, timeout,
                                      old(d.s));
      }
    }
  }

  // The data goes only when no sandbox of the lease was found.
  method DeleteUnused(e: Executor, d: Client, lease: Lease, found: bool, handle: Handle, ghost from: State)
    returns (outcome: Outcome)
    requires d.Valid() && Later(from, d.s)
    requires found ==> Names(d.s, handle) && d.s.issued[handle.id].labels.lease == lease && handle.id in d.s.live
    requires !found ==> NameFree(d.s, LeaseName(lease))
    modifies d`s, d`log, d`did, d`setbacks
    ensures d.Valid() && Undisturbed(d.me, old(d.s), d.s) && d.setbacks >= old(d.setbacks)
    ensures !outcome.Refused? ==> d.setbacks == old(d.setbacks)
    ensures Began(old(d.did), d.did, Errand(lease.owner, VolumeLock.Delete))
    ensures outcome.DataDeleted? || outcome.Refused?
    ensures outcome.DataDeleted? ==> lease.owner in Retirees(d.s) && !Attached(d.s, lease.owner)
    ensures outcome.DataDeleted? ==> NameLeft(from, d.s, LeaseName(lease))
    ensures outcome.Refused? ==> d.setbacks > old(d.setbacks) || Attached(d.s, lease.owner)
    ensures StaysAttached(from, d.s, lease.owner) ==> d.did == old(d.did)
  {
    if found {
      assert Belongs(d.s, handle.id, lease.owner);
      return Refused;
    }
    d.Sound();
    ghost var mid := d.s;
    var deleted := e.DeletePersonalData(d, lease);
    AttachedBetween(from, mid, d.s, lease.owner);
    NameIsGone(from, mid, d.s, handle.id, LeaseName(lease));
    return if deleted then DataDeleted else Refused;
  }

  // The sandbox that was found is released.
  method EndFound(e: Executor, d: Client, lease: Lease, handle: Handle) returns (outcome: Outcome)
    requires d.Valid() && Names(d.s, handle) && d.s.issued[handle.id].labels.lease == lease
    modifies d`s, d`log, d`did, d`setbacks
    ensures d.Valid() && Undisturbed(d.me, old(d.s), d.s) && d.setbacks >= old(d.setbacks)
    ensures !outcome.Refused? ==> d.setbacks == old(d.setbacks)
    ensures outcome.LeaseReleased? || outcome.Refused?
    ensures outcome.LeaseReleased? ==> LeaseGone(d.s, lease)
    ensures outcome.Refused? ==> d.setbacks > old(d.setbacks) || Squatters(d.s)
    ensures handle.id in d.s.live ==> d.setbacks > old(d.setbacks)
    ensures d.did == old(d.did).(removed := d.did.removed) && EndsOnly(old(d.did), d.did, d.s, lease)
  {
    var stopped := e.Stop(d, handle);
    assert EnvironmentOf(d.s.issued[handle.id].labels, lease);
    outcome := if stopped then LeaseReleased else Refused;
  }

  method AcquireSandbox(e: Executor, d: Client, lease: Lease, createData: bool, ghost from: State)
    returns (outcome: Outcome)
    requires d.Valid() && Later(from, d.s)
    modifies d`s, d`log, d`did, d`notes, d`setbacks
    ensures d.Valid() && Later(old(d.s), d.s) && d.setbacks >= old(d.setbacks)
    ensures !outcome.Refused? ==> d.setbacks == old(d.setbacks)
    ensures outcome.LeaseActive? || outcome.Refused?
    ensures d.did == old(d.did).(created := d.did.created, errands := d.did.errands)
    ensures OwnErrand(old(d.did), d.did, Acquire, createData, lease.owner)
    ensures outcome.LeaseActive? ==> MadeReady(old(d.did), d.did, createData, lease.owner)
    ensures outcome.LeaseActive? ==> SeenActive(d.s, lease, e.image, old(d.s.now), d.notes)
    ensures lease.owner in Tombstones(old(d.s)) ==> outcome.Refused? && d.did.created == old(d.did).created
    ensures outcome.Refused? && d.setbacks == old(d.setbacks) ==>
      Held(d.s, lease) || Unstartable(lease, e.image, from, d.s, old(d.did), d.did)
  {
    var valid := d.Ask();   // validateRequest, but for the expiry
    var failures, started := e.Start(d, lease, valid, createData);
    if failures != {} { return Refused; }
    ghost var mid := d.s;
    outcome := InspectActive(e, d, lease, started);
    assert EnvironmentOf(d.s.issued[started.id].labels, lease) && started == Handle(started.id, RefOf(lease));
  }

  // The usage behind an active answer is that of a container of exactly this lease.
  method InspectActive(e: Executor, d: Client, lease: Lease, handle: Handle) returns (outcome: Outcome)
    requires d.Valid() && Names(d.s, handle) && d.s.issued[handle.id].labels.lease == lease
    modifies d`s, d`log, d`did, d`notes, d`setbacks
    ensures d.Valid() && Undisturbed(d.me, old(d.s), d.s) && d.did == old(d.did) && d.setbacks >= old(d.setbacks)
    ensures !outcome.Refused? ==> d.setbacks == old(d.setbacks)
    ensures outcome.LeaseActive? ==> SeenActive(d.s, lease, e.image, old(d.s.now), d.notes)
    ensures outcome.LeaseActive? ==> lease.owner !in Tombstones(old(d.s))
    ensures outcome.LeaseActive? || outcome.Refused?
    ensures outcome.Refused? ==> d.setbacks > old(d.setbacks) || !Fit(d.s, handle, e.image)
  {
    var inspected := e.Inspect(d, handle);
    if !inspected { return Refused; }
    assert handle == Handle(handle.id, RefOf(lease)) && Ends(d.notes, RunningNotes(handle.id));
    return LeaseActive;
  }

  method ExecuteOrObserve(e: Executor, d: Client, execute: bool, lease: Lease, found: bool, handle: Handle,
                          hasTask: bool, argvOk: bool, timeout: nat, ghost from: State)
    returns (outcome: Outcome)
    requires d.Valid() && Later(from, d.s) && forall f :: !Mine(d.s, f, d.me)
    requires found ==> Names(d.s, handle) && d.s.issued[handle.id].labels.lease == lease && handle.id in d.s.live
    requires !found ==> NameFree(d.s, LeaseName(lease))
    modifies d`s, d`log, d`did, d`notes, d`setbacks
    ensures d.Valid() && Later(old(d.s), d.s) && d.setbacks >= old(d.setbacks)
    ensures !outcome.Refused? ==> d.setbacks == old(d.setbacks)
    ensures d.did.dispatched == old(d.did).dispatched || (execute && RanIn(old(d.did), d.did, d.s, lease))
    ensures d.did.created == old(d.did).created || execute
    ensures OwnErrand(old(d.did), d.did, if execute then Execute else Observe, false, lease.owner)
    ensures outcome.LeaseActive? && execute ==> RanIn(old(d.did), d.did, d.s, lease)
    ensures outcome.LeaseActive? ==> SeenActive(d.s, lease, e.image, old(d.s.now), d.notes)
    ensures outcome.LeaseExpired? ==> !execute && lease.expires <= d.s.now && LeaseGone(d.s, lease)
    ensures !outcome.LeaseMissing? && !outcome.LeaseReleased?
    ensures outcome.DataDeleted? ==> !execute && lease.owner in Retirees(d.s)
    ensures outcome.DataDeleted? || outcome.DataMissing? ==> !execute && NameLeft(from, d.s, LeaseName(lease))
    ensures lease.owner in Tombstones(old(d.s)) ==>
      !outcome.LeaseActive? && !outcome.DataMissing?
      && d.did.dispatched == old(d.did).dispatched && d.did.created == old(d.did).created
    ensures EndsOnly(old(d.did), d.did, d.s, lease)
    ensures !execute && lease.expires > d.s.now ==> Quiet(old(d.did), d.did)
    ensures EndedSandbox(old(d.did), d.did, d.s, lease) ==>
      lease.expires <= d.s.now ||
      (execute && (Created(old(d.did), d.did) || Blocked(from, d.s, lease, d.me, true)))
    ensures outcome.LeaseActive? ==> !EndedSandbox(old(d.did), d.did, d.s, lease)
    ensures found && lease.expires <= old(d.s.now) && handle.id in d.s.live ==> d.setbacks > old(d.setbacks)
    ensures outcome.Refused? && d.setbacks == old(d.setbacks) ==>
      Obstacle(if execute then Execute else Observe, lease, e.image, argvOk, timeout, d.me,
               from, d.s, old(d.did), d.did)
  {
    if !found {
      if execute { return Refused; }
      outcome := ObserveMissing(e, d, lease, from);
      return;
    }
    outcome := OperateFound(e, d, execute, lease, handle, hasTask, argvOk, timeout, from);
  }

  // The sandbox that was found is ended if its lease is over, and otherwise used or looked at.
  method OperateFound(e: Executor, d: Client, execute: bool, lease: Lease, handle: Handle,
                      hasTask: bool, argvOk: bool, timeout: nat, ghost from: State)
    returns (outcome: Outcome)
    requires d.Valid() && Later(from, d.s) && forall f :: !Mine(d.s, f, d.me)
    requires Names(d.s, handle) && d.s.issued[handle.id].labels.lease == lease && handle.id in d.s.live
    modifies d`s, d`log, d`did, d`notes, d`setbacks
    ensures d.Valid() && Later(old(d.s), d.s) && d.setbacks >= old(d.setbacks)
    ensures !outcome.Refused? ==> d.setbacks == old(d.setbacks)
    ensures d.did.dispatched == old(d.did).dispatched || (execute && RanIn(old(d.did), d.did, d.s, lease))
    ensures d.did.created == old(d.did).created || execute
    ensures if execute then OwnErrand(old(d.did), d.did, Execute, false, lease.owner)
      else d.did.errands == old(d.did).errands
    ensures outcome.LeaseActive? && execute ==> RanIn(old(d.did), d.did, d.s, lease)
    ensures outcome.LeaseActive? ==> SeenActive(d.s, lease, e.image, old(d.s.now), d.notes)
    ensures outcome.LeaseExpired? ==> !execute && lease.expires <= d.s.now && LeaseGone(d.s, lease)
    ensures outcome.LeaseActive? || outcome.LeaseExpired? || outcome.Refused?
    ensures lease.owner in Tombstones(old(d.s)) ==>
      !outcome.LeaseActive? && d.did.dispatched == old(d.did).dispatched && d.did.created == old(d.did).created
    ensures EndsOnly(old(d.did), d.did, d.s, lease)
    ensures !execute && lease.expires > d.s.now ==> d.did == old(d.did)
    ensures EndedSandbox(old(d.did), d.did, d.s, lease) ==>
      lease.expires <= d.s.now ||
      (execute && (Created(old(d.did), d.did) || Blocked(from, d.s, lease, d.me, true)))
    ensures outcome.LeaseActive? ==> !EndedSandbox(old(d.did), d.did, d.s, lease)
    ensures lease.expires <= old(d.s.now) && handle.id in d.s.live ==> d.setbacks > old(d.setbacks)
    ensures outcome.Refused? && d.setbacks == old(d.setbacks) ==>
      Obstacle(if execute then Execute else Observe, lease, e.image, argvOk, timeout, d.me,
               from, d.s, old(d.did), d.did)
  {
    var now := d.Clock();
    if lease.expires <= now {
      outcome := EndFound(e, d, lease, handle);
      return if outcome.LeaseReleased? && !execute then LeaseExpired else Refused;
    }
    if execute {
      outcome := ExecuteFound(e, d, lease, handle, hasTask, argvOk, timeout, from);
    } else {
      outcome := InspectActive(e, d, lease, handle);
    }
    if Unfit(d.s, handle, e.image, old(d.did), d.did) {
      UnfitIsUnusable(from, old(d.s), d.s, handle, lease, e.image, old(d.did), d.did);
    }
  }

  lemma UnfitIsUnusable(from: State, mid: State, s: State, handle: Handle, lease: Lease, image: string,
                        before: Deeds, after: Deeds)
    requires Later(from, mid) && Later(mid, s) && Names(mid, handle) && mid.issued[handle.id].labels.lease == lease
    requires handle.id in mid.live && Unfit(s, handle, image, before, after)
    ensures Unusable(from, s, lease, image, before, after)
  {
    assert handle == Handle(handle.id, RefOf(lease)) && EnvironmentOf(s.issued[handle.id].labels, lease);
  }

  // No sandbox of the lease was found: what became of the data.
  method ObserveMissing(e: Executor, d: Client, lease: Lease, ghost from: State) returns (outcome: Outcome)
    requires d.Valid() && Later(from, d.s) && NameFree(d.s, LeaseName(lease))
    modifies d`s, d`log, d`did, d`setbacks
    ensures d.Valid() && Undisturbed(d.me, old(d.s), d.s) && d.setbacks >= old(d.setbacks)
    ensures !outcome.Refused? ==> d.setbacks == old(d.setbacks)
    ensures Began(old(d.did), d.did, Errand(lease.owner, VolumeLock.Inspect))
    ensures outcome.DataDeleted? || outcome.DataMissing? || (outcome.Refused? && d.setbacks > old(d.setbacks))
    ensures outcome.DataDeleted? ==> lease.owner in Retirees(d.s)
    ensures outcome.DataMissing? ==> lease.owner !in Tombstones(old(d.s))
    ensures NameLeft(from, d.s, LeaseName(lease))
  {
    d.Sound();
    ghost var mid := d.s;
    var answered, retired := e.PersonalDataRetired(d, lease);
    NameIsGone(from, mid, d.s, 0, LeaseName(lease));
    return if !answered then Refused else if retired then DataDeleted else DataMissing;
  }

  // The command, and the look at the sandbox afterwards.
  method ExecuteFound(e: Executor, d: Client, lease: Lease, handle: Handle, hasTask: bool, argvOk: bool, timeout: nat,
                      ghost from: State)
    returns (outcome: Outcome)
    requires d.Valid() && Later(from, d.s) && forall f :: !Mine(d.s, f, d.me)
    requires Names(d.s, handle) && d.s.issued[handle.id].labels.lease == lease
    modifies d`s, d`log, d`did, d`notes, d`setbacks
    ensures d.Valid() && Later(old(d.s), d.s) && d.setbacks >= old(d.setbacks)
    ensures !outcome.Refused? ==> d.setbacks == old(d.setbacks)
    ensures outcome.LeaseActive? || outcome.Refused?
    ensures d.did.dispatched == old(d.did).dispatched || RanIn(old(d.did), d.did, d.s, lease)
    ensures OwnErrand(old(d.did), d.did, Execute, false, lease.owner)
    ensures outcome.LeaseActive? ==> RanIn(old(d.did), d.did, d.s, lease)
    ensures outcome.LeaseActive? ==> SeenActive(d.s, lease, e.image, old(d.s.now), d.notes)
    ensures lease.owner in Tombstones(old(d.s)) ==> outcome.Refused? && d.did == old(d.did)
    ensures EndsOnly(old(d.did), d.did, d.s, lease)
    ensures EndedSandbox(old(d.did), d.did, d.s, lease) ==>
      outcome.Refused? && (Created(old(d.did), d.did) || Blocked(from, d.s, lease, d.me, true))
    ensures outcome.Refused? && d.setbacks == old(d.setbacks) ==>
      !argvOk || from.now + timeout <= d.s.now || Unfit(d.s, handle, e.image, old(d.did), d.did)
      || Blocked(from, d.s, lease, d.me, false)
  {
    var failures := e.ExecuteTask(d, handle, argvOk, hasTask, timeout);
    assert EnvironmentOf(d.s.issued[handle.id].labels, lease);
    RivalsLater(from, old(d.s), d.s, d.s, handle.id, d.me);
    if failures != {} { return Refused; }
    outcome := InspectActive(e, d, lease, handle);
  }
}
