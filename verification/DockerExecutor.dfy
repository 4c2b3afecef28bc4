/** The personal environment executor: one method per Go function, over one call's daemon connection. */
module DockerExecutor {
  import opened Daemon
  import opened DockerClient
  import VolumeLock

  const GC_BATCH_LIMIT: nat := 32

  datatype Handle = Handle(id: Id, ref: Ref)

  datatype Fence = Fence(id: Id, parent: Handle, call: Call)

  datatype Failure =
    | BadArguments | NotFound | WrongLease | ImageChanged | Expired | NotRunning | NotReserved | Reserved
    | OutcomeUnknown | VolumeUnavailable | Busy | WorkspaceUnavailable | CommandFailed | DaemonFailed
    | Canceled | StopFailed | FenceKept

  // validateDockerHandle.
  predicate ValidHandle(handle: Handle, id: Id, c: Container) {
    && handle.id == id && c.labels.Environment? && c.labels.ref == handle.ref
    && c.labels.name == LeaseName(c.labels.lease) && RefOf(c.labels.lease) == handle.ref
  }

  // The handle names a container that was created for exactly the lease behind its ref.
  predicate Names(s: State, handle: Handle) {
    handle.id in s.issued && ValidHandle(handle, handle.id, s.issued[handle.id])
  }

  // What Stop may remove: the handle's own container and, once that is gone, a fence on it.
  ghost predicate StopTargets(before: Deeds, after: Deeds, s: State, handle: Handle) {
    after == before.(removed := after.removed) &&
    forall x | x in after.removed && x !in before.removed :: StopTarget(x, s, handle)
  }

  ghost predicate StopsAndCreates(before: Deeds, after: Deeds, s: State, handle: Handle) {
    forall x | x in after.removed && x !in before.removed :: StopTarget(x, s, handle)
  }

  predicate StopTarget(x: Id, s: State, handle: Handle) {
    x in s.issued && ((x == handle.id && ValidHandle(handle, x, s.issued[x]))
                      || (s.issued[x].labels.Command? && s.issued[x].labels.parent == handle.id))
  }

  // Every fence `s` knows on the container is gone in `t`.
  predicate NoFenceOn(s: State, t: State, parent: Id) {
    forall f | f in s.issued && f in t.live :: !(s.issued[f].labels.Command? && s.issued[f].labels.parent == parent)
  }

  // A container has one command name, so looking it up finds the one fence there can be.
  lemma FenceByName(s: State, t: State, u: State, parent: Id, r: Lookup)
    requires Later(s, t) && Later(t, u) && Inv(t) && !r.Failed?
    requires r.Missing? ==> NameFree(t, CommandName(parent))
    requires r.Found? ==> r.id in t.live && t.issued[r.id].name == CommandName(parent)
    ensures r.Missing? || r.id !in u.live ==> NoFenceOn(s, u, parent)
  {
    forall f | f in s.issued && f in u.live && s.issued[f].labels.Command? && s.issued[f].labels.parent == parent
      ensures r.Found? && f == r.id
    {
      assert Labelled(t.issued[f], t.issued);
    }
  }

  // The container is this lease's own, of the expected image, and its lease runs past `now`.
  predicate Admitted(s: State, handle: Handle, image: string, now: int) {
    Names(s, handle) && s.issued[handle.id].labels.image == image && s.issued[handle.id].labels.lease.expires > now
  }

  // containerArgs: name and labels of a lease's container.
  function LeaseContainer(lease: Lease, image: string): Container {
    Container(LeaseName(lease), Environment(RefOf(lease), LeaseName(lease), image, lease))
  }

  // What has to be established, in this order: requireRunning; the recheck under the fence; a whole task.
  function RunningNotes(id: Id): seq<Note> {
    [Saw(IsRunning, id), Saw(HoldsLock, id)]
  }

  function IdleNotes(id: Id, hasTask: bool): seq<Note> {
    [Saw(OnlySupervisor, id)] + if hasTask then [Saw(HasWorkspace, id)] else []
  }

  function RecheckNotes(id: Id, hasTask: bool): seq<Note> {
    [VolumeReady] + (RunningNotes(id) + IdleNotes(id, hasTask))
  }

  function RecheckCount(hasTask: bool): nat {
    if hasTask then 5 else 4
  }

  lemma RecheckCounts(id: Id, hasTask: bool)
    ensures |RecheckNotes(id, hasTask)| == RecheckCount(hasTask) && |RunningNotes(id)| == 2
  {
  }

  function ReservedNotes(id: Id, hasTask: bool): seq<Note> {
    RecheckNotes(id, hasTask) + [Sent(id), Saw(OnlySupervisor, id)]
  }

  // A container that is found is checked first; for a new one the volume comes first.
  function StartNotes(id: Id, found: bool): seq<Note> {
    if found then RunningNotes(id) + [VolumeReady] else [VolumeReady] + RunningNotes(id)
  }

  function TaskNotes(id: Id, hasTask: bool): seq<Note> {
    RunningNotes(id) + ReservedNotes(id, hasTask)
  }

  // An environment whose owner's data is there and has not been given up.
  predicate InUse(s: State, id: Id) {
    && id in s.issued && s.issued[id].labels.Environment? && s.issued[id].labels.lease.owner !in Tombstones(s)
    && Disk(s, s.issued[id].labels.lease.owner).data
  }

  // ---------- why a request may be refused, and why a container may be removed ----------

  // The call removed the container between two moments.
  predicate Removed(before: Deeds, after: Deeds, x: Id) {
    x in after.removed && x !in before.removed
  }

  // The container can be used: it is there, this lease's own, of the image, and its lease goes on.
  predicate Fit(s: State, handle: Handle, image: string) {
    handle.id in s.live && Admitted(s, handle, image, s.now)
  }

  // What these failures say of the container.
  predicate Told(failures: set<Failure>, s: State, handle: Handle, image: string) {
    && (NotFound in failures ==> handle.id !in s.live)
    && (WrongLease in failures ==> !Names(s, handle))
    && (ImageChanged in failures ==> Names(s, handle) && s.issued[handle.id].labels.image != image)
    && (Expired in failures ==> Names(s, handle) && s.issued[handle.id].labels.lease.expires <= s.now)
  }

  // It cannot, and not because this call removed it.
  predicate Unfit(s: State, handle: Handle, image: string, before: Deeds, after: Deeds) {
    !Admitted(s, handle, image, s.now) || (handle.id !in s.live && !Removed(before, after, handle.id))
  }

  lemma StaysUnfit(s: State, t: State, handle: Handle, image: string, before: Deeds, after: Deeds)
    requires Names(s, handle) && Later(s, t) && !Fit(s, handle, image)
    requires Removed(before, after, handle.id) ==> handle.id in s.live
    ensures Unfit(t, handle, image, before, after)
  {
  }

  // A foreign container sits on the name of the container's command fence.
  ghost predicate Squatted(s: State, parent: Id) {
    exists x :: x in s.live && x in s.issued && Squats(s.issued[x], parent)
  }

  predicate Squats(c: Container, parent: Id) {
    c.name == CommandName(parent) && c.labels.Foreign?
  }

  // A reservation of the container by another call, which was there at `from` or came later.
  predicate Rival(from: State, s: State, f: Id, parent: Id, me: Call) {
    && f in s.issued && s.issued[f].labels.Command? && s.issued[f].labels.parent == parent
    && s.issued[f].labels.call != me && (f in from.issued ==> f in from.live)
  }

  // Such a reservation whose time has not, or has, run out.
  ghost predicate Contended(from: State, s: State, parent: Id, me: Call) {
    exists f :: Rival(from, s, f, parent, me) && s.issued[f].labels.deadline > from.now
  }

  ghost predicate Overrun(from: State, s: State, parent: Id, me: Call) {
    exists f :: Rival(from, s, f, parent, me) && s.issued[f].labels.deadline <= s.now
  }

  lemma RivalsLater(a: State, b: State, s: State, t: State, parent: Id, me: Call)
    requires Later(a, b) && Later(s, t)
    ensures Contended(b, s, parent, me) ==> Contended(a, t, parent, me)
    ensures Overrun(b, s, parent, me) ==> Overrun(a, t, parent, me)
  {
    if Contended(b, s, parent, me) {
      var f :| Rival(b, s, f, parent, me) && s.issued[f].labels.deadline > b.now;
      assert Rival(a, t, f, parent, me);
    }
    if Overrun(b, s, parent, me) {
      var f :| Rival(b, s, f, parent, me) && s.issued[f].labels.deadline <= s.now;
      assert Rival(a, t, f, parent, me);
    }
  }

  // The fence of a call, with its deadline.
  function FenceContainer(parent: Handle, call: Call, deadline: int): Container {
    Container(CommandName(parent.id), Command(parent.ref, parent.id, call, deadline))
  }

  // One fence was made, for the time of the command or of the lease, whichever is over first.
  ghost predicate FenceMade(before: Deeds, after: Deeds, handle: Handle, call: Call, from: int, to: int, timeout: nat) {
    exists deadline ::
      && after.created == before.created +
           [Container(CommandName(handle.id), Command(handle.ref, handle.id, call, deadline))]
      && deadline <= handle.ref.lease.expires && deadline <= to + timeout
      && (deadline == handle.ref.lease.expires || from + timeout <= deadline)
  }

  lemma MadeWith(before: Deeds, after: Deeds, handle: Handle, call: Call, from: int, to: int, timeout: nat,
                 deadline: int)
    requires after.created == before.created + [FenceContainer(handle, call, deadline)]
    requires deadline <= handle.ref.lease.expires && deadline <= to + timeout
    requires deadline == handle.ref.lease.expires || from + timeout <= deadline
    ensures FenceMade(before, after, handle, call, from, to, timeout)
  {
  }

  predicate Carries(labels: Labels, fence: Fence) {
    labels.Command? && labels.parent == fence.parent.id && labels.ref == fence.parent.ref && labels.call == fence.call
  }

  // Whoever holds the command name of a lease's container is a fence on it, or foreign.
  lemma HolderOfName(d: Client, parent: Handle, x: Id, call: Call)
    requires d.Valid() && x in d.s.issued && d.s.issued[x].name == CommandName(parent.id)
    requires d.s.issued[x].labels.Command? ==> d.s.issued[x].labels.call == call
    ensures x in d.s.live && !Carries(d.s.issued[x].labels, Fence(x, parent, call)) ==>
      !Names(d.s, parent) || Squatted(d.s, parent.id)
  {
    d.Sound();
    assert Labelled(d.s.issued[x], d.s.issued);
    assert d.s.issued[x].labels.Foreign? ==> Squats(d.s.issued[x], parent.id);
  }

  // A fence of mine stands, so whoever holds the command name is that fence.
  lemma MineIsFound(s: State, t: State, parent: Handle, me: Call, created: bool)
    requires Inv(s) && Inv(t) && Undisturbed(me, s, t) && Names(s, parent)
    requires created ==> exists f :: Fences(s, f, parent.id, me)
    ensures created && parent.id in t.live ==> !NameFree(t, CommandName(parent.id))
    ensures created && parent.id in t.live ==> forall x | x in t.live && t.issued[x].name == CommandName(parent.id) ::
      Carries(t.issued[x].labels, Fence(x, parent, me))
  {
    if created && parent.id in t.live {
      var f :| Fences(s, f, parent.id, me);
      assert Mine(s, f, me) && f in t.live;
      assert Labelled(t.issued[f], t.issued);
    }
  }

  // My fence carries the labels I gave it.
  lemma OwnFence(d: Client, fence: Fence)
    requires d.Valid() && Mine(d.s, fence.id, d.me) && fence.call == d.me && Names(d.s, fence.parent)
    requires d.s.issued[fence.id].labels.parent == fence.parent.id
    ensures Carries(d.s.issued[fence.id].labels, fence)
  {
    d.Sound();
    assert Labelled(d.s.issued[fence.id], d.s.issued);
  }

  lemma SeenInUse(d: Client, id: Id)
    requires d.Valid() && Supervised(d.s, id)
    ensures InUse(d.s, id)
  {
    d.Sound();
    SupervisedKeepsData(d.s, id);
  }

  // A container has one command name, so one of my fences on it is all of them.
  lemma OneName(d: Client, parent: Id, fence: Id)
    requires d.Valid() && fence in d.s.live && fence in d.s.issued && d.s.issued[fence].name == CommandName(parent)
    requires forall f | Mine(d.s, f, d.me) :: d.s.issued[f].labels.parent == parent
    ensures forall f | f in d.s.live && Mine(d.s, f, d.me) :: f == fence
  {
    d.Sound();
    forall f | f in d.s.live && Mine(d.s, f, d.me) ensures f == fence {
      assert Labelled(d.s.issued[f], d.s.issued);
    }
  }

  // What the failures of a reservation say.
  ghost predicate Grounds(failures: set<Failure>, from: State, s: State, parent: Id, me: Call, deadline: int) {
    && failures <= {Expired, NotReserved, FenceKept, Reserved, OutcomeUnknown, StopFailed}
    && (failures == {} || Expired in failures || NotReserved in failures || Reserved in failures
        || OutcomeUnknown in failures)
    && (Expired in failures ==> deadline <= s.now)
    && (Reserved in failures ==> Contended(from, s, parent, me))
    && (OutcomeUnknown in failures ==> Overrun(from, s, parent, me))
  }

  // What is said of a reservation or of the cleanup is not among these failures.
  predicate Plain(failures: set<Failure>) {
    Reserved !in failures && OutcomeUnknown !in failures && FenceKept !in failures
  }

  // A task fails only for an outer reason, before another call's reservation, or because the container cannot
  // be used. The sandbox is ended only if that reservation's time is over, or if a run under this call's own
  // fence failed.
  ghost predicate TaskGrounds(failures: set<Failure>, from: State, s: State, handle: Handle, image: string, me: Call,
                              before: Deeds, after: Deeds, outer: bool)
  {
    && (failures == {} || outer || Reserved in failures || OutcomeUnknown in failures
        || Unfit(s, handle, image, before, after))
    && (Reserved in failures ==> Contended(from, s, handle.id, me))
    && (OutcomeUnknown in failures ==> Overrun(from, s, handle.id, me))
    && (Removed(before, after, handle.id) ==>
          OutcomeUnknown in failures || (after.created != before.created && failures - {FenceKept} != {}))
  }

  predicate Created(before: Deeds, after: Deeds) {
    after.created != before.created
  }

  // At most a container of exactly the lease was created, and scripts were started.
  predicate Launched(before: Deeds, after: Deeds, lease: Lease, image: string) {
    && after == before.(created := after.created, errands := after.errands)
    && OneMore(before.created, after.created,
               Container(LeaseName(lease), Environment(RefOf(lease), LeaseName(lease), image, lease)))
  }

  // At most one script was started, a preparation that may make the data only if that is allowed.
  predicate Prepared(before: Deeds, after: Deeds, owner: string, allowCreate: bool) {
    || OneMore(before.errands, after.errands, Errand(owner, VolumeLock.Prepare(false)))
    || (allowCreate && after.errands == before.errands + [Errand(owner, VolumeLock.Prepare(true))])
  }

  // The lease's name is held by a container of another lease, or of another image.
  ghost predicate Held(s: State, lease: Lease) {
    exists x :: x in s.live && x in s.issued && Holds(s.issued[x], x, lease)
  }

  predicate Holds(c: Container, x: Id, lease: Lease) {
    c.name == LeaseName(lease) && !ValidHandle(Handle(x, RefOf(lease)), x, c)
  }

  ghost predicate OldImage(s: State, lease: Lease, image: string) {
    exists x :: x in s.live && x in s.issued && IsOld(s.issued[x], lease, image)
  }

  predicate IsOld(c: Container, lease: Lease, image: string) {
    c.name == LeaseName(lease) && c.labels.Environment? && c.labels.image != image
  }

  // One thing may have been added.
  predicate OneMore<T(==)>(before: seq<T>, after: seq<T>, x: T) {
    after == before || after == before + [x]
  }

  // An environment container of the owner is there at both moments, and so at any between them.
  ghost predicate StaysAttached(from: State, s: State, owner: string) {
    exists x :: x in from.live && Belongs(from, x, owner) && x in s.live
  }

  lemma AttachedBetween(from: State, mid: State, s: State, owner: string)
    requires Later(from, mid) && Later(mid, s)
    ensures StaysAttached(from, s, owner) ==> Attached(mid, owner) && StaysAttached(mid, s, owner)
  {
    if StaysAttached(from, s, owner) {
      var x :| x in from.live && Belongs(from, x, owner) && x in s.live;
      assert x in mid.live && Belongs(mid, x, owner);
    }
  }

  class Executor {
    const image: string

    method RecordById(d: Client, id: Id) returns (r: Lookup)
      requires d.Valid()
      modifies d`s, d`log, d`did, d`setbacks
      ensures d.Valid() && Undisturbed(d.me, old(d.s), d.s) && d.did == old(d.did)
      ensures r.Missing? ==> id !in d.s.live
      ensures r.Found? ==> r.id == id && id in d.s.live && id in d.s.issued && r.container == d.s.issued[id]
      ensures d.setbacks >= old(d.setbacks) && (r.Failed? <==> d.setbacks > old(d.setbacks))
    {
      var ok, found := d.ListId(id);
      if !ok { return Failed; }
      if !found { return Missing; }
      r := d.InspectId(id);
    }

    method RecordByName(d: Client, name: Name) returns (r: Lookup)
      requires d.Valid()
      modifies d`s, d`log, d`did, d`setbacks
      ensures d.Valid() && Undisturbed(d.me, old(d.s), d.s) && d.did == old(d.did)
      ensures r.Missing? ==> NameFree(d.s, name)
      ensures r.Found? ==>
        r.id in d.s.live && r.id in d.s.issued && r.container == d.s.issued[r.id] && r.container.name == name
      ensures d.setbacks >= old(d.setbacks) && (r.Failed? <==> d.setbacks > old(d.setbacks))
    {
      var ok, found := d.ListName(name);
      if !ok { return Failed; }
      if !found { return Missing; }
      r := d.InspectName(name);
    }

    // ---------- stopping ----------

    method RemoveCommandFence(d: Client, fence: Fence) returns (ok: bool)
      requires d.Valid() && fence.id in d.s.issued && fence.parent.id in d.s.issued
      requires fence.call == d.me || fence.parent.id !in d.s.live
      modifies d`s, d`log, d`did, d`setbacks
      ensures d.Valid() && Standing(d.me, {fence.id}, old(d.s), d.s)
      ensures fence.parent.id !in old(d.s).live ==> Undisturbed(d.me, old(d.s), d.s)
      ensures forall f | Mine(d.s, f, d.me) :: Mine(old(d.s), f, d.me)
      ensures ok ==> fence.id !in d.s.live
      ensures StopTargets(old(d.did), d.did, d.s, fence.parent)
      ensures forall x | Removed(old(d.did), d.did, x) :: x == fence.id && x in old(d.s).live
      ensures d.setbacks >= old(d.setbacks) && (ok ==> d.setbacks == old(d.setbacks))
      ensures ok || d.setbacks > old(d.setbacks)
        || (fence.id in d.s.live && fence.id in d.s.issued && !Carries(d.s.issued[fence.id].labels, fence))
    {
      var r := RecordById(d, fence.id);
      if r.Failed? { return false; }
      if r.Missing? { return true; }
      var labels := r.container.labels;
      if !(labels.Command? && labels.parent == fence.parent.id && labels.ref == fence.parent.ref &&
           labels.call == fence.call)
      {
        return false;
      }
      ok := d.RemoveContainer(fence.id);
    }

    method RemoveParentCommandFence(d: Client, parent: Handle) returns (ok: bool)
      requires d.Valid() && parent.id in d.s.issued && parent.id !in d.s.live
      modifies d`s, d`log, d`did, d`setbacks
      ensures d.Valid() && Undisturbed(d.me, old(d.s), d.s)
      ensures StopTargets(old(d.did), d.did, d.s, parent)
      ensures ok ==> NoFenceOn(old(d.s), d.s, parent.id)
      ensures !Removed(old(d.did), d.did, parent.id)
      ensures d.setbacks >= old(d.setbacks) && (ok ==> d.setbacks == old(d.setbacks))
      ensures !ok ==> d.setbacks > old(d.setbacks) || !Names(d.s, parent) || Squatted(d.s, parent.id)
    {
      var r := RecordByName(d, CommandName(parent.id));
      if r.Failed? { return false; }
      d.Sound();
      ghost var mid := d.s;
      if r.Missing? {
        FenceByName(old(d.s), mid, d.s, parent.id, r);
        return true;
      }
      // A container without a call label is refused by the label check.
      var call := if r.container.labels.Command? then r.container.labels.call else d.me;
      ok := RemoveCommandFence(d, Fence(r.id, parent, call));
      if ok { FenceByName(old(d.s), mid, d.s, parent.id, r); }
      if !ok { HolderOfName(d, parent, r.id, call); }
    }

    // Stop: only the handle's own container; a fence on it falls only once it is gone. Without a setback it
    // succeeds, unless the container is not the handle's or its command name is taken by a foreign one.
    method Stop(d: Client, handle: Handle) returns (ok: bool)
      requires d.Valid() && handle.id in d.s.issued
      modifies d`s, d`log, d`did, d`setbacks
      ensures d.Valid() && Undisturbed(d.me, old(d.s), d.s)
      ensures ok ==> handle.id !in d.s.live && NoFenceOn(old(d.s), d.s, handle.id)
      ensures StopTargets(old(d.did), d.did, d.s, handle)
      ensures handle.id !in old(d.s).live ==> !Removed(old(d.did), d.did, handle.id)
      ensures d.setbacks >= old(d.setbacks) && (ok ==> d.setbacks == old(d.setbacks))
      ensures !ok ==> d.setbacks > old(d.setbacks) || !Names(d.s, handle) || Squatted(d.s, handle.id)
      // The handle's own container is left only if a request failed.
      ensures Names(d.s, handle) && handle.id in d.s.live ==> d.setbacks > old(d.setbacks)
    {
      var r := RecordById(d, handle.id);
      if r.Failed? { return false; }
      if r.Found? {
        if !ValidHandle(handle, r.id, r.container) { return false; }
        var removed := d.RemoveContainer(handle.id);
        if !removed { return false; }
      }
      ok := RemoveParentCommandFence(d, handle);
    }

    // ---------- running one command ----------

    // Another call holds the reservation. If its deadline has passed it may have run: end the
    // sandbox, never take the reservation over.
    method MeetReservation(d: Client, parent: Handle, deadline: int) returns (failures: set<Failure>)
      requires d.Valid() && parent.id in d.s.issued
      modifies d`s, d`log, d`did, d`setbacks
      ensures d.Valid() && Undisturbed(d.me, old(d.s), d.s) && d.setbacks >= old(d.setbacks)
      // A reservation in force is respected, one whose time is over ends the sandbox.
      ensures Reserved in failures ==> deadline > old(d.s.now) && d.did == old(d.did)
      ensures OutcomeUnknown in failures ==> deadline <= d.s.now
      ensures failures == {Reserved} || failures == {OutcomeUnknown} || failures == {OutcomeUnknown, StopFailed}
      ensures failures == {OutcomeUnknown} ==> parent.id !in d.s.live
      ensures Names(d.s, parent) && OutcomeUnknown in failures && parent.id in d.s.live ==>
        d.setbacks > old(d.setbacks)
      ensures StopTargets(old(d.did), d.did, d.s, parent)
    {
      var now := d.Clock();
      if deadline > now { return {Reserved}; }
      var stopped := Stop(d, parent);
      return if stopped then {OutcomeUnknown} else {OutcomeUnknown, StopFailed};
    }

    // acquireCommandFence: the reservation is the container's one command name.
    method AcquireCommandFence(d: Client, parent: Handle, deadline: int) returns (failures: set<Failure>, fence: Fence)
      requires d.Valid() && Names(d.s, parent)
      requires forall f :: !Mine(d.s, f, d.me)
      modifies d`s, d`log, d`did, d`setbacks
      ensures d.Valid() && Later(old(d.s), d.s) && d.setbacks >= old(d.setbacks)
      ensures failures == {} ==> d.setbacks == old(d.setbacks)
      ensures failures == {} ==> fence == Fence(fence.id, parent, d.me) && Mine(d.s, fence.id, d.me)
      ensures failures == {} && parent.id in d.s.live ==> Fences(d.s, fence.id, parent.id, d.me)
      ensures failures == {} ==> forall f | f in d.s.live && Mine(d.s, f, d.me) :: f == fence.id
      ensures forall f | Mine(d.s, f, d.me) :: d.s.issued[f] == FenceContainer(parent, d.me, deadline)
      ensures OutcomeUnknown in failures && StopFailed !in failures ==> parent.id !in d.s.live
      ensures StopsAndCreates(old(d.did), d.did, d.s, parent) && d.did.dispatched == old(d.did).dispatched
      ensures d.did.errands == old(d.did).errands
      ensures d.did.created == old(d.did).created ||
        d.did.created == old(d.did).created + [FenceContainer(parent, d.me, deadline)]
      ensures failures == {} ==> d.did.created != old(d.did).created && d.did.removed == old(d.did).removed
      // Refused only when it is too late, another call's reservation is met, the container is gone, or a
      // request fails. The container is ended only if that reservation's time is over.
      ensures Grounds(failures, old(d.s), d.s, parent.id, d.me, deadline)
      ensures deadline <= old(d.s.now) ==> failures == {Expired} && d.did == old(d.did)
      ensures NotReserved in failures ==> d.setbacks > old(d.setbacks) || parent.id !in d.s.live
      ensures Removed(old(d.did), d.did, parent.id) ==> OutcomeUnknown in failures
    {
      fence := Fence(0, parent, d.me);
      var now := d.Clock();
      if deadline <= now { return {Expired}, fence; }
      ghost var mid := d.s;
      var created := d.CreateContainer(FenceContainer(parent, d.me, deadline));
      ghost var made := d.s;
      if created {
        ghost var f :| f in made.live && f in made.issued && made.issued[f] == FenceContainer(parent, d.me, deadline);
        assert Fences(made, f, parent.id, d.me);
      }
      failures, fence := ClaimReservation(d, parent, created);
      RivalsLater(old(d.s), made, d.s, d.s, parent.id, d.me);
    }

    // Whoever created the container of that name holds the reservation.
    method ClaimReservation(d: Client, parent: Handle, created: bool) returns (failures: set<Failure>, fence: Fence)
      requires d.Valid() && Names(d.s, parent)
      requires forall f | Mine(d.s, f, d.me) :: d.s.issued[f].labels.parent == parent.id
      requires created ==> exists f :: Fences(d.s, f, parent.id, d.me)
      modifies d`s, d`log, d`did, d`setbacks
      ensures d.Valid() && Later(old(d.s), d.s) && d.setbacks >= old(d.setbacks)
      ensures failures == {} ==> d.setbacks == old(d.setbacks)
      ensures failures == {} ==> created && fence == Fence(fence.id, parent, d.me) && Mine(d.s, fence.id, d.me)
      ensures failures == {} && parent.id in d.s.live ==> Fences(d.s, fence.id, parent.id, d.me)
      ensures failures == {} ==> forall f | f in d.s.live && Mine(d.s, f, d.me) :: f == fence.id
      ensures forall f | Mine(d.s, f, d.me) :: Mine(old(d.s), f, d.me)
      ensures OutcomeUnknown in failures && StopFailed !in failures ==> parent.id !in d.s.live
      ensures StopTargets(old(d.did), d.did, d.s, parent)
      ensures failures == {} ==> d.did == old(d.did)
      ensures Expired !in failures && Grounds(failures, old(d.s), d.s, parent.id, d.me, d.s.now)
      ensures NotReserved in failures ==> !created || d.setbacks > old(d.setbacks) || parent.id !in d.s.live
      ensures Removed(old(d.did), d.did, parent.id) ==> OutcomeUnknown in failures
    {
      fence := Fence(0, parent, d.me);
      var found, id, labels := HolderOfReservation(d, parent, created);
      if !found { return {NotReserved}, fence; }
      if labels.call != d.me {
        failures := MeetReservation(d, parent, labels.deadline);
        assert Rival(old(d.s), d.s, id, parent.id, d.me);
        return;
      }
      fence := Fence(id, parent, d.me);
      failures := KeepReservation(d, fence, created);
    }

    // The fence of that name, if it is one on this container.
    method HolderOfReservation(d: Client, parent: Handle, created: bool)
      returns (found: bool, id: Id, labels: Labels)
      requires d.Valid() && Names(d.s, parent)
      requires created ==> exists f :: Fences(d.s, f, parent.id, d.me)
      modifies d`s, d`log, d`did, d`setbacks
      ensures d.Valid() && Undisturbed(d.me, old(d.s), d.s) && d.did == old(d.did) && d.setbacks >= old(d.setbacks)
      ensures found ==> d.setbacks == old(d.setbacks)
      ensures found ==> id in d.s.live && id in d.s.issued
      ensures found ==> d.s.issued[id] == Container(CommandName(parent.id), labels)
      ensures found ==> labels.Command? && labels.parent == parent.id && labels.ref == parent.ref
      ensures !found ==> !created || d.setbacks > old(d.setbacks) || parent.id !in d.s.live
    {
      id, labels := 0, Foreign;
      d.Sound();
      var r := RecordByName(d, CommandName(parent.id));
      d.Sound();
      MineIsFound(old(d.s), d.s, parent, d.me, created);
      if !r.Found? { return false, id, labels; }
      labels := r.container.labels;
      found := labels.Command? && labels.parent == parent.id && labels.ref == parent.ref;
      id := r.id;
    }

    // The reservation is this call's own; it is given back if its creation failed.
    method KeepReservation(d: Client, fence: Fence, created: bool) returns (failures: set<Failure>)
      requires d.Valid() && fence.call == d.me && Fences(d.s, fence.id, fence.parent.id, d.me)
      requires Names(d.s, fence.parent) && d.s.issued[fence.id].name == CommandName(fence.parent.id)
      requires forall f | Mine(d.s, f, d.me) :: d.s.issued[f].labels.parent == fence.parent.id
      modifies d`s, d`log, d`did, d`setbacks
      ensures d.Valid() && Later(old(d.s), d.s) && d.setbacks >= old(d.setbacks)
      ensures created ==> d.setbacks == old(d.setbacks)
      ensures forall f | Mine(d.s, f, d.me) :: Mine(old(d.s), f, d.me)
      ensures StopTargets(old(d.did), d.did, d.s, fence.parent)
      ensures !Removed(old(d.did), d.did, fence.parent.id)
      ensures if created then failures == {} && d.did == old(d.did) && d.s == old(d.s)
        else NotReserved in failures && failures <= {NotReserved, FenceKept}
      ensures FenceKept in failures ==> d.setbacks > old(d.setbacks)
      ensures created ==> forall f | f in d.s.live && Mine(d.s, f, d.me) :: f == fence.id
    {
      if created {
        OneName(d, fence.parent.id, fence.id);
        return {};
      }
      OwnFence(d, fence);
      var removed := RemoveCommandFence(d, fence);
      return if removed then {NotReserved} else {NotReserved, FenceKept};
    }

    method RequireRunning(d: Client, id: Id) returns (ok: bool)
      requires d.Valid()
      modifies d`s, d`log, d`did, d`notes, d`setbacks
      ensures d.Valid() && Undisturbed(d.me, old(d.s), d.s) && d.did == old(d.did)
      ensures Along(old(d.notes), d.notes, RunningNotes(id), ok)
      ensures ok ==> InUse(d.s, id)
      ensures d.setbacks >= old(d.setbacks) && (ok <==> d.setbacks == old(d.setbacks))
    {
      var running := d.Probe(id, IsRunning);
      if !running { return false; }
      ok := d.Probe(id, HoldsLock);
      if ok { SeenInUse(d, id); }
    }

    // activeLease: without a setback it is refused only to a container that cannot be used.
    method ActiveLease(d: Client, handle: Handle) returns (failures: set<Failure>, lease: Lease)
      requires d.Valid()
      modifies d`s, d`log, d`did, d`notes, d`setbacks
      ensures d.Valid() && Undisturbed(d.me, old(d.s), d.s) && d.did == old(d.did)
      ensures failures == {} ==>
        Admitted(d.s, handle, image, old(d.s.now)) && lease == d.s.issued[handle.id].labels.lease
      ensures failures == {} ==> handle.ref.lease.owner !in Tombstones(d.s)
      ensures Along(old(d.notes), d.notes, RunningNotes(handle.id), failures == {})
      ensures d.setbacks >= old(d.setbacks) && (failures == {} ==> d.setbacks == old(d.setbacks))
      ensures failures != {} ==> d.setbacks > old(d.setbacks) || !Fit(d.s, handle, image)
      ensures Plain(failures)
      ensures Told(failures, d.s, handle, image)
    {
      failures, lease := AdmittedLease(d, handle);
      if failures != {} { return; }
      var running := RequireRunning(d, handle.id);
      failures := if running then {} else {NotRunning};
    }

    // The part of activeLease that reads the record.
    method AdmittedLease(d: Client, handle: Handle) returns (failures: set<Failure>, lease: Lease)
      requires d.Valid()
      modifies d`s, d`log, d`did, d`setbacks
      ensures d.Valid() && Undisturbed(d.me, old(d.s), d.s) && d.did == old(d.did)
      ensures failures == {} ==>
        Admitted(d.s, handle, image, old(d.s.now)) && lease == d.s.issued[handle.id].labels.lease
      ensures d.setbacks >= old(d.setbacks) && Plain(failures) && Told(failures, d.s, handle, image)
      ensures failures == {} ==> d.setbacks == old(d.setbacks)
      ensures failures != {} ==> d.setbacks > old(d.setbacks) || !Fit(d.s, handle, image)
    {
      lease := handle.ref.lease;
      var r := RecordById(d, handle.id);
      if r.Failed? { return {DaemonFailed}, lease; }
      if r.Missing? { return {NotFound}, lease; }
      if !ValidHandle(handle, r.id, r.container) { return {WrongLease}, lease; }
      if r.container.labels.image != image { return {ImageChanged}, lease; }
      lease := r.container.labels.lease;
      var now := d.Clock();
      failures := if lease.expires <= now then {Expired} else {};
    }

    // A helper that only reads a quota, or cleans up a probe; its outcome is all that matters here.
    method RunHelper(d: Client) returns (ok: bool)
      requires d.Valid()
      modifies d`s, d`log, d`did, d`setbacks
      ensures d.Valid() && Undisturbed(d.me, old(d.s), d.s) && d.did == old(d.did)
      ensures d.setbacks >= old(d.setbacks) && (ok <==> d.setbacks == old(d.setbacks))
    {
      d.Interfere();
      ok := d.Ask();
    }

    // ensureVolume: no preparation succeeds once the owner's data has been given up, and only one that is
    // allowed to may make the data.
    method EnsureVolume(d: Client, owner: string, allowCreate: bool) returns (ok: bool)
      requires d.Valid()
      modifies d`s, d`log, d`did, d`notes, d`setbacks
      ensures d.Valid() && Undisturbed(d.me, old(d.s), d.s)
      ensures Began(old(d.did), d.did, Errand(owner, VolumeLock.Prepare(allowCreate)))
      ensures ok ==> d.did != old(d.did)
      ensures d.notes == if ok then old(d.notes) + [VolumeReady] else old(d.notes)
      ensures ok ==> owner !in Tombstones(old(d.s))
      ensures d.setbacks >= old(d.setbacks) && (ok <==> d.setbacks == old(d.setbacks))
    {
      var verified := d.Ask();   // volume create, and verifyVolume
      if !verified { return false; }
      var answer := d.RunScript(owner, VolumeLock.Prepare(allowCreate));
      var parsed := d.Ask();     // the quota it printed
      ok := answer.Succeeded? && parsed;
      if ok { d.notes := d.notes + [VolumeReady]; }
    }

    // requireUnusedPersonalVolume.
    method RequireUnused(d: Client, owner: string) returns (ok: bool)
      requires d.Valid()
      modifies d`s, d`log, d`did, d`setbacks
      ensures d.Valid() && Undisturbed(d.me, old(d.s), d.s) && d.did == old(d.did)
      ensures ok ==> !Attached(d.s, owner)
      ensures d.setbacks >= old(d.setbacks) && (ok ==> d.setbacks == old(d.setbacks))
      ensures !ok ==> d.setbacks > old(d.setbacks) || Attached(d.s, owner)
    {
      var answered, found := d.ListVolume(owner);
      ok := answered && !found;
    }

    // DeletePersonalData: the script runs between two looks for attached containers; none is stopped.
    method DeletePersonalData(d: Client, lease: Lease) returns (ok: bool)
      requires d.Valid()
      modifies d`s, d`log, d`did, d`setbacks
      ensures d.Valid() && Undisturbed(d.me, old(d.s), d.s)
      ensures Began(old(d.did), d.did, Errand(lease.owner, VolumeLock.Delete))
      ensures ok ==> !Attached(d.s, lease.owner) && lease.owner in Retirees(d.s) && d.did != old(d.did)
      ensures d.setbacks >= old(d.setbacks) && (ok ==> d.setbacks == old(d.setbacks))
      ensures !ok ==> d.setbacks > old(d.setbacks) || Attached(d.s, lease.owner)
      // Beside a container that is attached all the time no script is started.
      ensures StaysAttached(old(d.s), d.s, lease.owner) ==> d.did == old(d.did)
    {
      var verified := d.Ask();   // verifyVolume
      if !verified { return false; }
      ok := RequireUnused(d, lease.owner);
      if !ok { return false; }
      ghost var mid := d.s;
      ok := GiveUp(d, lease.owner);
      AttachedBetween(old(d.s), mid, d.s, lease.owner);
      if !ok { return false; }
      ok := RequireUnused(d, lease.owner);
      AttachedBetween(old(d.s), mid, d.s, lease.owner);
    }

    // The script that writes the tombstone and deletes the data.
    method GiveUp(d: Client, owner: string) returns (ok: bool)
      requires d.Valid()
      modifies d`s, d`log, d`did, d`setbacks
      ensures d.Valid() && Undisturbed(d.me, old(d.s), d.s)
      ensures Began(old(d.did), d.did, Errand(owner, VolumeLock.Delete))
      ensures ok ==> owner in Retirees(d.s) && d.did != old(d.did)
      ensures d.setbacks >= old(d.setbacks) && (ok <==> d.setbacks == old(d.setbacks))
    {
      var answer := d.RunScript(owner, VolumeLock.Delete);
      if !answer.Succeeded? { return false; }
      d.Sound();
      AnswerIsReceipt(d.s, owner, VolumeLock.Delete);
      return true;
    }

    // personalDataRetired: "retired" only of data that is given up and gone, "retained", or no volume,
    // only if it was not given up when the call began.
    method PersonalDataRetired(d: Client, lease: Lease) returns (ok: bool, retired: bool)
      requires d.Valid()
      modifies d`s, d`log, d`did, d`setbacks
      ensures d.Valid() && Undisturbed(d.me, old(d.s), d.s)
      ensures Began(old(d.did), d.did, Errand(lease.owner, VolumeLock.Inspect))
      ensures ok && retired ==> lease.owner in Retirees(d.s)
      ensures ok && !retired ==> lease.owner !in Tombstones(old(d.s))
      ensures d.setbacks >= old(d.setbacks) && (ok <==> d.setbacks == old(d.setbacks))
    {
      var answered, found := d.VolumeExists(lease.owner);
      if !answered || !found { return answered, false; }
      var verified := d.Ask();   // the one name listed, and verifyVolume
      if !verified { return false, false; }
      var answer := d.RunScript(lease.owner, VolumeLock.Inspect);
      if answer.Succeeded? {
        d.Sound();
        AnswerIsReceipt(d.s, lease.owner, VolumeLock.Inspect);
      }
      ok, retired := answer.Succeeded? || answer.Retained?, answer.Succeeded?;
    }

    // ExportPersonalData: a complete archive only of data that was not given up when the call began.
    method ExportPersonalData(d: Client, owner: string) returns (ok: bool)
      requires d.Valid()
      modifies d`s, d`log, d`did, d`setbacks
      ensures d.Valid() && Undisturbed(d.me, old(d.s), d.s)
      ensures Began(old(d.did), d.did, Errand(owner, VolumeLock.Export))
      ensures ok ==> owner !in Tombstones(old(d.s)) && d.did != old(d.did)
      ensures StaysAttached(old(d.s), d.s, owner) ==> d.did == old(d.did)
      ensures d.setbacks >= old(d.setbacks) && (ok ==> d.setbacks == old(d.setbacks))
      ensures !ok ==> d.setbacks > old(d.setbacks) || Attached(d.s, owner)
    {
      var verified := d.Ask();   // the request, and verifyVolume
      if !verified { return false; }
      ok := RequireUnused(d, owner);
      if !ok { return false; }
      ghost var mid := d.s;
      var answer := d.RunScript(owner, VolumeLock.Export);
      var removed := RunHelper(d);   // removeExportContainer
      ok := answer.Succeeded? && removed;
      AttachedBetween(old(d.s), mid, d.s, owner);
    }

    // Inspect: the lease is active, and its usage can be read.
    method Inspect(d: Client, handle: Handle) returns (ok: bool)
      requires d.Valid()
      modifies d`s, d`log, d`did, d`notes, d`setbacks
      ensures d.Valid() && Undisturbed(d.me, old(d.s), d.s) && d.did == old(d.did)
      ensures ok ==> Admitted(d.s, handle, image, old(d.s.now)) && d.notes == old(d.notes) + RunningNotes(handle.id)
      ensures ok ==> handle.ref.lease.owner !in Tombstones(old(d.s))
      ensures Along(old(d.notes), d.notes, RunningNotes(handle.id), ok)
      ensures d.setbacks >= old(d.setbacks) && (ok ==> d.setbacks == old(d.setbacks))
      ensures !ok ==> d.setbacks > old(d.setbacks) || !Fit(d.s, handle, image)
    {
      var failures, _ := ActiveLease(d, handle);
      if failures != {} { return false; }
      ok := RunHelper(d);   // volumeUsage
      var usage := d.Ask();   // the exec that reads the control group, and its parsing
      ok := ok && usage;
    }

    // What executeTask checks again under the fence. A release in between is noticed here;
    // every operation names the full container id.
    method Recheck(d: Client, handle: Handle, hasTask: bool) returns (failures: set<Failure>)
      requires d.Valid()
      modifies d`s, d`log, d`did, d`notes, d`setbacks
      ensures d.Valid() && Undisturbed(d.me, old(d.s), d.s)
      ensures Began(old(d.did), d.did, Errand(handle.ref.lease.owner, VolumeLock.Prepare(false)))
      ensures failures == {} ==> Admitted(d.s, handle, image, old(d.s.now)) && d.did != old(d.did)
      ensures Along(old(d.notes), d.notes, RecheckNotes(handle.id, hasTask), failures == {})
      ensures failures == {} ==> handle.ref.lease.owner !in Tombstones(old(d.s))
      ensures d.setbacks >= old(d.setbacks) && (failures == {} ==> d.setbacks == old(d.setbacks))
      ensures failures != {} ==> d.setbacks > old(d.setbacks) || !Fit(d.s, handle, image)
      ensures Plain(failures)
    {
      ghost var before, ready, running, idle :=
        d.notes, [VolumeReady], RunningNotes(handle.id), IdleNotes(handle.id, hasTask);
      var prepared := EnsureVolume(d, handle.ref.lease.owner, false);
      if !prepared { return {VolumeUnavailable}; }
      ghost var mid := d.notes;
      failures := RecheckLease(d, handle, hasTask);
      AlongThen(before, mid, d.notes, ready, running + idle, failures == {});
    }

    method RecheckLease(d: Client, handle: Handle, hasTask: bool) returns (failures: set<Failure>)
      requires d.Valid()
      modifies d`s, d`log, d`did, d`notes, d`setbacks
      ensures d.Valid() && Undisturbed(d.me, old(d.s), d.s) && d.did == old(d.did)
      ensures failures == {} ==> Admitted(d.s, handle, image, old(d.s.now))
      ensures Along(old(d.notes), d.notes, RunningNotes(handle.id) + IdleNotes(handle.id, hasTask), failures == {})
      ensures d.setbacks >= old(d.setbacks) && (failures == {} ==> d.setbacks == old(d.setbacks))
      ensures failures != {} ==> d.setbacks > old(d.setbacks) || !Fit(d.s, handle, image)
      ensures Plain(failures)
    {
      ghost var before, running, idle := d.notes, RunningNotes(handle.id), IdleNotes(handle.id, hasTask);
      var lease: Lease;
      failures, lease := ActiveLease(d, handle);
      if failures != {} {
        AlongPart(before, d.notes, running, idle);
        return;
      }
      ghost var mid := d.notes;
      failures := RequireIdle(d, handle.id, hasTask);
      AlongThen(before, mid, d.notes, running, idle, failures == {});
    }

    // requireOnlySupervisor and taskWorkspace.
    method RequireIdle(d: Client, id: Id, hasTask: bool) returns (failures: set<Failure>)
      requires d.Valid()
      modifies d`s, d`log, d`did, d`notes, d`setbacks
      ensures d.Valid() && Undisturbed(d.me, old(d.s), d.s) && d.did == old(d.did)
      ensures Along(old(d.notes), d.notes, IdleNotes(id, hasTask), failures == {})
      ensures d.setbacks >= old(d.setbacks) && (failures == {} <==> d.setbacks == old(d.setbacks))
      ensures Plain(failures)
    {
      var alone := d.Probe(id, OnlySupervisor);
      if !alone { return {Busy}; }
      if hasTask {
        var workspace := d.Probe(id, HasWorkspace);
        if !workspace { return {WorkspaceUnavailable}; }
      }
      return {};
    }

    // The part of executeTask that runs under the fence.
    method RunReserved(d: Client, handle: Handle, hasTask: bool, fence: Fence) returns (failures: set<Failure>)
      requires d.Valid() && Names(d.s, handle) && fence.parent == handle
      requires handle.id in d.s.live ==> Fences(d.s, fence.id, handle.id, d.me)
      requires Mine(d.s, fence.id, d.me)
      modifies d`s, d`log, d`did, d`notes, d`setbacks
      ensures d.Valid() && Undisturbed(d.me, old(d.s), d.s)
      ensures Began(old(d.did), d.did, Errand(handle.ref.lease.owner, VolumeLock.Prepare(false)))
        || d.did == old(d.did).(errands := d.did.errands, dispatched := old(d.did).dispatched + [handle.id])
      ensures OneMore(old(d.did.errands), d.did.errands, Errand(handle.ref.lease.owner, VolumeLock.Prepare(false)))
      ensures d.did.dispatched != old(d.did).dispatched ==> Admitted(d.s, handle, image, old(d.s.now))
      ensures d.did.dispatched != old(d.did).dispatched ==> handle.ref.lease.owner !in Tombstones(old(d.s))
      ensures failures == {} ==> d.did.dispatched != old(d.did).dispatched
      ensures Along(old(d.notes), d.notes, ReservedNotes(handle.id, hasTask), failures == {})
      ensures d.did.dispatched != old(d.did).dispatched <==> |d.notes| - |old(d.notes)| > RecheckCount(hasTask)
      ensures d.setbacks >= old(d.setbacks) && (failures == {} ==> d.setbacks == old(d.setbacks))
      ensures failures != {} ==> d.setbacks > old(d.setbacks) || !Fit(d.s, handle, image)
      ensures Plain(failures)
    {
      RecheckCounts(handle.id, hasTask);
      ghost var first, rest := RecheckNotes(handle.id, hasTask), [Sent(handle.id), Saw(OnlySupervisor, handle.id)];
      ghost var before := d.notes;
      failures := Recheck(d, handle, hasTask);
      if failures != {} {
        AlongPart(before, d.notes, first, rest);
        return;
      }
      ghost var mid := d.notes;
      failures := SendCommand(d, handle, fence);
      AlongThen(before, mid, d.notes, first, rest, failures == {});
    }

    // The docker exec of the user's command, and the last look at what it left running.
    method SendCommand(d: Client, handle: Handle, fence: Fence) returns (failures: set<Failure>)
      requires d.Valid() && handle.id in d.s.issued
      requires handle.id in d.s.live ==> Fences(d.s, fence.id, handle.id, d.me)
      modifies d`s, d`log, d`did, d`notes, d`setbacks
      ensures d.Valid() && Undisturbed(d.me, old(d.s), d.s)
      ensures d.did == old(d.did) || d.did == old(d.did).(dispatched := old(d.did).dispatched + [handle.id])
      ensures failures == {} ==> d.did != old(d.did)
      ensures Along(old(d.notes), d.notes, [Sent(handle.id), Saw(OnlySupervisor, handle.id)], failures == {})
      ensures d.did != old(d.did) <==> |d.notes| > |old(d.notes)|
      ensures d.setbacks >= old(d.setbacks) && (failures == {} <==> d.setbacks == old(d.setbacks))
      ensures Plain(failures)
    {
      var ok := d.ExecCommand(handle.id, fence.id);
      if !ok { return {CommandFailed}; }
      var text := d.Ask();   // whether the output is UTF-8
      if !text { return {CommandFailed}; }
      var alone := d.Probe(handle.id, OnlySupervisor);
      failures := if alone then {} else {Busy};
    }

    // executeTask: at most one user command, under the call's own fence; a failed one ends the sandbox.
    method ExecuteTask(d: Client, handle: Handle, argvOk: bool, hasTask: bool, timeout: nat)
      returns (failures: set<Failure>)
      requires d.Valid()
      requires forall f :: !Mine(d.s, f, d.me)
      modifies d`s, d`log, d`did, d`notes, d`setbacks
      ensures d.Valid() && Later(old(d.s), d.s) && d.setbacks >= old(d.setbacks)
      ensures failures == {} ==> d.setbacks == old(d.setbacks)
      ensures OneMore(old(d.did.dispatched), d.did.dispatched, handle.id)
      ensures failures == {} ==> d.did.dispatched != old(d.did).dispatched
      ensures d.did.dispatched != old(d.did).dispatched ==> argvOk && Admitted(d.s, handle, image, old(d.s.now))
      // No command reaches a sandbox of an owner whose data had been given up.
      ensures d.did != old(d.did) ==> handle.ref.lease.owner !in Tombstones(old(d.s))
      // A command that ran and did not succeed leaves no sandbox, unless Stop itself failed.
      // A fence that could not be removed is the one failure that does not end the sandbox.
      ensures failures - {FenceKept} != {} && StopFailed !in failures && d.did.dispatched != old(d.did).dispatched ==>
        handle.id !in d.s.live
      // Success leaves no reservation of this call behind.
      ensures failures == {} ==> forall f | Mine(d.s, f, d.me) :: f !in d.s.live
      ensures StopsAndCreates(old(d.did), d.did, d.s, handle)
      // Every check was made, in this order, before the command was sent; success went through all of them.
      ensures Along(old(d.notes), d.notes, TaskNotes(handle.id, hasTask), failures == {})
      ensures d.did.dispatched != old(d.did).dispatched <==> |d.notes| - |old(d.notes)| > 2 + RecheckCount(hasTask)
      // Nothing but the one fence is made, before any command, and no data.
      ensures d.did.created == old(d.did).created ||
        FenceMade(old(d.did), d.did, handle, d.me, old(d.s.now), d.s.now, timeout)
      ensures d.did.dispatched != old(d.did).dispatched ==> d.did.created != old(d.did).created
      ensures OneMore(old(d.did.errands), d.did.errands, Errand(handle.ref.lease.owner, VolumeLock.Prepare(false)))
      // Why it may fail, and when it may end the sandbox.
      ensures TaskGrounds(failures, old(d.s), d.s, handle, image, d.me, old(d.did), d.did,
                          d.setbacks > old(d.setbacks) || !argvOk || old(d.s.now) + timeout <= d.s.now)
    {
      if !argvOk { return {BadArguments}; }
      var deadline;
      failures, deadline := AdmitTask(d, handle, timeout);
      if failures != {} { return; }
      ghost var notes := d.notes;
      failures := ExecuteFenced(d, handle, hasTask, deadline, old(d.s));
      if Created(old(d.did), d.did) {
        MadeWith(old(d.did), d.did, handle, d.me, old(d.s.now), d.s.now, timeout, deadline);
      }
      AlongThen(old(d.notes), notes, d.notes,
        RunningNotes(handle.id), ReservedNotes(handle.id, hasTask), failures == {});
    }

    // The first look at the lease, and the deadline of a command in it.
    method AdmitTask(d: Client, handle: Handle, timeout: nat) returns (failures: set<Failure>, deadline: int)
      requires d.Valid()
      modifies d`s, d`log, d`did, d`notes, d`setbacks
      ensures d.Valid() && Undisturbed(d.me, old(d.s), d.s) && d.did == old(d.did)
      ensures failures == {} ==> Names(d.s, handle) && handle.ref.lease.owner !in Tombstones(old(d.s))
      ensures failures == {} ==> deadline <= handle.ref.lease.expires && deadline <= d.s.now + timeout
      ensures failures == {} ==> deadline == handle.ref.lease.expires || old(d.s.now) + timeout <= deadline
      ensures Along(old(d.notes), d.notes, RunningNotes(handle.id), failures == {})
      ensures d.setbacks >= old(d.setbacks) && (failures == {} ==> d.setbacks == old(d.setbacks))
      ensures failures != {} ==> d.setbacks > old(d.setbacks) || !Fit(d.s, handle, image)
      ensures Plain(failures)
    {
      var now := d.Clock();
      deadline := now + timeout;
      var lease: Lease;
      failures, lease := ActiveLease(d, handle);
      if lease.expires < deadline { deadline := lease.expires; }
    }

    method ExecuteFenced(d: Client, handle: Handle, hasTask: bool, deadline: int, ghost from: State)
      returns (failures: set<Failure>)
      requires d.Valid() && Later(from, d.s) && Names(d.s, handle)
      requires forall f :: !Mine(d.s, f, d.me)
      modifies d`s, d`log, d`did, d`notes, d`setbacks
      ensures d.Valid() && Later(old(d.s), d.s) && d.setbacks >= old(d.setbacks)
      ensures failures == {} ==> d.setbacks == old(d.setbacks)
      ensures OneMore(old(d.did.dispatched), d.did.dispatched, handle.id)
      ensures failures == {} ==> d.did.dispatched != old(d.did).dispatched
      ensures d.did.dispatched != old(d.did).dispatched ==> Admitted(d.s, handle, image, old(d.s.now))
      ensures d.did.dispatched != old(d.did).dispatched ==> handle.ref.lease.owner !in Tombstones(old(d.s))
      ensures failures - {FenceKept} != {} && StopFailed !in failures && d.did.dispatched != old(d.did).dispatched ==>
        handle.id !in d.s.live
      ensures failures == {} ==> forall f | Mine(d.s, f, d.me) :: f !in d.s.live
      ensures StopsAndCreates(old(d.did), d.did, d.s, handle)
      ensures Along(old(d.notes), d.notes, ReservedNotes(handle.id, hasTask), failures == {})
      ensures d.did.dispatched != old(d.did).dispatched <==> |d.notes| - |old(d.notes)| > RecheckCount(hasTask)
      ensures OneMore(old(d.did.created), d.did.created, FenceContainer(handle, d.me, deadline))
      ensures d.did.dispatched != old(d.did).dispatched ==> d.did.created != old(d.did).created
      ensures OneMore(old(d.did.errands), d.did.errands, Errand(handle.ref.lease.owner, VolumeLock.Prepare(false)))
      ensures TaskGrounds(failures, from, d.s, handle, image, d.me, old(d.did), d.did,
                          d.setbacks > old(d.setbacks) || deadline <= d.s.now)
      ensures deadline <= old(d.s.now) ==> failures == {Expired} && d.did == old(d.did)
    {
      var fence: Fence;
      failures, fence := AcquireCommandFence(d, handle, deadline);
      RivalsLater(from, old(d.s), d.s, d.s, handle.id, d.me);
      if failures != {} { return; }
      failures := RunAndCleanUp(d, handle, hasTask, fence);
    }

    // The run under the fence, and the deferred cleanup.
    method RunAndCleanUp(d: Client, handle: Handle, hasTask: bool, fence: Fence) returns (failures: set<Failure>)
      requires d.Valid() && Names(d.s, handle) && fence == Fence(fence.id, handle, d.me)
      requires Mine(d.s, fence.id, d.me) && d.s.issued[fence.id].labels.parent == handle.id
      requires handle.id in d.s.live ==> Fences(d.s, fence.id, handle.id, d.me)
      requires forall f | f in d.s.live && Mine(d.s, f, d.me) :: f == fence.id
      modifies d`s, d`log, d`did, d`notes, d`setbacks
      ensures d.Valid() && Later(old(d.s), d.s) && d.setbacks >= old(d.setbacks)
      ensures failures == {} ==> d.setbacks == old(d.setbacks)
      ensures OneMore(old(d.did.dispatched), d.did.dispatched, handle.id)
      ensures failures == {} ==> d.did.dispatched != old(d.did).dispatched
      ensures d.did.dispatched != old(d.did).dispatched ==> Admitted(d.s, handle, image, old(d.s.now))
      ensures d.did.dispatched != old(d.did).dispatched ==> handle.ref.lease.owner !in Tombstones(old(d.s))
      ensures failures - {FenceKept} != {} && StopFailed !in failures ==> handle.id !in d.s.live
      ensures failures == {} ==> forall f | Mine(d.s, f, d.me) :: f !in d.s.live
      ensures StopsAndCreates(old(d.did), d.did, d.s, handle) && d.did.created == old(d.did).created
      ensures Along(old(d.notes), d.notes, ReservedNotes(handle.id, hasTask), failures == {})
      ensures d.did.dispatched != old(d.did).dispatched <==> |d.notes| - |old(d.notes)| > RecheckCount(hasTask)
      ensures OneMore(old(d.did.errands), d.did.errands, Errand(handle.ref.lease.owner, VolumeLock.Prepare(false)))
      ensures Reserved !in failures && OutcomeUnknown !in failures
      ensures Removed(old(d.did), d.did, handle.id) ==> failures - {FenceKept} != {}
      ensures failures == {} || d.setbacks > old(d.setbacks) || Unfit(d.s, handle, image, old(d.did), d.did)
    {
      failures := RunReserved(d, handle, hasTask, fence);
      ghost var ran, deeds, fit := d.s, d.did, Fit(d.s, handle, image);
      assert deeds.removed == old(d.did).removed;
      failures := CleanUp(d, handle, fence, failures);
      if !fit { StaysUnfit(ran, d.s, handle, image, deeds, d.did); }
    }

    // The deferred function of executeTask: end a failed sandbox first, then give up the reservation.
    method CleanUp(d: Client, handle: Handle, fence: Fence, result: set<Failure>) returns (failures: set<Failure>)
      requires d.Valid() && Mine(d.s, fence.id, d.me) && fence == Fence(fence.id, handle, d.me) && Names(d.s, handle)
      requires d.s.issued[fence.id].labels.parent == handle.id && Plain(result)
      requires forall f | f in d.s.live && Mine(d.s, f, d.me) :: f == fence.id
      modifies d`s, d`log, d`did, d`setbacks
      ensures d.Valid() && Later(old(d.s), d.s) && result <= failures
      ensures failures - {FenceKept} != {} && StopFailed !in failures ==> handle.id !in d.s.live
      ensures FenceKept !in failures ==> forall f | Mine(d.s, f, d.me) :: f !in d.s.live
      ensures forall f | Mine(d.s, f, d.me) :: Mine(old(d.s), f, d.me)
      ensures StopTargets(old(d.did), d.did, d.s, handle)
      // Only a failed run ends the sandbox, and without a setback a run that did not fail stays so.
      ensures Removed(old(d.did), d.did, handle.id) ==> failures - {FenceKept} != {} && handle.id in old(d.s).live
      ensures d.setbacks >= old(d.setbacks) && (result == {} && failures != {} ==> d.setbacks > old(d.setbacks))
      ensures failures == {} ==> d.setbacks == old(d.setbacks)
      ensures Reserved !in failures && OutcomeUnknown !in failures
      // Each of the two is tried, whatever becomes of the other: what is left of them costs a setback each.
      ensures d.setbacks >= old(d.setbacks) + (if FenceKept in failures then 1 else 0)
        + (if failures - {FenceKept} != {} && handle.id in d.s.live then 1 else 0)
    {
      OwnFence(d, fence);
      failures := result;
      var inTime := d.Ask();   // whether the context goes on
      if !inTime { failures := failures + {Canceled}; }
      if failures != {} {
        var stopped := Stop(d, handle);
        if !stopped { failures := failures + {StopFailed}; }
      }
      var released := RemoveCommandFence(d, fence);
      if !released { failures := failures + {FenceKept}; }
    }

    // ---------- starting ----------

    // Start: a returned handle names the one container whose labels carry exactly this lease.
    method Start(d: Client, lease: Lease, requestOk: bool, allowCreate: bool)
      returns (failures: set<Failure>, handle: Handle)
      requires d.Valid()
      modifies d`s, d`log, d`did, d`notes, d`setbacks
      ensures d.Valid() && Later(old(d.s), d.s) && d.setbacks >= old(d.setbacks)
      ensures failures == {} ==> d.setbacks == old(d.setbacks)
      ensures failures == {} ==> Names(d.s, handle) && d.s.issued[handle.id].labels.lease == lease
      ensures failures == {} && handle.id in old(d.s).issued ==> handle.id in old(d.s).live
      ensures !requestOk || lease.expires <= old(d.s.now) ==> failures == {BadArguments} && d.did == old(d.did)
      // A retry finds the container that is already there.
      ensures failures == {} ==>
        forall x | x in old(d.s).live && x in d.s.live && x in d.s.issued &&
          d.s.issued[x].name == LeaseName(lease) :: x == handle.id
      ensures Launched(old(d.did), d.did, lease, image)
      // A container is created only after its volume was prepared. A container found must have the
      // configured image; found or created, it was seen to run with its supervisor's lock.
      ensures Created(old(d.did), d.did) ==> old(d.notes) + [VolumeReady] <= d.notes
      ensures failures == {} && !Created(old(d.did), d.did) ==> d.s.issued[handle.id].labels.image == image
      ensures failures == {} ==> Along(old(d.notes), d.notes, StartNotes(handle.id, !Created(old(d.did), d.did)), true)
      // Once the owner's data has been given up, nothing is created and nothing returned.
      ensures lease.owner in Tombstones(old(d.s)) ==> failures != {} && Quiet(old(d.did), d.did)
      // Data may be made for a new container, if that is allowed, and for no other.
      ensures Prepared(old(d.did), d.did, lease.owner, allowCreate)
      ensures Created(old(d.did), d.did) ==>
        d.did.errands == old(d.did).errands + [Errand(lease.owner, VolumeLock.Prepare(allowCreate))]
      ensures failures == {} && !Created(old(d.did), d.did) ==>
        d.did.errands == old(d.did).errands + [Errand(lease.owner, VolumeLock.Prepare(false))]
      // Without a setback it fails only for these reasons.
      ensures failures == {} || d.setbacks > old(d.setbacks) || !requestOk || lease.expires <= d.s.now
        || Held(d.s, lease) || OldImage(d.s, lease, image)
        || (Created(old(d.did), d.did) && NameFree(d.s, LeaseName(lease)))
    {
      handle := Handle(0, RefOf(lease));
      d.Sound();
      var now := d.Clock();
      if !requestOk || lease.expires <= now { return {BadArguments}, handle; }
      var name := LeaseName(lease);
      var r := RecordByName(d, name);
      if r.Failed? { return {DaemonFailed}, handle; }
      if r.Found? {
        d.Sound();
        failures, handle := Resume(d, lease, r);
      } else {
        failures, handle := Launch(d, lease, allowCreate);
      }
    }

    // A container of the lease's name is there already.
    method Resume(d: Client, lease: Lease, r: Lookup) returns (failures: set<Failure>, handle: Handle)
      requires d.Valid() && r.Found? && r.id in d.s.live && r.id in d.s.issued && r.container == d.s.issued[r.id]
      requires r.container.name == LeaseName(lease)
      modifies d`s, d`log, d`did, d`notes, d`setbacks
      ensures d.Valid() && Later(old(d.s), d.s) && d.setbacks >= old(d.setbacks) && handle.id == r.id
      ensures failures == {} ==> d.setbacks == old(d.setbacks)
      ensures Began(old(d.did), d.did, Errand(lease.owner, VolumeLock.Prepare(false)))
      ensures failures == {} ==> d.did != old(d.did)
      ensures failures == {} ==>
        Names(d.s, handle) && r.container.labels.lease == lease && r.container.labels.image == image
      ensures failures == {} ==> Along(old(d.notes), d.notes, StartNotes(handle.id, true), true)
      ensures failures == {} ==> lease.owner !in Tombstones(old(d.s))
      ensures failures != {} ==> d.setbacks > old(d.setbacks) || Held(d.s, lease) || OldImage(d.s, lease, image)
    {
      handle := Handle(r.id, RefOf(lease));
      if !ValidHandle(handle, r.id, r.container) { return {WrongLease}, handle; }
      if r.container.labels.image != image { return {ImageChanged}, handle; }
      ghost var before := d.notes;
      var running := RequireRunning(d, handle.id);
      if !running { return {NotRunning}, handle; }
      ghost var mid := d.notes;
      var prepared := EnsureVolume(d, lease.owner, false);
      if !prepared { return {VolumeUnavailable}, handle; }
      AlongThen(before, mid, d.notes, RunningNotes(handle.id), [VolumeReady], true);
      return {}, handle;
    }

    // No container of the lease's name was there. A lost receipt is an unknown outcome: the named
    // container stays for a retry to find.
    method Launch(d: Client, lease: Lease, allowCreate: bool) returns (failures: set<Failure>, handle: Handle)
      requires d.Valid()
      modifies d`s, d`log, d`did, d`notes, d`setbacks
      ensures d.Valid() && Later(old(d.s), d.s) && d.setbacks >= old(d.setbacks)
      ensures failures == {} ==> d.setbacks == old(d.setbacks)
      ensures failures == {} ==> Names(d.s, handle) && d.s.issued[handle.id].labels.lease == lease
      ensures failures == {} ==> d.s.issued[handle.id].name == LeaseName(lease) && Created(old(d.did), d.did)
      ensures failures == {} && handle.id in old(d.s).issued ==> handle.id in old(d.s).live
      ensures Launched(old(d.did), d.did, lease, image)
      ensures Created(old(d.did), d.did) ==> old(d.notes) + [VolumeReady] <= d.notes
      ensures failures == {} ==> Along(old(d.notes), d.notes, StartNotes(handle.id, false), true)
      ensures Created(old(d.did), d.did) ==> lease.owner !in Tombstones(old(d.s))
      ensures OneMore(old(d.did.errands), d.did.errands, Errand(lease.owner, VolumeLock.Prepare(allowCreate)))
      ensures Created(old(d.did), d.did) ==> d.did.errands != old(d.did).errands
      ensures failures == {} || d.setbacks > old(d.setbacks)
        || (Created(old(d.did), d.did) && (NameFree(d.s, LeaseName(lease)) || Held(d.s, lease)))
    {
      handle := Handle(0, RefOf(lease));
      ghost var before := d.notes;
      var prepared := EnsureVolume(d, lease.owner, allowCreate);
      if !prepared { return {VolumeUnavailable}, handle; }
      ghost var mid := d.notes;
      var created := d.CreateContainer(LeaseContainer(lease, image));
      if !created { return {DaemonFailed}, handle; }
      var r := RecordByName(d, LeaseName(lease));
      if !r.Found? { return {DaemonFailed}, handle; }
      handle := Handle(r.id, RefOf(lease));
      if !ValidHandle(handle, r.id, r.container) { return {WrongLease}, handle; }
      var running := RequireRunning(d, handle.id);
      failures := if running then {} else {NotRunning};
      AlongThen(before, mid, d.notes, [VolumeReady], RunningNotes(handle.id), running);
    }
  }
}
