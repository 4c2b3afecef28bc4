/**
 * The shared Docker daemon as the Agents see it: containers with immutable identities and labels,
 * names that are unique among existing containers, and a clock. An action carries the call that
 * performs it; `Legal` is what every Agent call owes the others at each of its daemon steps.
 */
module Daemon {
  import VolumeLock

  type Id = nat
  type Call = nat   // the fresh identity of one Agent call, its `CallID` label

  datatype Mode = ObserveOnly | RestrictedWrite
  datatype Lease = Lease(
    id: string, run: string, owner: string, scope: string, mode: Mode, disk: nat, issued: int, expires: int)

  // Hashes are injective, so a hash is represented by what it was taken of.
  datatype Name =
    | ReadName(owner: string, lease: string)
    | WriteName(owner: string)
    | CommandName(parent: Id)
    | OtherName(text: string)
  datatype Ref = RefOf(lease: Lease)

  datatype Labels =
    | Environment(ref: Ref, name: Name, image: string, lease: Lease)
    | Command(ref: Ref, parent: Id, call: Call, deadline: int)
    | Foreign

  datatype Container = Container(name: Name, labels: Labels)

  // `issued` remembers every container ever created; `live` are the existing ones. An owner's personal
  // volume, once there, stays.
  datatype State = State(issued: map<Id, Container>, live: set<Id>, running: set<Id>, now: int,
                         volumes: map<string, VolumeLock.Volume>)

  datatype Action =
    | Create(id: Id, container: Container)
    | Remove(id: Id)
    | Halt(id: Id)                          // the container's process ends
    | Dispatch(parent: Id, fence: Id)       // a user command enters `parent`
    | Tick(now: int)
    | Script(owner: string, step: VolumeLock.Step)   // a script in the owner's volume moves on

  datatype Event = Event(call: Call, action: Action)

  // dockerLeaseIdentity.
  function LeaseName(lease: Lease): Name {
    if lease.mode.RestrictedWrite? then WriteName(lease.owner) else ReadName(lease.owner, lease.id)
  }

  // Two leases compete for a name exactly if both write for one owner, or are the same lease of one owner.
  lemma LeasesCompete(l: Lease, m: Lease)
    ensures LeaseName(l) == LeaseName(m) <==>
      l.owner == m.owner && l.mode == m.mode && (l.mode.ObserveOnly? ==> l.id == m.id)
  {
  }

  // The labels under which Agents create containers.
  predicate Labelled(c: Container, issued: map<Id, Container>) {
    match c.labels
    case Environment(ref, name, _, lease) => c.name == LeaseName(lease) && name == c.name && ref == RefOf(lease)
    case Command(ref, parent, _, _) =>
      c.name == CommandName(parent) && parent in issued && issued[parent].labels.Environment? &&
        issued[parent].labels.ref == ref
    case Foreign => true
  }

  predicate NameFree(s: State, name: Name) {
    forall id | id in s.live :: id in s.issued ==> s.issued[id].name != name
  }

  // The volume of an owner; one that does not exist yet is a fresh one.
  function Disk(s: State, owner: string): VolumeLock.Volume {
    if owner in s.volumes then s.volumes[owner] else VolumeLock.FRESH
  }

  predicate Legal(s: State, call: Call, a: Action) {
    match a
    case Create(id, c) =>
      && id !in s.issued && NameFree(s, c.name) && Labelled(c, s.issued)
      && (c.labels.Command? ==> c.labels.call == call)
    case Remove(id) =>
      // A command fence falls only to its own call, or after its parent is gone.
      && id in s.live && id in s.issued
      && (s.issued[id].labels.Command? ==> s.issued[id].labels.call == call || s.issued[id].labels.parent !in s.live)
    case Halt(id) => id in s.running
    case Dispatch(parent, fence) =>
      // A user command enters a container only under the caller's own fence.
      && parent in s.running && Fences(s, fence, parent, call)
    case Tick(now) => s.now <= now
    case Script(owner, step) =>
      VolumeLock.Enabled(Disk(s, owner), step) && (step.Spawn? && step.pid.Sandbox? ==> Mounts(s, step.pid.id, owner))
  }

  // A running environment of the owner, which has the owner's volume mounted.
  predicate Mounts(s: State, id: Id, owner: string) {
    id in s.running && id in s.issued && s.issued[id].labels.Environment? && s.issued[id].labels.lease.owner == owner
  }

  // `fence` exists and reserves `parent` for `call`.
  predicate Fences(s: State, fence: Id, parent: Id, call: Call) {
    && fence in s.live && fence in s.issued && s.issued[fence].labels.Command?
    && s.issued[fence].labels.parent == parent && s.issued[fence].labels.call == call
  }

  function Apply(s: State, a: Action): State {
    match a
    case Create(id, c) =>
      // A command fence is created, never started.
      s.(issued := s.issued[id := c], live := s.live + {id},
         running := if c.labels.Command? then s.running else s.running + {id})
    case Remove(id) => s.(live := s.live - {id}, running := s.running - {id})
    case Halt(id) => s.(running := s.running - {id})
    case Dispatch(_, _) => s
    case Tick(now) => s.(now := now)
    case Script(owner, step) =>
      if !VolumeLock.Enabled(Disk(s, owner), step) then s
      else s.(volumes := s.volumes[owner := VolumeLock.Apply(Disk(s, owner), step)])
  }

  // ---------- runs ----------

  function Exec(s: State, log: seq<Event>): State {
    if log == [] then s else Apply(Exec(s, log[..|log| - 1]), log[|log| - 1].action)
  }

  predicate LegalRun(s: State, log: seq<Event>) {
    log == [] ||
    (LegalRun(s, log[..|log| - 1]) && Legal(Exec(s, log[..|log| - 1]), log[|log| - 1].call, log[|log| - 1].action))
  }

  ghost predicate Inv(s: State) {
    && s.live <= s.issued.Keys && s.running <= s.live
    && (forall a, b | a in s.live && b in s.live && s.issued[a].name == s.issued[b].name :: a == b)
    && (forall id | id in s.issued :: Labelled(s.issued[id], s.issued))
    && DisksSound(s)
  }

  ghost predicate DisksSound(s: State) {
    forall owner | owner in s.volumes :: VolumeLock.Inv(s.volumes[owner])
  }

  lemma DiskSound(s: State, owner: string)
    requires DisksSound(s)
    ensures VolumeLock.Inv(Disk(s, owner))
  {
    VolumeLock.FreshInv();
  }

  lemma StepInv(s: State, call: Call, a: Action)
    requires Inv(s) && Legal(s, call, a)
    ensures Inv(Apply(s, a))
  {
    var t := Apply(s, a);
    assert DisksSound(t) by { StepDisks(s, call, a); }
    forall id | id in t.issued ensures Labelled(t.issued[id], t.issued) {
      if id in s.issued { assert Labelled(s.issued[id], s.issued); }
    }
  }

  lemma StepDisks(s: State, call: Call, a: Action)
    requires DisksSound(s) && Legal(s, call, a)
    ensures DisksSound(Apply(s, a))
    ensures forall owner :: VolumeLock.Later(Disk(s, owner), Disk(Apply(s, a), owner))
  {
    if a.Script? {
      DiskSound(s, a.owner);
      VolumeLock.StepInv(Disk(s, a.owner), a.step);
      VolumeLock.StepLater(Disk(s, a.owner), a.step);
    }
  }

  lemma {:induction false} RunInv(s: State, log: seq<Event>)
    requires Inv(s) && LegalRun(s, log)
    ensures Inv(Exec(s, log))
  {
    if log == [] {
    } else {
      RunInv(s, log[..|log| - 1]);
      StepInv(Exec(s, log[..|log| - 1]), log[|log| - 1].call, log[|log| - 1].action);
    }
  }

  lemma {:induction false} PrefixLegal(s: State, log: seq<Event>, i: nat)
    requires LegalRun(s, log) && i <= |log|
    ensures LegalRun(s, log[..i])
    ensures i < |log| ==> Legal(Exec(s, log[..i]), log[i].call, log[i].action)
    decreases |log|
  {
    if i == |log| {
      assert log[..i] == log;
    } else if i < |log| - 1 {
      PrefixLegal(s, log[..|log| - 1], i);
      assert log[..|log| - 1][..i] == log[..i];
    }
  }

  lemma {:induction false} StepwiseLegal(s: State, log: seq<Event>)
    requires forall i: nat | i < |log| :: Legal(Exec(s, log[..i]), log[i].call, log[i].action)
    ensures LegalRun(s, log)
    decreases |log|
  {
    if log == [] {
    } else {
      var init := log[..|log| - 1];
      forall i: nat | i < |init| ensures Legal(Exec(s, init[..i]), init[i].call, init[i].action) {
        assert init[..i] == log[..i];
      }
      StepwiseLegal(s, init);
    }
  }

  lemma NextState(s: State, log: seq<Event>, i: nat)
    requires i < |log|
    ensures Exec(s, log[..i + 1]) == Apply(Exec(s, log[..i]), log[i].action)
  {
    assert log[..i + 1][..i] == log[..i];
  }

  // ---------- safety over whole runs ----------

  // One atomic name per owner: never two restricted-write containers at once.
  lemma OneWriterPerOwner(s: State, log: seq<Event>, owner: string, a: Id, b: Id)
    requires Inv(s) && LegalRun(s, log)
    requires Writer(Exec(s, log), a, owner) && Writer(Exec(s, log), b, owner)
    ensures a == b
  {
    RunInv(s, log);
    var t := Exec(s, log);
    assert Labelled(t.issued[a], t.issued) && Labelled(t.issued[b], t.issued);
  }

  predicate Writer(s: State, id: Id, owner: string) {
    id in s.live && id in s.issued && s.issued[id].labels.Environment?
    && s.issued[id].labels.lease.mode.RestrictedWrite? && s.issued[id].labels.lease.owner == owner
  }

  // Owners whose data was given up, and those among them whose data is gone.
  function Tombstones(s: State): set<string> {
    set owner | owner in s.volumes && s.volumes[owner].tombstone
  }

  function Retirees(s: State): set<string> {
    set owner | owner in s.volumes && VolumeLock.Retired(s.volumes[owner])
  }

  // Records never change, removed containers never come back, nor do tombstones go or retired data return.
  ghost predicate Later(s: State, t: State) {
    && (forall id | id in s.issued :: id in t.issued && t.issued[id] == s.issued[id])
    && (forall id | id in s.issued && id in t.live :: id in s.live)
    && (forall id | id in s.issued && id in t.running :: id in s.running)
    && s.now <= t.now && Tombstones(s) <= Tombstones(t) && Retirees(s) <= Retirees(t)
  }

  lemma StepLater(s: State, call: Call, a: Action)
    requires Inv(s) && Legal(s, call, a)
    ensures Later(s, Apply(s, a))
  {
    StepDisks(s, call, a);
    GivenUpStays(s, Apply(s, a));
  }

  lemma GivenUpStays(s: State, t: State)
    requires forall owner :: VolumeLock.Later(Disk(s, owner), Disk(t, owner))
    ensures Tombstones(s) <= Tombstones(t) && Retirees(s) <= Retirees(t)
  {
    forall owner | owner in Tombstones(s) ensures owner in Tombstones(t) {
      assert VolumeLock.Later(Disk(s, owner), Disk(t, owner));
    }
    forall owner | owner in Retirees(s) ensures owner in Retirees(t) {
      assert VolumeLock.Later(Disk(s, owner), Disk(t, owner));
    }
  }

  lemma {:induction false} RunLater(s: State, log: seq<Event>, i: nat, j: nat)
    requires Inv(s) && LegalRun(s, log) && i <= j <= |log|
    ensures Later(Exec(s, log[..i]), Exec(s, log[..j]))
    decreases j - i
  {
    if i == j {
    } else {
      RunLater(s, log, i, j - 1);
      PrefixLegal(s, log, j - 1);
      NextState(s, log, j - 1);
      RunInv(s, log[..j - 1]);
      StepLater(Exec(s, log[..j - 1]), log[j - 1].call, log[j - 1].action);
    }
  }

  lemma FenceStep(t: State, e: Event, fence: Id, parent: Id, call: Call)
    requires Inv(t) && Legal(t, e.call, e.action) && e != Event(call, Remove(fence))
    requires parent in t.issued && fence in t.issued && (parent in t.live ==> Fences(t, fence, parent, call))
    ensures parent in Apply(t, e.action).live ==> Fences(Apply(t, e.action), fence, parent, call)
  {
  }

  // While the parent exists, its fence can only have been removed by the call that created it.
  lemma {:induction false} FenceStands(s: State, log: seq<Event>, i: nat, j: nat, fence: Id, parent: Id, call: Call)
    requires Inv(s) && LegalRun(s, log) && i <= j <= |log|
    requires Fences(Exec(s, log[..i]), fence, parent, call)
    requires forall k | i <= k < j :: log[k] != Event(call, Remove(fence))
    ensures parent in Exec(s, log[..j]).live ==> Fences(Exec(s, log[..j]), fence, parent, call)
    decreases j - i
  {
    if i == j {
    } else {
      FenceStands(s, log, i, j - 1, fence, parent, call);
      PrefixLegal(s, log, j - 1);
      RunInv(s, log[..j - 1]);
      NextState(s, log, j - 1);
      ParentIssued(s, log, i, j - 1, fence);
      FenceStep(Exec(s, log[..j - 1]), log[j - 1], fence, parent, call);
    }
  }

  lemma ParentIssued(s: State, log: seq<Event>, i: nat, j: nat, fence: Id)
    requires Inv(s) && LegalRun(s, log) && i <= j <= |log|
    requires var t := Exec(s, log[..i]); fence in t.issued && t.issued[fence].labels.Command?
    ensures var t, u := Exec(s, log[..i]), Exec(s, log[..j]);
      fence in u.issued && t.issued[fence].labels.parent in u.issued
  {
    PrefixLegal(s, log, i);
    RunInv(s, log[..i]);
    RunLater(s, log, i, j);
    assert Labelled(Exec(s, log[..i]).issued[fence], Exec(s, log[..i]).issued);
  }

  // User commands of different calls never overlap in one container: between two of them
  // the first call has removed its own fence.
  lemma OneCommandPerSandbox(s: State, log: seq<Event>, i: nat, j: nat)
    requires Inv(s) && LegalRun(s, log) && i < j < |log|
    requires log[i].action.Dispatch? && log[j].action.Dispatch?
    requires log[i].action.parent == log[j].action.parent && log[i].call != log[j].call
    ensures exists k :: i < k < j && log[k] == Event(log[i].call, Remove(log[i].action.fence))
  {
    var parent, fence, call := log[i].action.parent, log[i].action.fence, log[i].call;
    if forall k | i < k < j :: log[k] != Event(call, Remove(fence)) {
      PrefixLegal(s, log, i);
      PrefixLegal(s, log, j);
      FenceStands(s, log, i, j, fence, parent, call);
      SameFence(Exec(s, log[..j]), fence, log[j].action.fence, parent, call, log[j].call, s, log[..j]);
    }
  }

  lemma SameFence(t: State, f: Id, g: Id, parent: Id, c: Call, d: Call, s: State, log: seq<Event>)
    requires Inv(s) && LegalRun(s, log) && t == Exec(s, log)
    requires Legal(t, d, Dispatch(parent, g)) && (parent in t.live ==> Fences(t, f, parent, c))
    ensures f == g && c == d
  {
    RunInv(s, log);
    assert Labelled(t.issued[f], t.issued) && Labelled(t.issued[g], t.issued);
  }

  // A call that died holding a fence bars its container for good: as long as the container
  // exists no user command enters it again, whoever asks and whatever GC does.
  lemma NoReplayAfterCrash(s: State, log: seq<Event>, i: nat, fence: Id, parent: Id, dead: Call)
    requires Inv(s) && LegalRun(s, log) && i <= |log|
    requires Fences(Exec(s, log[..i]), fence, parent, dead)
    requires forall k | i <= k < |log| :: log[k].call != dead
    ensures forall k | i <= k < |log| :: !(log[k].action.Dispatch? && log[k].action.parent == parent)
    ensures parent in Exec(s, log).live ==> Fences(Exec(s, log), fence, parent, dead)
  {
    forall k | i <= k < |log| ensures !(log[k].action.Dispatch? && log[k].action.parent == parent) {
      if log[k].action.Dispatch? && log[k].action.parent == parent {
        FenceStands(s, log, i, k, fence, parent, dead);
        PrefixLegal(s, log, k);
        SameFence(Exec(s, log[..k]), fence, log[k].action.fence, parent, dead, log[k].call, s, log[..k]);
      }
    }
    FenceStands(s, log, i, |log|, fence, parent, dead);
    assert log[..|log|] == log;
  }
}
