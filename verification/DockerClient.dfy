/**
 * One Agent call's connection to the daemon. Every request is a single daemon step that may fail
 * before or after it takes effect; between requests the other calls take any number of legal steps.
 */
module DockerClient {
  import opened Daemon
  import VolumeLock

  // `f` is a fence that `me` created, on some container the daemon has issued.
  predicate Mine(s: State, f: Id, me: Call) {
    f in s.issued && s.issued[f].labels.Command? && s.issued[f].labels.call == me &&
      s.issued[f].labels.parent in s.issued
  }

  // My fences, other than `except`, stand while their parents exist; nothing issued changes or comes back.
  ghost predicate Standing(me: Call, except: set<Id>, s: State, t: State) {
    Later(s, t) &&
    forall f | f in s.live && Mine(s, f, me) && f !in except :: s.issued[f].labels.parent in t.live ==> f in t.live
  }

  // What the other calls leave to `me`; no one creates fences in my name either.
  ghost predicate Undisturbed(me: Call, s: State, t: State) {
    Standing(me, {}, s, t) && forall f | Mine(t, f, me) :: Mine(s, f, me)
  }

  // A script and the owner whose volume it is run on.
  datatype Errand = Errand(owner: string, script: VolumeLock.Script)

  // What one call did in a history: commands dispatched, containers removed and created, scripts started.
  datatype Deeds = Deeds(dispatched: seq<Id>, removed: set<Id>, created: seq<Container>, errands: seq<Errand>)

  const IDLE := Deeds([], {}, [], [])

  // Nothing was done, except that scripts may have been started.
  predicate Quiet(before: Deeds, after: Deeds) {
    after == before.(errands := after.errands)
  }

  // Nothing was done, except that this script may have been started.
  predicate Began(before: Deeds, after: Deeds, e: Errand) {
    after == before || after == before.(errands := before.errands + [e])
  }

  function DeedsOf(log: seq<Event>, me: Call): Deeds {
    if log == [] then IDLE
    else
      var d, e := DeedsOf(log[..|log| - 1], me), log[|log| - 1];
      if e.call != me then d
      else match e.action
        case Dispatch(parent, _) => d.(dispatched := d.dispatched + [parent])
        case Remove(id) => d.(removed := d.removed + {id})
        case Create(_, c) => d.(created := d.created + [c])
        case Script(owner, Spawn(_, script)) => d.(errands := d.errands + [Errand(owner, script)])
        case _ => d
  }

  // Moment `i` of a history: sound, followed by a legal step, and at the end `s` and `did`.
  ghost predicate Moment(start: State, log: seq<Event>, s: State, me: Call, did: Deeds, i: nat)
    requires i <= |log|
  {
    && Inv(Exec(start, log[..i]))
    && (i < |log| ==> Legal(Exec(start, log[..i]), log[i].call, log[i].action))
    && (i == |log| ==> s == Exec(start, log) && did == DeedsOf(log, me))
  }

  ghost predicate Recorded(start: State, log: seq<Event>, s: State, me: Call, did: Deeds) {
    forall i: nat | i <= |log| :: Moment(start, log, s, me, did, i)
  }

  lemma RecordedNow(start: State, log: seq<Event>, s: State, me: Call, did: Deeds)
    requires Recorded(start, log, s, me, did)
    ensures Inv(s) && s == Exec(start, log) && did == DeedsOf(log, me)
  {
    assert Moment(start, log, s, me, did, |log|);
    assert log[..|log|] == log;
  }

  // A legal step extends the record.
  lemma RecordNext(start: State, log: seq<Event>, s: State, me: Call, did: Deeds, e: Event)
    requires Recorded(start, log, s, me, did) && Legal(s, e.call, e.action)
    ensures Recorded(start, log + [e], Apply(s, e.action), me, DeedsOf(log + [e], me))
  {
    var more := log + [e];
    RecordedNow(start, log, s, me, did);
    StepInv(s, e.call, e.action);
    assert more[..|log|] == log && log[..|log|] == log && more[..|more|] == more;
    forall i: nat | i <= |more| ensures Moment(start, more, Apply(s, e.action), me, DeedsOf(more, me), i) {
      if i < |log| {
        assert Moment(start, log, s, me, did, i);
        assert more[..i] == log[..i];
      }
    }
  }

  lemma DeedsNext(log: seq<Event>, me: Call, e: Event)
    ensures e.call != me || (e.action.Script? && !e.action.step.Spawn?) ==> DeedsOf(log + [e], me) == DeedsOf(log, me)
    ensures e.call == me && e.action.Script? && e.action.step.Spawn? ==>
      var d := DeedsOf(log, me);
      DeedsOf(log + [e], me) == d.(errands := d.errands + [Errand(e.action.owner, e.action.step.script)])
    ensures e.call == me && e.action.Create? ==>
      var d := DeedsOf(log, me); DeedsOf(log + [e], me) == d.(created := d.created + [e.action.container])
    ensures e.call == me && e.action.Remove? ==>
      var d := DeedsOf(log, me); DeedsOf(log + [e], me) == d.(removed := d.removed + {e.action.id})
    ensures e.call == me && e.action.Dispatch? ==>
      var d := DeedsOf(log, me); DeedsOf(log + [e], me) == d.(dispatched := d.dispatched + [e.action.parent])
  {
    assert (log + [e])[..|log|] == log;
  }

  lemma DispatchNext(start: State, log: seq<Event>, s: State, me: Call, did: Deeds, parent: Id, fence: Id)
    requires Recorded(start, log, s, me, did) && Legal(s, me, Dispatch(parent, fence))
    ensures Recorded(start, log + [Event(me, Dispatch(parent, fence))], s, me,
                     did.(dispatched := did.dispatched + [parent]))
  {
    RecordedNow(start, log, s, me, did);
    RecordNext(start, log, s, me, did, Event(me, Dispatch(parent, fence)));
    DeedsNext(log, me, Event(me, Dispatch(parent, fence)));
  }

  // What a call has established so far, in order.
  datatype Check = IsRunning | HoldsLock | OnlySupervisor | HasWorkspace
  datatype Note = Saw(check: Check, id: Id) | VolumeReady | Sent(id: Id)

  // `after` continues `before` along `script`, to its end if `done`.
  ghost predicate Along(before: seq<Note>, after: seq<Note>, script: seq<Note>, done: bool) {
    && |before| <= |after| <= |before| + |script| && after == before + script[..|after| - |before|]
    && (done ==> |after| == |before| + |script|)
  }

  lemma AlongThen(a: seq<Note>, b: seq<Note>, c: seq<Note>, first: seq<Note>, second: seq<Note>, done: bool)
    requires Along(a, b, first, true) && Along(b, c, second, done)
    ensures Along(a, c, first + second, done)
  {
    var k := |c| - |b|;
    assert first[..|first|] == first && (first + second)[..|first| + k] == first + second[..k];
    assert a + (first + second[..k]) == (a + first) + second[..k];
  }

  lemma AlongPart(a: seq<Note>, b: seq<Note>, first: seq<Note>, second: seq<Note>)
    requires Along(a, b, first, false)
    ensures Along(a, b, first + second, false)
  {
    assert (first + second)[..|b| - |a|] == first[..|b| - |a|];
  }

  datatype Receipt = Receipt(id: Id, deadline: int)

  datatype Lookup = Failed | Missing | Found(id: Id, container: Container)

  predicate IsFence(s: State, r: Receipt) {
    r.id in s.issued && s.issued[r.id].labels.Command? && s.issued[r.id].labels.deadline == r.deadline
  }

  predicate IsEnvironment(s: State, r: Receipt) {
    r.id in s.issued && s.issued[r.id].labels.Environment? && s.issued[r.id].labels.lease.expires == r.deadline
  }

  // Ended environments, or command fences.
  predicate Listable(s: State, id: Id, fences: bool) {
    id in s.issued &&
    if fences then s.issued[id].labels.Command? else s.issued[id].labels.Environment? && id !in s.running
  }

  function ReceiptOf(labels: Labels, id: Id): Receipt {
    match labels
    case Environment(_, _, _, lease) => Receipt(id, lease.expires)
    case Command(_, _, _, deadline) => Receipt(id, deadline)
    case Foreign => Receipt(id, 0)
  }

  // A container of one of the owner's leases, which has the owner's volume mounted.
  predicate Attached(s: State, owner: string) {
    exists id | id in s.live :: Belongs(s, id, owner)
  }

  predicate Belongs(s: State, id: Id, owner: string) {
    id in s.issued && s.issued[id].labels.Environment? && s.issued[id].labels.lease.owner == owner
  }

  // The container's supervisor is in its final sleep, holding the lock of the owner's volume.
  predicate Supervised(s: State, id: Id) {
    id in s.issued && s.issued[id].labels.Environment? &&
    VolumeLock.Sleeping(Disk(s, s.issued[id].labels.lease.owner), VolumeLock.Sandbox(id))
  }

  // So its owner's data is there and has not been given up.
  lemma SupervisedKeepsData(s: State, id: Id)
    requires Inv(s) && Supervised(s, id)
    ensures s.issued[id].labels.lease.owner !in Tombstones(s) && Disk(s, s.issued[id].labels.lease.owner).data
  {
    var owner := s.issued[id].labels.lease.owner;
    DiskSound(s, owner);
    VolumeLock.SleepingKeepsTombstoneAway(Disk(s, owner), VolumeLock.Sandbox(id));
  }

  // Once given up and gone, an owner's data stays gone, whatever this and the other calls do.
  lemma RetiredForever(d: Client, i: nat, j: nat, owner: string)
    requires d.Valid() && i <= j <= |d.log| && owner in Retirees(Exec(d.start, d.log[..i]))
    ensures owner in Retirees(Exec(d.start, d.log[..j]))
  {
    d.History();
    RunLater(d.start, d.log, i, j);
  }

  ghost predicate DisksLater(s: State, t: State) {
    forall owner :: VolumeLock.Later(Disk(s, owner), Disk(t, owner))
  }

  class Client {
    var s: State
    ghost const start: State
    ghost var log: seq<Event>
    const me: Call

    ghost var did: Deeds
    ghost var notes: seq<Note>
    // Requests of this call that failed, and checks whose answer was no.
    ghost var setbacks: nat

    ghost predicate Valid()
      reads this`s, this`log, this`did
    {
      Recorded(start, log, s, me, did)
    }

    // A call begins on whatever consistent daemon it finds.
    constructor (call: Call, daemon: State)
      requires Inv(daemon)
      ensures Valid() && me == call && s == daemon && log == [] && did == IDLE && notes == [] && setbacks == 0
    {
      s, start, log, me, did, notes, setbacks := daemon, daemon, [], call, IDLE, [], 0;
    }

    lemma Sound()
      requires Valid()
      ensures Inv(s)
    {
      RecordedNow(start, log, s, me, did);
    }

    // The whole history is a legal run, so the theorems about runs apply to it.
    lemma History()
      requires Valid()
      ensures Inv(start) && LegalRun(start, log) && s == Exec(start, log) && did == DeedsOf(log, me)
    {
      assert Moment(start, log, s, me, did, 0) && log[..0] == [];
      RecordedNow(start, log, s, me, did);
      forall i: nat | i < |log| ensures Legal(Exec(start, log[..i]), log[i].call, log[i].action) {
        assert Moment(start, log, s, me, did, i);
      }
      StepwiseLegal(start, log);
    }

    // One step of the daemon, by this or another call.
    method Act(call: Call, a: Action)
      requires Valid() && Legal(s, call, a)
      modifies this`s, this`log, this`did
      ensures Valid() && s == Apply(old(s), a) && log == old(log) + [Event(call, a)]
      ensures Later(old(s), s)
      ensures call != me || a.Script? ==> Undisturbed(me, old(s), s)
      ensures call != me || (a.Script? && !a.step.Spawn?) ==> did == old(did)
      ensures call == me && a.Script? && a.step.Spawn? ==>
        did == old(did).(errands := old(did).errands + [Errand(a.owner, a.step.script)])
      ensures DisksLater(old(s), s)
      ensures call == me && a.Create? ==> did == old(did).(created := old(did).created + [a.container])
      ensures call == me && a.Remove? ==> did == old(did).(removed := old(did).removed + {a.id})
      ensures call == me && a.Dispatch? ==> did == old(did).(dispatched := old(did).dispatched + [a.parent])
    {
      Sound();
      StepInv(s, call, a);
      StepLater(s, call, a);
      StepDisks(s, call, a);
      RecordedNow(start, log, s, me, did);
      RecordNext(start, log, s, me, did, Event(call, a));
      DeedsNext(log, me, Event(call, a));
      log := log + [Event(call, a)];
      s := Apply(s, a);
      did := DeedsOf(log, me);
    }

    // The other calls run.
    method Interfere()
      requires Valid()
      modifies this`s, this`log, this`did
      ensures Valid() && Undisturbed(me, old(s), s) && did == old(did) && DisksLater(old(s), s)
    {
      Sound();
      var n: nat := *;
      while n > 0
        invariant Valid() && Undisturbed(me, old(s), s) && did == old(did) && DisksLater(old(s), s)
      {
        var call: Call := *;
        var a: Action := *;
        if call != me && Legal(s, call, a) {
          ghost var mid := s;
          Act(call, a);
          UndisturbedTransitive(me, old(s), mid, s);
          DisksTransitive(old(s), mid, s);
        }
        n := n - 1;
      }
    }

    // Something that can go wrong for reasons outside this model: a check, a parse, the end of the context.
    method Ask() returns (ok: bool)
      modifies this`setbacks
      ensures setbacks == old(setbacks) + if ok then 0 else 1
    {
      ok := *;
      Count(ok);
    }

    ghost method Count(ok: bool)
      modifies this`setbacks
      ensures setbacks == old(setbacks) + if ok then 0 else 1
    {
      if !ok { setbacks := setbacks + 1; }
    }

        // container ls --filter id=…
    method ListId(id: Id) returns (ok: bool, found: bool)
      requires Valid()
      modifies this`s, this`log, this`did, this`setbacks
      ensures Valid() && Undisturbed(me, old(s), s) && did == old(did)
      ensures ok ==> (found <==> id in s.live)
      ensures setbacks == old(setbacks) + if ok then 0 else 1
    {
      Interfere();
      ok, found := *, id in s.live;
      Count(ok);
    }

    // container ls --filter name=^/…$
    method ListName(name: Name) returns (ok: bool, found: bool)
      requires Valid()
      modifies this`s, this`log, this`did, this`setbacks
      ensures Valid() && Undisturbed(me, old(s), s) && did == old(did)
      ensures ok ==> (found <==> !NameFree(s, name))
      ensures setbacks == old(setbacks) + if ok then 0 else 1
    {
      Interfere();
      ok, found := *, !NameFree(s, name);
      Count(ok);
    }

    // container inspect, by id and by name
    method InspectId(id: Id) returns (r: Lookup)
      requires Valid()
      modifies this`s, this`log, this`did, this`setbacks
      ensures Valid() && Undisturbed(me, old(s), s) && did == old(did)
      ensures !r.Missing?
      ensures r.Found? ==> r.id == id && id in s.live && id in s.issued && r.container == s.issued[id]
      ensures setbacks == old(setbacks) + if r.Failed? then 1 else 0
    {
      Interfere();
      Sound();
      var answered: bool := *;
      r := if answered && id in s.live then Found(id, s.issued[id]) else Failed;
      Count(!r.Failed?);
    }

    method InspectName(name: Name) returns (r: Lookup)
      requires Valid()
      modifies this`s, this`log, this`did, this`setbacks
      ensures Valid() && Undisturbed(me, old(s), s) && did == old(did)
      ensures !r.Missing?
      ensures r.Found? ==>
        r.id in s.live && r.id in s.issued && r.container == s.issued[r.id] && r.container.name == name
      ensures setbacks == old(setbacks) + if r.Failed? then 1 else 0
    {
      Interfere();
      Sound();
      var answered: bool := *;
      r := Failed;
      if answered && !NameFree(s, name) {
        var id :| id in s.live && s.issued[id].name == name;
        r := Found(id, s.issued[id]);
      }
      Count(!r.Failed?);
    }

    // A read-only request about one container: inspect, top, or a check run inside it.
    method Probe(id: Id, check: Check) returns (ok: bool)
      requires Valid()
      modifies this`s, this`log, this`did, this`notes, this`setbacks
      ensures Valid() && Undisturbed(me, old(s), s) && did == old(did)
      ensures ok ==> id in s.running && notes == old(notes) + [Saw(check, id)]
      ensures ok && check.HoldsLock? ==> Supervised(s, id)
      ensures !ok ==> notes == old(notes)
      ensures setbacks == old(setbacks) + if ok then 0 else 1
    {
      Interfere();
      ok := *;
      ok := ok && id in s.running && (check.HoldsLock? ==> Supervised(s, id));
      if ok { notes := notes + [Saw(check, id)]; }
      Count(ok);
    }

    method Clock() returns (now: int)
      requires Valid()
      modifies this`s, this`log, this`did
      ensures Valid() && Undisturbed(me, old(s), s) && did == old(did)
      ensures now == s.now
    {
      Interfere();
      now := s.now;
    }

    // container ls with a label filter: ended environments, or command fences, with their deadlines.
    method ListReceipts(fences: bool) returns (ok: bool, receipts: seq<Receipt>)
      requires Valid()
      modifies this`s, this`log, this`did, this`setbacks
      ensures Valid() && Undisturbed(me, old(s), s) && did == old(did)
      ensures forall r | r in receipts :: if fences then IsFence(s, r) else IsEnvironment(s, r)
      ensures ok ==> forall id | id in s.live ::
        Listable(s, id, fences) ==> ReceiptOf(s.issued[id].labels, id) in receipts
      ensures setbacks == old(setbacks) + if ok then 0 else 1
    {
      Interfere();
      Sound();
      ok, receipts := *, [];
      Count(ok);
      var rest := s.live;
      while rest != {}
        invariant rest <= s.live
        invariant forall r | r in receipts :: if fences then IsFence(s, r) else IsEnvironment(s, r)
        invariant forall id | id in s.live && id !in rest ::
          Listable(s, id, fences) ==> ReceiptOf(s.issued[id].labels, id) in receipts
        decreases rest
      {
        var id :| id in rest;
        if Listable(s, id, fences) { receipts := receipts + [ReceiptOf(s.issued[id].labels, id)]; }
        rest := rest - {id};
      }
    }

    // container ls --filter volume=…: other containers may have the volume mounted too, which is a setback.
    method ListVolume(owner: string) returns (ok: bool, found: bool)
      requires Valid()
      modifies this`s, this`log, this`did, this`setbacks
      ensures Valid() && Undisturbed(me, old(s), s) && did == old(did)
      ensures ok && !found ==> !Attached(s, owner)
      ensures setbacks == old(setbacks) + if ok && (found ==> Attached(s, owner)) then 0 else 1
    {
      Interfere();
      ok, found := *, *;
      found := found || Attached(s, owner);
      Count(ok && (found ==> Attached(s, owner)));
    }

    // volume ls --filter name=…
    method VolumeExists(owner: string) returns (ok: bool, found: bool)
      requires Valid()
      modifies this`s, this`log, this`did, this`setbacks
      ensures Valid() && Undisturbed(me, old(s), s) && did == old(did)
      ensures ok && !found ==> owner !in s.volumes
      ensures setbacks == old(setbacks) + if ok then 0 else 1
    {
      Interfere();
      ok, found := *, *;
      Count(ok);
      found := found || owner in s.volumes;
    }

    // A script in a helper container, line by line among everybody else's steps. The answer may be lost,
    // and the script may go on after the call has given up on it.
    method RunScript(owner: string, script: VolumeLock.Script) returns (answer: VolumeLock.Status)
      requires Valid() && !script.Supervise?
      modifies this`s, this`log, this`did, this`setbacks
      ensures Valid() && Undisturbed(me, old(s), s) && Began(old(did), did, Errand(owner, script))
      ensures answer.Succeeded? || answer.Retained? ==> Answered(s, owner, script, answer) && did != old(did)
      ensures answer.Retained? ==> script.Inspect?
      ensures setbacks == old(setbacks) + if answer.Succeeded? || answer.Retained? then 0 else 1
      ensures owner in Tombstones(old(s)) ==> VolumeLock.Barred(script, answer)
    {
      Interfere();
      var n: nat := *;
      var pid := VolumeLock.Helper(n);
      if pid in Disk(s, owner).processes {
        Count(false);
        return VolumeLock.Failed;
      }
      OneStep(owner, VolumeLock.Spawn(pid, script));
      ghost var barred := owner in Tombstones(old(s));
      var patience: nat := *;
      while patience > 0
        invariant Valid() && Undisturbed(me, old(s), s)
        invariant did == old(did).(errands := old(did).errands + [Errand(owner, script)]) && setbacks == old(setbacks)
        invariant Runs(s, owner, pid, script, barred)
      {
        ghost var mid := s;
        Proceed(owner, pid, script, barred);
        UndisturbedTransitive(me, old(s), mid, s);
        patience := patience - 1;
      }
      var received: bool := *;
      answer := if received then Disk(s, owner).processes[pid].status else VolumeLock.Failed;
      Count(answer.Succeeded? || answer.Retained?);
      Sound();
      DiskSound(s, owner);
    }

    // The others run, then the kernel one line of the script.
    method Proceed(owner: string, pid: VolumeLock.Pid, ghost script: VolumeLock.Script, ghost barred: bool)
      requires Valid() && pid.Helper? && Runs(s, owner, pid, script, barred)
      modifies this`s, this`log, this`did
      ensures Valid() && Undisturbed(me, old(s), s) && did == old(did)
      ensures Runs(s, owner, pid, script, barred)
    {
      Interfere();
      RunsLater(old(s), s, owner, pid, script, barred);
      if Disk(s, owner).processes[pid].status.Running? {
        ghost var mid := s;
        var works: bool := *;
        OneStep(owner, VolumeLock.Advance(pid, works));
        RunsLater(mid, s, owner, pid, script, barred);
        UndisturbedTransitive(me, old(s), mid, s);
      }
    }

    method OneStep(owner: string, step: VolumeLock.Step)
      requires Valid() && VolumeLock.Enabled(Disk(s, owner), step) && step.pid.Helper?
      modifies this`s, this`log, this`did
      ensures Valid() && Undisturbed(me, old(s), s) && DisksLater(old(s), s)
      ensures did == if step.Spawn? then old(did).(errands := old(did).errands + [Errand(owner, step.script)])
        else old(did)
      ensures Disk(s, owner) == VolumeLock.Apply(Disk(old(s), owner), step)
    {
      Act(me, Script(owner, step));
    }

    // docker create and docker run: the receipt may be lost after the container exists.
    method CreateContainer(c: Container) returns (ok: bool)
      requires Valid() && Labelled(c, s.issued) && (c.labels.Command? ==> c.labels.call == me)
      modifies this`s, this`log, this`did, this`setbacks
      ensures Valid() && Standing(me, {}, old(s), s)
      ensures forall f | Mine(s, f, me) :: Mine(old(s), f, me) || s.issued[f] == c
      ensures did == old(did) || did == old(did).(created := old(did).created + [c])
      ensures ok ==> did != old(did) && exists id | id in s.live :: id in s.issued && s.issued[id] == c
      ensures setbacks == old(setbacks) + if ok then 0 else 1
    {
      Interfere();
      Sound();
      LabelledLater(c, old(s), s);
      ok := false;
      var id: Id := *;
      var reached: bool := *;
      if reached && id !in s.issued && NameFree(s, c.name) {
        CreateLeaves(me, old(s), s, id, c);
        Act(me, Create(id, c));
        assert id in s.live && s.issued[id] == c;
        ok := *;
      }
      Count(ok);
    }

    // docker container rm --force
    method RemoveContainer(id: Id) returns (ok: bool)
      requires Valid() && id in s.issued
      requires s.issued[id].labels.Command? ==> s.issued[id].labels.call == me || s.issued[id].labels.parent !in s.live
      modifies this`s, this`log, this`did, this`setbacks
      ensures Valid() && Standing(me, {id}, old(s), s)
      ensures !Mine(old(s), id, me) || old(s).issued[id].labels.parent !in old(s).live ==> Undisturbed(me, old(s), s)
      ensures forall f | Mine(s, f, me) :: Mine(old(s), f, me)
      ensures ok ==> id !in s.live
      ensures did == old(did) || (did == old(did).(removed := old(did).removed + {id}) && id in old(s).live)
      ensures setbacks == old(setbacks) + if ok then 0 else 1
    {
      Sound();
      assert Labelled(s.issued[id], s.issued);
      Interfere();
      ok := *;
      if id in s.live {
        var reached: bool := *;
        if reached { Act(me, Remove(id)); } else { ok := false; }
      }
      Count(ok);
    }

    // docker exec of the user's command; its outcome may be lost after it started.
    method ExecCommand(parent: Id, ghost fence: Id) returns (ok: bool)
      requires Valid() && parent in s.issued
      requires parent in s.live ==> Fences(s, fence, parent, me)
      modifies this`s, this`log, this`did, this`notes, this`setbacks
      ensures Valid() && Undisturbed(me, old(s), s)
      ensures did == old(did) || did == old(did).(dispatched := old(did).dispatched + [parent])
      ensures ok ==> did != old(did)
      ensures setbacks == old(setbacks) + if ok then 0 else 1
      ensures notes == if did == old(did) then old(notes) else old(notes) + [Sent(parent)]
    {
      Interfere();
      Sound();
      ok := false;
      var reached: bool := *;
      if reached && parent in s.running {
        Start(parent, fence);
        ok := *;
      }
      Count(ok);
    }

    // The daemon starts the command; only the history notices.
    method Start(parent: Id, ghost fence: Id)
      requires Valid() && Legal(s, me, Dispatch(parent, fence))
      modifies this`log, this`did, this`notes
      ensures Valid() && log == old(log) + [Event(me, Dispatch(parent, fence))]
      ensures notes == old(notes) + [Sent(parent)]
      ensures did == old(did).(dispatched := old(did).dispatched + [parent])
    {
      DispatchNext(start, log, s, me, did, parent, fence);
      log, notes := log + [Event(me, Dispatch(parent, fence))], notes + [Sent(parent)];
      did := did.(dispatched := did.dispatched + [parent]);
    }
  }

  // A process of the script that ended with this answer.
  ghost predicate Answered(s: State, owner: string, script: VolumeLock.Script, answer: VolumeLock.Status) {
    exists pid | pid in Disk(s, owner).processes ::
      Disk(s, owner).processes[pid].script == script && Disk(s, owner).processes[pid].status == answer
  }

  // A deletion that succeeded, or the answer "retired", means that the data is given up and gone.
  lemma AnswerIsReceipt(s: State, owner: string, script: VolumeLock.Script)
    requires Inv(s) && Answered(s, owner, script, VolumeLock.Succeeded) && (script.Delete? || script.Inspect?)
    ensures owner in Retirees(s)
  {
    DiskSound(s, owner);
    var pid :| pid in Disk(s, owner).processes && Disk(s, owner).processes[pid].script == script
      && Disk(s, owner).processes[pid].status == VolumeLock.Succeeded;
    assert VolumeLock.Receipt(Disk(s, owner).processes[pid]);
  }

  // The script runs or has ended in this process; `barred` if it was started behind a tombstone.
  ghost predicate Runs(s: State, owner: string, pid: VolumeLock.Pid, script: VolumeLock.Script, barred: bool) {
    && pid in Disk(s, owner).processes && Disk(s, owner).processes[pid].script == script
    && (barred ==> Disk(s, owner).tombstone && VolumeLock.BarredProcess(Disk(s, owner).processes[pid]))
  }

  lemma RunsLater(s: State, t: State, owner: string, pid: VolumeLock.Pid, script: VolumeLock.Script, barred: bool)
    requires DisksLater(s, t) && Runs(s, owner, pid, script, barred)
    ensures Runs(t, owner, pid, script, barred)
  {
    assert VolumeLock.Later(Disk(s, owner), Disk(t, owner));
  }

  lemma DisksTransitive(s: State, t: State, u: State)
    requires DisksLater(s, t) && DisksLater(t, u)
    ensures DisksLater(s, u)
  {
    forall owner ensures VolumeLock.Later(Disk(s, owner), Disk(u, owner)) {
      assert VolumeLock.Later(Disk(s, owner), Disk(t, owner)) && VolumeLock.Later(Disk(t, owner), Disk(u, owner));
    }
  }

  lemma LabelledLater(c: Container, s: State, t: State)
    requires Labelled(c, s.issued) && Later(s, t)
    ensures Labelled(c, t.issued)
  {
  }

  lemma CreateLeaves(me: Call, s: State, t: State, id: Id, c: Container)
    requires Undisturbed(me, s, t) && Inv(t) && Legal(t, me, Create(id, c))
    ensures var u := Apply(t, Create(id, c));
      Standing(me, {}, s, u) && forall f | Mine(u, f, me) :: Mine(s, f, me) || u.issued[f] == c
  {
    var u := Apply(t, Create(id, c));
    StepLater(t, me, Create(id, c));
    forall f | f in s.live && Mine(s, f, me) ensures s.issued[f].labels.parent in u.live ==> f in u.live {
      assert s.issued[f].labels.parent in s.issued;
    }
    forall f | Mine(u, f, me) ensures Mine(s, f, me) || u.issued[f] == c {
      if f != id {
        assert Labelled(t.issued[f], t.issued);
        assert Mine(t, f, me);
      }
    }
  }

  lemma UndisturbedTransitive(me: Call, s: State, t: State, u: State)
    requires Undisturbed(me, s, t) && Undisturbed(me, t, u)
    ensures Undisturbed(me, s, u)
  {
  }

  // However the calls interleave with `d`'s own requests: commands of different calls in one container
  // are separated by the removal of the first call's fence.
  lemma CommandsAreSeparated(d: Client, i: nat, j: nat)
    requires d.Valid() && i < j < |d.log| && d.log[i].action.Dispatch? && d.log[j].action.Dispatch?
    requires d.log[i].action.parent == d.log[j].action.parent && d.log[i].call != d.log[j].call
    ensures exists k :: i < k < j && d.log[k] == Event(d.log[i].call, Remove(d.log[i].action.fence))
  {
    d.History();
    OneCommandPerSandbox(d.start, d.log, i, j);
  }
}
