/**
 * One owner's volume: the scripts that prepare, supervise, delete, export and inspect the personal
 * data, line by line, over a lock file, a tombstone and the data subvolume.
 */
module VolumeLock {

  datatype LockMode = Shared | Exclusive

  datatype Script =
    | Prepare(allowCreate: bool)   // prepareVolumeQuota
    | Supervise                    // the lease container's own script
    | Delete                       // DeletePersonalData
    | Export                       // ExportPersonalData
    | Inspect                      // personalDataRetired, which takes no lock

  // `Retained` is the other answer of an inspection.
  datatype Status = Running | Succeeded | Retained | Failed

  datatype Process = Process(script: Script, line: nat, mode: LockMode, holds: bool, status: Status)

  // A supervisor is the first process of its sandbox; every other script runs in a helper container.
  datatype Pid = Sandbox(id: nat) | Helper(number: nat)

  // flock is the kernel's: held by a process, gone when the process is.
  datatype Volume = Volume(lockFile: bool, tombstone: bool, data: bool, processes: map<Pid, Process>)

  datatype Step =
    | Spawn(pid: Pid, script: Script)
    | Advance(pid: Pid, works: bool)   // the next line; `works` decides commands that may fail
    | Die(pid: Pid)                    // killed, timed out, or its Agent crashed

  const FRESH := Volume(false, false, false, map[])

  predicate Holder(v: Volume, pid: Pid, mode: LockMode) {
    pid in v.processes && v.processes[pid].holds && v.processes[pid].mode == mode
  }

  // flock -n: an exclusive lock needs no other holder, a shared one no other exclusive holder.
  predicate Grants(v: Volume, pid: Pid, mode: LockMode) {
    forall q | q in v.processes && q != pid && v.processes[q].holds :: mode.Shared? && v.processes[q].mode.Shared?
  }

  function Set(v: Volume, pid: Pid, p: Process): Volume {
    v.(processes := v.processes[pid := p])
  }

  function Goto(v: Volume, pid: Pid, line: nat): Volume
    requires pid in v.processes
  {
    Set(v, pid, v.processes[pid].(line := line))
  }

  function End(v: Volume, pid: Pid, ok: bool): Volume
    requires pid in v.processes
  {
    Set(v, pid, v.processes[pid].(holds := false, status := if ok then Succeeded else Failed))
  }

  function Flock(v: Volume, pid: Pid, mode: LockMode, next: nat): Volume
    requires pid in v.processes
  {
    if Grants(v, pid, mode) then Set(v, pid, v.processes[pid].(line := next, mode := mode, holds := true))
    else End(v, pid, false)
  }

  predicate Enabled(v: Volume, s: Step) {
    match s
    case Spawn(pid, script) => pid !in v.processes && (script.Supervise? <==> pid.Sandbox?)
    case Advance(pid, _) => pid in v.processes && v.processes[pid].status.Running?
    case Die(pid) => pid in v.processes && v.processes[pid].status.Running?
  }

  function Apply(v: Volume, s: Step): Volume
    requires Enabled(v, s)
  {
    match s
    case Spawn(pid, script) => Set(v, pid, Process(script, 0, Shared, false, Running))
    case Die(pid) => End(v, pid, false)
    case Advance(pid, works) =>
      match v.processes[pid].script
      case Prepare(allowCreate) => PrepareLine(v, pid, allowCreate, works)
      case Supervise => SuperviseLine(v, pid, works)
      case Delete => DeleteLine(v, pid, works)
      case Export => ExportLine(v, pid, works)
      case Inspect => InspectLine(v, pid)
  }

  // A line changes no process but its own, and no script.
  predicate Touches(v: Volume, w: Volume, pid: Pid) {
    && pid in v.processes && pid in w.processes && w.processes[pid].script == v.processes[pid].script
    && w.processes == v.processes[pid := w.processes[pid]]
  }

  function PrepareLine(v: Volume, pid: Pid, allowCreate: bool, works: bool): (w: Volume)
    requires pid in v.processes
    ensures Touches(v, w, pid)
  {
    var p := v.processes[pid];
    match p.line
    case 0 => Goto(v, pid, 1).(lockFile := true)                                   // exec 9>lock
    case 1 => Set(v, pid, p.(line := 2, mode := if v.data then Shared else Exclusive))
    case 2 => Flock(v, pid, p.mode, 3)
    case 3 => if v.tombstone then End(v, pid, false) else Goto(v, pid, 4)
    case 4 => if v.data then Goto(v, pid, 6) else if allowCreate then Goto(v, pid, 5) else End(v, pid, false)
    case 5 => if works then Goto(v, pid, 6).(data := true) else End(v, pid, false) // btrfs subvolume create
    case 6 => if v.tombstone then End(v, pid, false) else Goto(v, pid, 7)
    case 7 => if v.data && works then Goto(v, pid, 8) else End(v, pid, false)      // btrfs subvolume show
    case _ => End(v, pid, v.data && works)                                         // quota, owner and mode
  }

  function SuperviseLine(v: Volume, pid: Pid, works: bool): (w: Volume)
    requires pid in v.processes
    ensures Touches(v, w, pid)
  {
    match v.processes[pid].line
    case 0 => if v.data && v.lockFile then Goto(v, pid, 1) else End(v, pid, false) // the mount, exec 9<lock
    case 1 => Flock(v, pid, Shared, 2)
    case 2 => if v.tombstone then End(v, pid, false) else Goto(v, pid, 3)
    case 3 => if works then Goto(v, pid, 4) else End(v, pid, false)                // lease time remaining
    case _ => End(v, pid, true)                                                    // exec sleep, until the deadline
  }

  function DeleteLine(v: Volume, pid: Pid, works: bool): (w: Volume)
    requires pid in v.processes
    ensures Touches(v, w, pid)
  {
    match v.processes[pid].line
    case 0 => Goto(v, pid, 1).(lockFile := true)
    case 1 => Flock(v, pid, Exclusive, 2)
    case 2 => if works then Goto(v, pid, 3).(tombstone := true) else End(v, pid, false)
    case 3 => if v.data then Goto(v, pid, 4) else Goto(v, pid, 5)
    case 4 => if works then Goto(v, pid, 5).(data := false) else End(v, pid, false) // btrfs subvolume delete
    case _ => End(v, pid, !v.data)
  }

  function ExportLine(v: Volume, pid: Pid, works: bool): (w: Volume)
    requires pid in v.processes
    ensures Touches(v, w, pid)
  {
    match v.processes[pid].line
    case 0 => if v.data && v.lockFile then Goto(v, pid, 1) else End(v, pid, false)
    case 1 => Flock(v, pid, Exclusive, 2)
    case 2 => if v.tombstone then End(v, pid, false) else Goto(v, pid, 3)
    case _ => End(v, pid, works)                                                    // tar
  }

  // Success stands for the answer "retired".
  function InspectLine(v: Volume, pid: Pid): (w: Volume)
    requires pid in v.processes
    ensures Touches(v, w, pid)
  {
    match v.processes[pid].line
    case 0 => if v.tombstone then Goto(v, pid, 1) else Set(v, pid, v.processes[pid].(status := Retained))
    case _ => End(v, pid, !v.data)
  }

  predicate Run(v: Volume, steps: seq<Step>, w: Volume)
    decreases |steps|
  {
    if steps == [] then v == w else Enabled(v, steps[0]) && Run(Apply(v, steps[0]), steps[1..], w)
  }

  // ---------- the invariant ----------

  // What the script's own lines have established, whatever the other processes do.
  predicate Established(v: Volume, p: Process) {
    match p.script
    case Prepare(allowCreate) =>
      && (p.holds <==> p.line >= 3)
      && (p.line >= 2 && p.mode.Shared? ==> v.data || v.tombstone)
      && (p.line >= 4 ==> !v.tombstone)
      && (p.line == 5 ==> !v.data && p.mode.Exclusive? && allowCreate)
      && (p.line >= 6 ==> v.data)
    case Supervise =>
      && (p.holds <==> p.line >= 2) && (p.holds ==> p.mode.Shared?)
      && (p.line >= 1 ==> v.data || v.tombstone) && (p.line >= 3 ==> !v.tombstone)
    case Delete =>
      && (p.holds <==> p.line >= 2) && (p.holds ==> p.mode.Exclusive?)
      && (p.line >= 3 ==> v.tombstone) && (p.line >= 5 ==> !v.data)
    case Export =>
      && (p.holds <==> p.line >= 2) && (p.holds ==> p.mode.Exclusive?)
      && (p.line >= 1 ==> v.data || v.tombstone) && (p.line >= 3 ==> !v.tombstone)
    case Inspect => !p.holds && (p.line >= 1 ==> v.tombstone)
  }

  predicate Retired(v: Volume) {
    v.tombstone && !v.data
  }

  predicate Receipt(p: Process) {
    p.status.Succeeded? && (p.script.Delete? || p.script.Inspect?)
  }

  ghost predicate Inv(v: Volume) {
    && (forall p, q | p in v.processes && q in v.processes && p != q && v.processes[p].holds && v.processes[q].holds ::
          v.processes[p].mode.Shared? && v.processes[q].mode.Shared?)
    && (forall p | p in v.processes && v.processes[p].status.Running? :: Established(v, v.processes[p]))
    && (forall p | p in v.processes && !v.processes[p].status.Running? :: !v.processes[p].holds)
    && (forall p | p in v.processes && Receipt(v.processes[p]) :: Retired(v))
    && (forall p | p in v.processes && v.processes[p].status.Retained? :: v.processes[p].script.Inspect?)
  }

  predicate Alone(v: Volume, pid: Pid) {
    forall q | q in v.processes && q != pid :: !v.processes[q].holds
  }

  // The tombstone is written, and data made or removed, only while nobody else holds the lock;
  // data is never made behind a tombstone nor removed without one.
  predicate Careful(v: Volume, w: Volume, pid: Pid) {
    && (v.tombstone ==> w.tombstone)
    && (w.tombstone && !v.tombstone ==> Alone(v, pid))
    && (v.data && !w.data ==> v.tombstone && Alone(v, pid))
    && (w.data && !v.data ==> !v.tombstone && Alone(v, pid))
  }

  lemma OthersEstablished(v: Volume, w: Volume, pid: Pid, q: Pid)
    requires Inv(v) && Careful(v, w, pid) && q in v.processes && q != pid && v.processes[q].status.Running?
    ensures Established(w, v.processes[q])
  {
    assert Established(v, v.processes[q]);
  }

  lemma FrameInv(v: Volume, w: Volume, pid: Pid)
    requires Inv(v) && Careful(v, w, pid) && pid in w.processes
    requires w.processes == v.processes[pid := w.processes[pid]]
    requires var p := w.processes[pid];
      && (p.status.Running? ==> Established(w, p)) && (!p.status.Running? ==> !p.holds)
      && (p.holds ==> Grants(v, pid, p.mode)) && (Receipt(p) ==> Retired(w))
      && (p.status.Retained? ==> p.script.Inspect?)
    ensures Inv(w)
  {
    forall q | q in w.processes && w.processes[q].status.Running? ensures Established(w, w.processes[q]) {
      if q != pid { OthersEstablished(v, w, pid, q); }
    }
  }

  lemma HolderGranted(v: Volume, pid: Pid)
    requires Inv(v) && pid in v.processes && v.processes[pid].holds
    ensures Grants(v, pid, v.processes[pid].mode)
    ensures v.processes[pid].mode.Exclusive? ==> Alone(v, pid)
  {
  }

  // What one line owes the invariant.
  ghost predicate Keeps(v: Volume, w: Volume, pid: Pid) {
    && Touches(v, w, pid) && Careful(v, w, pid)
    && (w.processes[pid].status.Running? ==> Established(w, w.processes[pid]))
    && (!w.processes[pid].status.Running? ==> !w.processes[pid].holds)
    && (w.processes[pid].holds ==> Grants(v, pid, w.processes[pid].mode))
    && (Receipt(w.processes[pid]) ==> Retired(w))
    && (w.processes[pid].status.Retained? ==> w.processes[pid].script.Inspect?)
  }

  predicate Ready(v: Volume, pid: Pid) {
    pid in v.processes && v.processes[pid].status.Running? && Established(v, v.processes[pid])
    && (v.processes[pid].holds ==> Grants(v, pid, v.processes[pid].mode))
    && (v.processes[pid].holds && v.processes[pid].mode.Exclusive? ==> Alone(v, pid))
  }

  lemma PrepareLocks(v: Volume, pid: Pid, works: bool)
    requires Ready(v, pid) && v.processes[pid].script.Prepare? && v.processes[pid].line < 4
    ensures Keeps(v, Apply(v, Advance(pid, works)), pid)
  {
  }

  lemma PrepareCreates(v: Volume, pid: Pid, works: bool)
    requires Ready(v, pid) && v.processes[pid].script.Prepare? && v.processes[pid].line >= 4
    ensures Keeps(v, Apply(v, Advance(pid, works)), pid)
  {
  }

  lemma SuperviseKeeps(v: Volume, pid: Pid, works: bool)
    requires Ready(v, pid) && v.processes[pid].script.Supervise?
    ensures Keeps(v, Apply(v, Advance(pid, works)), pid)
  {
  }

  lemma DeleteKeeps(v: Volume, pid: Pid, works: bool)
    requires Ready(v, pid) && v.processes[pid].script.Delete?
    ensures Keeps(v, Apply(v, Advance(pid, works)), pid)
  {
  }

  lemma ExportKeeps(v: Volume, pid: Pid, works: bool)
    requires Ready(v, pid) && v.processes[pid].script.Export?
    ensures Keeps(v, Apply(v, Advance(pid, works)), pid)
  {
  }

  lemma InspectKeeps(v: Volume, pid: Pid, works: bool)
    requires Ready(v, pid) && v.processes[pid].script.Inspect?
    ensures Keeps(v, Apply(v, Advance(pid, works)), pid)
  {
  }

  lemma AdvanceKeeps(v: Volume, pid: Pid, works: bool)
    requires Inv(v) && Enabled(v, Advance(pid, works))
    ensures Keeps(v, Apply(v, Advance(pid, works)), pid)
  {
    if v.processes[pid].holds { HolderGranted(v, pid); }
    assert Ready(v, pid);
    match v.processes[pid].script
    case Prepare(_) =>
      if v.processes[pid].line < 4 { PrepareLocks(v, pid, works); } else { PrepareCreates(v, pid, works); }
    case Supervise => SuperviseKeeps(v, pid, works);
    case Delete => DeleteKeeps(v, pid, works);
    case Export => ExportKeeps(v, pid, works);
    case Inspect => InspectKeeps(v, pid, works);
  }

  lemma KeepsInv(v: Volume, w: Volume, pid: Pid)
    requires Inv(v) && Keeps(v, w, pid)
    ensures Inv(w)
  {
    FrameInv(v, w, pid);
  }

  // Every step of every schedule keeps the invariant and is careful.
  lemma StepInv(v: Volume, s: Step)
    requires Inv(v) && Enabled(v, s)
    ensures Inv(Apply(v, s)) && Careful(v, Apply(v, s), s.pid)
  {
    match s
    case Spawn(pid, script) => FrameInv(v, Set(v, pid, Process(script, 0, Shared, false, Running)), pid);
    case Die(pid) => FrameInv(v, End(v, pid, false), pid);
    case Advance(pid, works) =>
      AdvanceKeeps(v, pid, works);
      KeepsInv(v, Apply(v, s), pid);
  }

  lemma {:induction false} RunInv(v: Volume, steps: seq<Step>, w: Volume)
    requires Inv(v) && Run(v, steps, w)
    ensures Inv(w)
    decreases |steps|
  {
    if steps == [] {
    } else {
      StepInv(v, steps[0]);
      RunInv(Apply(v, steps[0]), steps[1..], w);
    }
  }

  // ---------- safety over whole runs ----------

  // The tombstone never disappears.
  lemma {:induction false} TombstoneStays(v: Volume, steps: seq<Step>, w: Volume)
    requires Inv(v) && Run(v, steps, w) && v.tombstone
    ensures w.tombstone
    decreases |steps|
  {
    if steps == [] {
    } else {
      StepInv(v, steps[0]);
      TombstoneStays(Apply(v, steps[0]), steps[1..], w);
    }
  }

  // Retired without data is absorbing: nothing ever makes the data again.
  lemma {:induction false} RetiredStays(v: Volume, steps: seq<Step>, w: Volume)
    requires Inv(v) && Run(v, steps, w) && Retired(v)
    ensures Retired(w)
    decreases |steps|
  {
    if steps == [] {
    } else {
      StepInv(v, steps[0]);
      RetiredStays(Apply(v, steps[0]), steps[1..], w);
    }
  }

  // Processes that may use the data: past the tombstone check of their script.
  predicate PastCheck(p: Process) {
    p.status.Running? &&
    match p.script
    case Prepare(_) => p.line >= 4
    case Supervise => p.line >= 3
    case Export => p.line >= 3
    case _ => false
  }

  // Behind a tombstone nobody is, or ever gets, past that check; in particular a lock mode chosen
  // before the deletion does not help.
  lemma NobodyPassesTombstone(v: Volume, steps: seq<Step>, w: Volume, pid: Pid)
    requires Inv(v) && Run(v, steps, w) && v.tombstone && pid in w.processes
    ensures !PastCheck(w.processes[pid])
  {
    TombstoneStays(v, steps, w);
    RunInv(v, steps, w);
    if w.processes[pid].status.Running? { assert Established(w, w.processes[pid]); }
  }

  // Nor does any preparation or export succeed any more.
  lemma NoSuccessBehindTombstone(v: Volume, steps: seq<Step>, w: Volume, s: Step)
    requires Inv(v) && Run(v, steps, w) && v.tombstone && Enabled(w, s)
    requires s.Advance? && (w.processes[s.pid].script.Prepare? || w.processes[s.pid].script.Export?)
    ensures !Apply(w, s).processes[s.pid].status.Succeeded?
  {
    TombstoneStays(v, steps, w);
    RunInv(v, steps, w);
    AdvanceBarred(w, s.pid, s.works);
    assert Touches(w, Apply(w, s), s.pid);
  }

  lemma ExportFails(v: Volume, pid: Pid, works: bool)
    requires Enabled(v, Advance(pid, works)) && v.processes[pid].script.Export? && v.processes[pid].line < 3
    ensures BarredProcess(Apply(v, Advance(pid, works)).processes[pid])
  {
  }

  lemma PrepareFails(v: Volume, pid: Pid, works: bool)
    requires Enabled(v, Advance(pid, works)) && v.processes[pid].script.Prepare? && v.processes[pid].line < 4
    ensures BarredProcess(Apply(v, Advance(pid, works)).processes[pid])
  {
  }

  // Data comes into being only at the create line of a preparation that was allowed to create,
  // holds the lock exclusively and found no tombstone.
  lemma CreatedUnderExclusiveLock(v: Volume, s: Step)
    requires Inv(v) && Enabled(v, s) && !v.data && Apply(v, s).data
    ensures s.Advance? && v.processes[s.pid].script == Prepare(true)
    ensures Holder(v, s.pid, Exclusive) && Alone(v, s.pid) && !v.tombstone
  {
    if s.Advance? {
      assert Established(v, v.processes[s.pid]);
      CreatingLine(v, s.pid, s.works);
      HolderGranted(v, s.pid);
    }
  }

  lemma CreatingLine(v: Volume, pid: Pid, works: bool)
    requires Enabled(v, Advance(pid, works)) && !v.data && Apply(v, Advance(pid, works)).data
    ensures v.processes[pid].script.Prepare? && v.processes[pid].line == 5
  {
  }

  // A supervisor that got its shared lock and still runs.
  predicate Supervising(v: Volume, pid: Pid) {
    pid in v.processes && v.processes[pid].script.Supervise? && v.processes[pid].holds
  }

  // While one does: no data is removed, no tombstone is written, no export reads.
  lemma SupervisedDataIsSafe(v: Volume, s: Step, pid: Pid)
    requires Inv(v) && Enabled(v, s) && Supervising(v, pid)
    ensures v.data ==> Apply(v, s).data
    ensures v.tombstone == Apply(v, s).tombstone
    ensures forall q | q in v.processes && v.processes[q].script.Export? && v.processes[q].status.Running? ::
      v.processes[q].line < 2
  {
    StepInv(v, s);
    assert v.processes[pid].status.Running? && Established(v, v.processes[pid]);
    if s.pid == pid { SupervisorTouchesNothing(v, s); }
    forall q | q in v.processes && v.processes[q].script.Export? && v.processes[q].status.Running?
      ensures v.processes[q].line < 2
    {
      assert Established(v, v.processes[q]);
    }
  }

  lemma SupervisorTouchesNothing(v: Volume, s: Step)
    requires Enabled(v, s) && s.pid in v.processes && v.processes[s.pid].script.Supervise?
    ensures Apply(v, s).data == v.data && Apply(v, s).tombstone == v.tombstone
  {
  }

  // Over any run during which the supervisor keeps running, the data it found stays.
  lemma {:induction false} SupervisedRun(v: Volume, steps: seq<Step>, w: Volume, pid: Pid)
    requires Inv(v) && Run(v, steps, w) && Supervising(v, pid) && Supervising(w, pid) && v.data
    ensures w.data && w.tombstone == v.tombstone
    decreases |steps|
  {
    if steps == [] {
    } else {
      var u := Apply(v, steps[0]);
      StepInv(v, steps[0]);
      SupervisedDataIsSafe(v, steps[0], pid);
      if !Supervising(u, pid) { LockStaysLost(u, steps[1..], w, pid); }
      SupervisedRun(u, steps[1..], w, pid);
    }
  }

  // A process that has ended stays ended.
  lemma {:induction false} LockStaysLost(v: Volume, steps: seq<Step>, w: Volume, pid: Pid)
    requires Run(v, steps, w) && pid in v.processes && !v.processes[pid].status.Running?
    ensures pid in w.processes && w.processes[pid] == v.processes[pid]
    decreases |steps|
  {
    if steps == [] {
    } else {
      OthersUntouched(v, steps[0], pid);
      LockStaysLost(Apply(v, steps[0]), steps[1..], w, pid);
    }
  }

  lemma OthersUntouched(v: Volume, s: Step, pid: Pid)
    requires Enabled(v, s) && pid in v.processes && pid != s.pid
    ensures pid in Apply(v, s).processes && Apply(v, s).processes[pid] == v.processes[pid]
  {
  }

  // "deleted" is a receipt for ever: once a deletion has succeeded, or an inspection has answered
  // "retired", the data is gone in every later state.
  lemma DeletedReceiptIsPermanent(v: Volume, steps: seq<Step>, w: Volume, pid: Pid)
    requires Inv(v) && Run(v, steps, w) && pid in v.processes && Receipt(v.processes[pid])
    ensures Retired(w)
  {
    RetiredStays(v, steps, w);
  }

  // ---------- what stays, seen from outside ----------

  // Not a success of a preparation or an export, nor the answer that the data is retained.
  predicate Barred(script: Script, status: Status) {
    !status.Retained? && (status.Succeeded? ==> !script.Prepare? && !script.Export?)
  }

  predicate BarredProcess(p: Process) {
    Barred(p.script, p.status)
  }

  ghost predicate Later(v: Volume, w: Volume) {
    && (v.tombstone ==> w.tombstone) && (Retired(v) ==> Retired(w))
    && forall pid | pid in v.processes ::
      && pid in w.processes && w.processes[pid].script == v.processes[pid].script
      && (v.tombstone && BarredProcess(v.processes[pid]) ==> BarredProcess(w.processes[pid]))
  }

  lemma StepLater(v: Volume, s: Step)
    requires Inv(v) && Enabled(v, s)
    ensures Later(v, Apply(v, s))
  {
    StepInv(v, s);
    if s.Advance? {
      assert Touches(v, Apply(v, s), s.pid);
      if v.tombstone { AdvanceBarred(v, s.pid, s.works); }
    }
  }

  lemma AdvanceBarred(v: Volume, pid: Pid, works: bool)
    requires Inv(v) && Enabled(v, Advance(pid, works)) && v.tombstone
    ensures BarredProcess(Apply(v, Advance(pid, works)).processes[pid])
  {
    assert Established(v, v.processes[pid]);
    match v.processes[pid].script
    case Prepare(_) => PrepareFails(v, pid, works);
    case Export => ExportFails(v, pid, works);
    case Inspect => InspectSaysNothing(v, pid, works);
    case _ => OthersSayNothing(v, pid, works);
  }

  lemma InspectSaysNothing(v: Volume, pid: Pid, works: bool)
    requires Enabled(v, Advance(pid, works)) && v.processes[pid].script.Inspect? && v.tombstone
    ensures BarredProcess(Apply(v, Advance(pid, works)).processes[pid])
  {
  }

  lemma OthersSayNothing(v: Volume, pid: Pid, works: bool)
    requires Enabled(v, Advance(pid, works)) && (v.processes[pid].script.Supervise? || v.processes[pid].script.Delete?)
    ensures BarredProcess(Apply(v, Advance(pid, works)).processes[pid])
  {
  }

  // A supervisor in its final sleep keeps the tombstone away, and so the data there.
  predicate Sleeping(v: Volume, pid: Pid) {
    pid in v.processes && v.processes[pid].script.Supervise? && v.processes[pid].status.Running?
    && v.processes[pid].line >= 4
  }

  lemma SleepingKeepsTombstoneAway(v: Volume, pid: Pid)
    requires Inv(v) && Sleeping(v, pid)
    ensures !v.tombstone && v.data && Supervising(v, pid)
  {
    assert Established(v, v.processes[pid]);
  }

  lemma FreshInv()
    ensures Inv(FRESH)
  {
  }

  // ---------- completion ----------

  // The next line of a process whose commands all work, if it has not ended.
  function Next(v: Volume, pid: Pid): Volume {
    if Enabled(v, Advance(pid, true)) then Apply(v, Advance(pid, true)) else v
  }

  function Proceed(v: Volume, pid: Pid, lines: nat): Volume
    decreases lines
  {
    if lines == 0 then v else Proceed(Next(v, pid), pid, lines - 1)
  }

  // The script is started, and nothing but its own next lines follows.
  function Solo(v: Volume, pid: Pid, script: Script, lines: nat): Volume
    requires Enabled(v, Spawn(pid, script))
  {
    Proceed(Apply(v, Spawn(pid, script)), pid, lines)
  }

  lemma {:induction false} ProceedRuns(v: Volume, pid: Pid, lines: nat) returns (steps: seq<Step>)
    ensures Run(v, steps, Proceed(v, pid, lines)) && |steps| <= lines
    ensures forall i | 0 <= i < |steps| :: steps[i] == Advance(pid, true)
    decreases lines
  {
    if lines == 0 {
      steps := [];
    } else {
      steps := ProceedRuns(Next(v, pid), pid, lines - 1);
      if Enabled(v, Advance(pid, true)) {
        assert ([Advance(pid, true)] + steps)[1..] == steps;
        steps := [Advance(pid, true)] + steps;
      }
    }
  }

  // Running a script alone is a run.
  lemma SoloRuns(v: Volume, pid: Pid, script: Script, lines: nat) returns (steps: seq<Step>)
    requires Enabled(v, Spawn(pid, script))
    ensures Run(v, [Spawn(pid, script)] + steps, Solo(v, pid, script, lines)) && |steps| <= lines
    ensures forall i | 0 <= i < |steps| :: steps[i] == Advance(pid, true)
  {
    steps := ProceedRuns(Apply(v, Spawn(pid, script)), pid, lines);
    assert ([Spawn(pid, script)] + steps)[1..] == steps;
  }

  // Nobody's lock is in the way of this mode.
  predicate Free(v: Volume, mode: LockMode) {
    forall q | q in v.processes && v.processes[q].holds :: mode.Shared? && v.processes[q].mode.Shared?
  }

  // Only this process, and the data and the tombstone as said, may differ.
  predicate Became(v: Volume, w: Volume, pid: Pid, tombstone: bool, data: bool) {
    && pid in w.processes && w.processes - {pid} == v.processes - {pid} && w.tombstone == tombstone && w.data == data
  }

  predicate AtLine(v: Volume, pid: Pid, script: Script, line: nat, holds: bool) {
    && pid in v.processes && v.processes[pid].script == script && v.processes[pid].line == line
    && v.processes[pid].holds == holds && v.processes[pid].status.Running?
  }

  predicate EndedAs(v: Volume, pid: Pid, script: Script, status: Status) {
    && pid in v.processes && v.processes[pid].script == script && v.processes[pid].status == status
    && !status.Running? && !v.processes[pid].holds
  }

  lemma {:induction false} EndedStays(v: Volume, pid: Pid, lines: nat)
    requires pid in v.processes && !v.processes[pid].status.Running?
    ensures Proceed(v, pid, lines) == v
    decreases lines
  {
    if lines == 0 {
    } else {
      EndedStays(v, pid, lines - 1);
    }
  }

  lemma ThreeLines(v: Volume, pid: Pid, lines: nat)
    requires lines >= 3
    ensures Proceed(v, pid, lines) == Proceed(Next(Next(Next(v, pid), pid), pid), pid, lines - 3)
  {
    var one := Next(v, pid);
    var two := Next(one, pid);
    assert Proceed(v, pid, lines) == Proceed(one, pid, lines - 1);
    assert Proceed(one, pid, lines - 1) == Proceed(two, pid, lines - 2);
  }

  // A process without the lock is in nobody's way.
  lemma FreeBeside(v: Volume, w: Volume, pid: Pid, mode: LockMode)
    requires w.processes - {pid} == v.processes - {pid}
    requires pid in v.processes ==> !v.processes[pid].holds
    ensures Free(v, mode) <==> Grants(w, pid, mode)
    ensures (pid in w.processes ==> !w.processes[pid].holds) ==> (Free(w, mode) <==> Free(v, mode))
  {
    assert forall q | q != pid :: q in v.processes <==> q in (v.processes - {pid});
    assert forall q | q != pid :: q in w.processes <==> q in (w.processes - {pid});
    assert forall q | q in w.processes && q != pid :: (w.processes - {pid})[q] == w.processes[q];
    assert forall q | q in v.processes && q != pid :: (v.processes - {pid})[q] == v.processes[q];
  }

  lemma Started(v: Volume, pid: Pid, script: Script)
    requires Enabled(v, Spawn(pid, script))
    ensures var u := Apply(v, Spawn(pid, script));
      AtLine(u, pid, script, 0, false) && Became(v, u, pid, v.tombstone, v.data) && u.lockFile == v.lockFile
      && forall mode :: Free(u, mode) <==> Free(v, mode)
  {
    var u := Apply(v, Spawn(pid, script));
    forall mode ensures Free(u, mode) <==> Free(v, mode) { FreeBeside(v, u, pid, mode); }
  }

  // exec 9, the mode, flock.
  lemma PrepareStarts(v: Volume, pid: Pid, c: bool)
    requires AtLine(v, pid, Prepare(c), 0, false)
    ensures var w := Next(Next(Next(v, pid), pid), pid);
      && Became(v, w, pid, v.tombstone, v.data) && w.lockFile
      && if Free(v, if v.data then Shared else Exclusive) then AtLine(w, pid, Prepare(c), 3, true)
         else EndedAs(w, pid, Prepare(c), Failed)
  {
    var one := Next(v, pid);
    assert AtLine(one, pid, Prepare(c), 1, false) && Became(v, one, pid, v.tombstone, v.data);
    var two := Next(one, pid);
    assert AtLine(two, pid, Prepare(c), 2, false) && Became(v, two, pid, v.tombstone, v.data);
    FreeBeside(v, two, pid, two.processes[pid].mode);
  }

  // The first check, and the data.
  lemma PrepareGoesOn(v: Volume, pid: Pid, c: bool)
    requires AtLine(v, pid, Prepare(c), 3, true)
    ensures var w := Next(Next(Next(v, pid), pid), pid);
      var fits := !v.tombstone && (v.data || c);
      && Became(v, w, pid, v.tombstone, v.data || fits) && w.lockFile == v.lockFile
      && if !fits then EndedAs(w, pid, Prepare(c), Failed)
         else AtLine(w, pid, Prepare(c), if v.data then 7 else 6, true)
  {
    var one := Next(v, pid);
    var two := Next(one, pid);
    if !v.tombstone {
      assert AtLine(one, pid, Prepare(c), 4, true) && Became(v, one, pid, v.tombstone, v.data);
      if v.data || c { assert AtLine(two, pid, Prepare(c), if v.data then 6 else 5, true); }
    }
  }

  // The second check, and the quota.
  lemma PrepareEnds(v: Volume, pid: Pid, c: bool, line: nat)
    requires AtLine(v, pid, Prepare(c), line, true) && 6 <= line <= 7 && v.data && !v.tombstone
    ensures var w := Next(Next(Next(v, pid), pid), pid);
      Became(v, w, pid, false, true) && w.lockFile == v.lockFile && EndedAs(w, pid, Prepare(c), Succeeded)
  {
    var one := Next(v, pid);
    assert AtLine(one, pid, Prepare(c), line + 1, true) && Became(v, one, pid, false, true);
  }

  // A preparation that runs alone, beside whatever locks are held, succeeds exactly when the data has not
  // been given up and either is there and no lock but shared ones is held, or may be made and no lock is.
  predicate CanPrepare(v: Volume, allowCreate: bool) {
    !v.tombstone && if v.data then Free(v, Shared) else allowCreate && Free(v, Exclusive)
  }

  lemma PrepareAlone(v: Volume, pid: Pid, c: bool)
    requires Enabled(v, Spawn(pid, Prepare(c)))
    ensures var w := Solo(v, pid, Prepare(c), 9);
      && EndedAs(w, pid, Prepare(c), if CanPrepare(v, c) then Succeeded else Failed)
      && Became(v, w, pid, v.tombstone, v.data || CanPrepare(v, c)) && w.lockFile
  {
    Started(v, pid, Prepare(c));
    var u := Apply(v, Spawn(pid, Prepare(c)));
    var three := Next(Next(Next(u, pid), pid), pid);
    PrepareStarts(u, pid, c);
    ThreeLines(u, pid, 9);
    if Free(v, if v.data then Shared else Exclusive) {
      var six := Next(Next(Next(three, pid), pid), pid);
      PrepareGoesOn(three, pid, c);
      ThreeLines(three, pid, 6);
      if CanPrepare(v, c) {
        PrepareEnds(six, pid, c, if v.data then 7 else 6);
        ThreeLines(six, pid, 3);
      } else {
        EndedStays(six, pid, 3);
      }
    } else {
      EndedStays(three, pid, 6);
    }
  }

  // A supervisor comes to its final sleep, beside other shared locks, exactly on data not given up.
  predicate CanSupervise(v: Volume) {
    v.lockFile && v.data && !v.tombstone && Free(v, Shared)
  }

  lemma SuperviseAlone(v: Volume, pid: Pid)
    requires Enabled(v, Spawn(pid, Supervise))
    ensures var w := Solo(v, pid, Supervise, 4);
      && Became(v, w, pid, v.tombstone, v.data) && w.lockFile == v.lockFile
      && (if CanSupervise(v) then Sleeping(w, pid) && Supervising(w, pid) else EndedAs(w, pid, Supervise, Failed))
  {
    Started(v, pid, Supervise);
    var u := Apply(v, Spawn(pid, Supervise));
    var one := Next(u, pid);
    var two := Next(one, pid);
    ThreeLines(u, pid, 4);
    if v.lockFile && v.data {
      assert AtLine(one, pid, Supervise, 1, false) && Became(v, one, pid, v.tombstone, v.data);
      FreeBeside(v, one, pid, Shared);
      assert Became(v, two, pid, v.tombstone, v.data) && AtLine(two, pid, Supervise, 2, true) == Free(v, Shared);
    }
  }

  // A deletion needs the lock to itself; it leaves the data given up and gone.
  lemma DeleteAlone(v: Volume, pid: Pid)
    requires Enabled(v, Spawn(pid, Delete))
    ensures var w := Solo(v, pid, Delete, 6);
      var free := Free(v, Exclusive);
      && EndedAs(w, pid, Delete, if free then Succeeded else Failed)
      && Became(v, w, pid, v.tombstone || free, v.data && !free) && w.lockFile
  {
    Started(v, pid, Delete);
    var u := Apply(v, Spawn(pid, Delete));
    var one := Next(u, pid);
    var three := Next(Next(one, pid), pid);
    assert AtLine(one, pid, Delete, 1, false) && Became(v, one, pid, v.tombstone, v.data);
    FreeBeside(v, one, pid, Exclusive);
    ThreeLines(u, pid, 6);
    ThreeLines(three, pid, 3);
    if Free(v, Exclusive) {
      assert AtLine(three, pid, Delete, 3, true) && Became(v, three, pid, true, v.data);
    } else {
      EndedStays(three, pid, 3);
    }
  }

  // An export needs the lock to itself as well, and data not given up; it changes nothing.
  predicate CanExport(v: Volume) {
    v.lockFile && v.data && !v.tombstone && Free(v, Exclusive)
  }

  lemma ExportAlone(v: Volume, pid: Pid)
    requires Enabled(v, Spawn(pid, Export))
    ensures var w := Solo(v, pid, Export, 4);
      && EndedAs(w, pid, Export, if CanExport(v) then Succeeded else Failed)
      && Became(v, w, pid, v.tombstone, v.data) && w.lockFile == v.lockFile
  {
    Started(v, pid, Export);
    var u := Apply(v, Spawn(pid, Export));
    var one := Next(u, pid);
    var two := Next(one, pid);
    ThreeLines(u, pid, 4);
    if v.lockFile && v.data {
      assert AtLine(one, pid, Export, 1, false) && Became(v, one, pid, v.tombstone, v.data);
      FreeBeside(v, one, pid, Exclusive);
      assert Became(v, two, pid, v.tombstone, v.data) && AtLine(two, pid, Export, 2, true) == Free(v, Exclusive);
    }
  }

  // An inspection tells data given up and gone from data retained, whatever locks are held.
  lemma InspectAlone(v: Volume, pid: Pid)
    requires Enabled(v, Spawn(pid, Inspect))
    ensures var w := Solo(v, pid, Inspect, 2);
      && EndedAs(w, pid, Inspect, if !v.tombstone then Retained else if v.data then Failed else Succeeded)
      && Became(v, w, pid, v.tombstone, v.data) && w.lockFile == v.lockFile
  {
    Started(v, pid, Inspect);
    var u := Apply(v, Spawn(pid, Inspect));
    var one := Next(u, pid);
    assert Proceed(u, pid, 2) == Proceed(one, pid, 1) == Next(one, pid);
  }

  // The lines with a command that may fail for reasons of its own.
  predicate Fallible(p: Process) {
    match p.script
    case Prepare(_) => p.line == 5 || p.line >= 7
    case Supervise => p.line == 3
    case Delete => p.line == 2 || p.line == 4
    case Export => p.line >= 3
    case Inspect => false
  }

  // Exactly there a failed command matters: it ends the script as failed and changes nothing else.
  lemma FailedCommandEnds(v: Volume, pid: Pid)
    requires Enabled(v, Advance(pid, true))
    ensures var w := Apply(v, Advance(pid, false));
      if Fallible(v.processes[pid])
      then EndedAs(w, pid, v.processes[pid].script, Failed) && Became(v, w, pid, v.tombstone, v.data)
      else w == Apply(v, Advance(pid, true))
  {
  }
}
