/**
 * The Buildpacks runner: one slot, a dedicated daemon, a sticky blocked flag and two deferred cleanups.
 * Every command may fail; a failed removal may leave anything behind.
 */
module Buildpacks {

  // A directory that holds credentials or sources.
  datatype Content = Gone | Empty | Filled
  datatype Workspace = Workspace(credentials: Content, source: Content)

  datatype Status = Completed | Failed | TimedOut | Canceled | Canceling
  datatype Event =
    | Confirmed(run: nat)                          // sources are there, the control plane says go on
    | Started(run: nat, containers: set<string>)   // a build begins on the daemon as it is
    | Swept(run: nat, confirmed: bool)             // the daemon is confirmed empty again
    | Trimmed(run: nat, trimmed: bool)
    | Wiped(run: nat, wiped: bool)                 // credentials and sources are removed
    | Reported(run: nat, status: Status)           // the last callback of the task

  // What a task's run did: nothing, a workspace without a build, or a build.
  datatype Sweep = Unconfirmed | Untrimmed | Clean
  datatype Outcome = Refused | Aborted(wiped: bool) | Built(sweep: Sweep, wiped: bool)
  datatype Result = Result(error: bool, stopUnconfirmed: bool)

  predicate Failure(e: Event) {
    (e.Swept? && !e.confirmed) || (e.Trimmed? && !e.trimmed) || (e.Wiped? && !e.wiped)
  }

  predicate Fails(o: Outcome) {
    !o.Refused? && (!o.wiped || (o.Built? && o.sweep != Clean))
  }

  function SweepSteps(run: nat, sweep: Sweep): seq<Event> {
    match sweep
    case Unconfirmed => [Swept(run, false)]
    case Untrimmed => [Swept(run, true), Trimmed(run, false)]
    case Clean => [Swept(run, true), Trimmed(run, true)]
  }

  function Steps(run: nat, o: Outcome): seq<Event> {
    match o
    case Refused => []
    case Aborted(wiped) => [Wiped(run, wiped)]
    case Built(sweep, wiped) => [Confirmed(run), Started(run, {})] + SweepSteps(run, sweep) + [Wiped(run, wiped)]
  }

  // No secret or source is on disk unless the runner is blocked; an empty directory is left behind only
  // by a workspace whose creation failed and whose own removal failed too.
  ghost predicate Tidy(roots: map<nat, Workspace>, leftovers: set<nat>, blocked: bool) {
    forall root | root in roots :: Accounted(roots[root], root in leftovers, blocked)
  }

  predicate Accounted(w: Workspace, leftover: bool, blocked: bool) {
    && (w.credentials == Filled || w.source == Filled ==> blocked)
    && (w.credentials == Empty || w.source == Empty ==> blocked || leftover)
  }

  // What one task adds to the trace.
  function TaskSteps(run: nat, o: Outcome, status: Status): seq<Event> {
    Steps(run, o) + [Reported(run, status)]
  }

  ghost predicate Halted(trace: seq<Event>) {
    exists e :: e in trace && Failure(e)
  }

  ghost predicate InOrder(trace: seq<Event>, i: nat, j: nat) {
    i < j < |trace| ==> (Failure(trace[i]) ==> !trace[j].Started?) && trace[i].run <= trace[j].run
  }

  // A build starts on an empty daemon, right after its own confirmation and right before its own sweep.
  ghost predicate Paired(trace: seq<Event>, i: nat) {
    i < |trace| && trace[i].Started? ==>
      && trace[i].containers == {} && 0 < i < |trace| - 1 && trace[i - 1] == Confirmed(trace[i].run)
      && trace[i + 1].Swept? && trace[i + 1].run == trace[i].run
  }

  // The last callback of a run is its only one, and says canceling exactly when its stop is unconfirmed.
  ghost predicate Told(trace: seq<Event>, i: nat, j: nat) {
    i < |trace| && j < |trace| && trace[j].Reported? && trace[i].run == trace[j].run
    ==> i <= j && (trace[i] == Swept(trace[j].run, false) ==> trace[j].status == Canceling)
  }

  ghost predicate Sound(trace: seq<Event>, blocked: bool, runs: nat) {
    && (blocked <==> Halted(trace))
    && (forall i | 0 <= i < |trace| :: trace[i].run < runs)
    && (forall i, j :: InOrder(trace, i, j))
    && (forall i :: Paired(trace, i))
    && (forall i, j :: Told(trace, i, j))
  }

  lemma StepsOfRun(run: nat, o: Outcome, status: Status)
    requires status == Canceling <==> o.Built? && o.sweep == Unconfirmed
    ensures var steps := TaskSteps(run, o, status);
      && (forall k | 0 <= k < |steps| :: steps[k].run == run && (steps[k].Started? ==> k == 1))
      && (|steps| > 1 && steps[1].Started? ==>
        o.Built? && steps[1].containers == {} && steps[0] == Confirmed(run) && |steps| > 2 && steps[2].Swept?)
      && (forall k | 0 <= k < |steps| :: steps[k].Reported? <==> k == |steps| - 1)
      && (Halted(steps) <==> Fails(o))
      && (steps[|steps| - 1].status == Canceling <==> Swept(run, false) in steps)
  {
    var steps := TaskSteps(run, o, status);
    match o {
      case Refused =>
      case Aborted(wiped) =>
        var wipe := Wiped(run, wiped);
        assert steps[0] == wipe;
        assert Failure(wipe) <==> !wiped;
        forall e | e in steps ensures e == wipe || e == Reported(run, status) {}
      case Built(sweep, wiped) =>
        match sweep {
          case Unconfirmed => assert steps[2] in steps && Failure(steps[2]);
          case Untrimmed => assert steps[3] in steps && Failure(steps[3]);
          case Clean => assert steps[4] in steps && (Failure(steps[4]) <==> !wiped);
        }
    }
  }

  // A further task keeps the whole trace sound, provided it builds only when nothing failed before.
  lemma AppendTask(trace: seq<Event>, blocked: bool, run: nat, o: Outcome, status: Status)
    requires Sound(trace, blocked, run)
    requires o.Built? ==> !blocked
    requires status == Canceling <==> o.Built? && o.sweep == Unconfirmed
    ensures Sound(trace + TaskSteps(run, o, status), blocked || Fails(o), run + 1)
  {
    var steps := TaskSteps(run, o, status);
    var more, n := trace + steps, |trace|;
    StepsOfRun(run, o, status);
    HaltedConcat(trace, steps);
    forall i: nat, j: nat ensures InOrder(more, i, j) {
      if i < j < |more| {
        assert InOrder(trace, i, j);
        if i < n <= j && Failure(more[i]) { assert more[i] in trace; }
      }
    }
    forall i: nat ensures Paired(more, i) { assert Paired(trace, i); }
    forall i: nat, j: nat ensures Told(more, i, j) { assert Told(trace, i, j); }
  }

  lemma HaltedConcat(trace: seq<Event>, steps: seq<Event>)
    ensures Halted(trace + steps) <==> Halted(trace) || Halted(steps)
  {
    forall e ensures e in trace + steps <==> e in trace || e in steps {}
  }

  // Before a later build, every earlier build's containers were confirmed gone, its cache trimmed and
  // every workspace wiped.
  lemma BuildsAreSeparated(trace: seq<Event>, blocked: bool, runs: nat, i: nat, j: nat)
    requires Sound(trace, blocked, runs)
    requires i < j < |trace| && trace[i].Started? && trace[j].Started?
    ensures i + 1 < j && trace[i + 1] == Swept(trace[i].run, true)
    ensures forall k | 0 <= k < j :: !Failure(trace[k])
    ensures trace[j].containers == {}
  {
    assert Paired(trace, i) && Paired(trace, j) && InOrder(trace, i + 1, j);
    forall k | 0 <= k < j ensures !Failure(trace[k]) { assert InOrder(trace, k, j); }
  }

  class Runner {
    var blocked: bool
    var containers: set<string>           // on the dedicated daemon
    var roots: map<nat, Workspace>        // workspaces made so far
    var nextRoot: nat
    var runs: nat
    ghost var leftovers: set<nat>
    ghost var trace: seq<Event>
    ghost var setbacks: nat               // what has gone wrong so far

    ghost predicate Valid()
      reads this
    {
      && (forall root | root in roots :: root < nextRoot)
      && Tidy(roots, leftovers, blocked)
    }

    constructor (present: set<string>)
      ensures Valid() && !blocked && containers == present && roots == map[]
      ensures runs == 0 && trace == [] && setbacks == 0
    {
      blocked, containers, roots, nextRoot, runs, leftovers, trace := false, present, map[], 0, 0, {}, [];
      setbacks := 0;
    }

    // Anything that can fail, or be answered with no.
    method Ask() returns (ok: bool)
      modifies this`setbacks
      ensures setbacks == old(setbacks) + if ok then 0 else 1
    {
      ok := *;
      Count(ok);
    }

    ghost method Count(ok: bool)
      modifies this`setbacks
      ensures setbacks == old(setbacks) + if ok then 0 else 1
    {
      if !ok { setbacks := setbacks + 1; }
    }

    // buildpacksContainers: a listing that succeeds is true.
    method Containers() returns (ok: bool, ids: set<string>)
      modifies this`setbacks
      ensures ok ==> ids == containers
      ensures setbacks >= old(setbacks) && (ok <==> setbacks == old(setbacks))
    {
      ok := *;
      ok := ok && |containers| <= 32;
      Count(ok);
      ids := if ok then containers else {};
    }

    // cleanupBuildpacksContainers: success means the second listing was empty.
    method CleanupContainers() returns (ok: bool)
      modifies this`containers, this`setbacks
      ensures ok ==> containers == {}
      ensures containers <= old(containers)
      ensures setbacks >= old(setbacks) && (ok <==> setbacks == old(setbacks))
    {
      var listed, ids := Containers();
      if !listed { return false; }
      if ids != {} {
        var left: set<string>, fault: bool := *, *;
        containers := containers * left;
        Count(!fault && containers == {});
        if fault { return false; }
      }
      listed, ids := Containers();
      return listed && ids == {};
    }

    method RemoveAll(content: Content) returns (ok: bool, left: Content)
      modifies this`setbacks
      ensures ok ==> left == Gone
      ensures left == Gone || left == content
      ensures setbacks >= old(setbacks) && (ok <==> setbacks == old(setbacks))
    {
      ok := Ask();
      var partial: bool := *;
      left := if !ok && partial then content else Gone;
    }

    // cleanupBuildpacksWorkspace: both removals are attempted.
    method CleanupWorkspace(root: nat) returns (ok: bool)
      requires root in roots
      modifies this`roots, this`blocked, this`setbacks
      ensures setbacks >= old(setbacks) && (ok <==> setbacks == old(setbacks))
      ensures roots.Keys == old(roots).Keys && forall r | r in roots && r != root :: roots[r] == old(roots)[r]
      ensures ok ==> roots[root] == Workspace(Gone, Gone)
      ensures blocked == (old(blocked) || !ok)
    {
      var okCredentials, credentials := RemoveAll(roots[root].credentials);
      var okSource, source := RemoveAll(roots[root].source);
      roots := roots[root := Workspace(credentials, source)];
      ok := okCredentials && okSource;
      if !ok { blocked := true; }
    }

    // createBuildpacksWorkspace: a failure after the directory exists removes it, if that works.
    method CreateWorkspace() returns (ok: bool, root: nat)
      requires Valid()
      modifies this`roots, this`nextRoot, this`leftovers, this`setbacks
      ensures setbacks >= old(setbacks) && (ok <==> setbacks == old(setbacks))
      ensures forall r | r in roots :: r < nextRoot
      ensures ok ==>
        root !in old(roots) && roots == old(roots)[root := Workspace(Empty, Empty)] && leftovers == old(leftovers)
      ensures !ok ==> Valid() && (roots == old(roots) || (root in leftovers && roots.Keys == old(roots).Keys + {root}))
    {
      root := nextRoot;
      ok := Ask();
      if !ok { return; }
      nextRoot := nextRoot + 1;
      var made: nat := 0;
      while made < 4
        invariant made <= 4 && setbacks == old(setbacks)
        modifies this`setbacks
      {
        ok := Ask();
        if !ok { break; }
        made := made + 1;
      }
      var filed := Ask();   // credentials/project.toml
      var w := Workspace(if made > 0 then Empty else Gone, if made > 1 then Empty else Gone);
      if made == 4 && filed {
        roots := roots[root := w];
        return true, root;
      }
      var removed := Ask();
      if !removed {
        var credentials: bool, source: bool := *, *;
        var left := Workspace(if credentials then w.credentials else Gone, if source then w.source else Gone);
        roots := roots[root := left];
        leftovers := leftovers + {root};
      }
      return false, root;
    }

    // The pack or lifecycle run: it creates any containers, and may fail.
    method Build(run: nat) returns (error: bool)
      modifies this`containers, this`trace, this`setbacks
      ensures trace == old(trace) + [Started(run, old(containers))]
      ensures setbacks >= old(setbacks) && (error <==> setbacks > old(setbacks))
    {
      var created: set<string> := *;
      trace := trace + [Started(run, containers)];
      containers := containers + created;
      var fine := Ask();
      error := !fine;
    }

    // The second deferred cleanup, which overwrites the result.
    method Sweep(run: nat, built: Result) returns (result: Result, ghost sweep: Sweep)
      requires !built.stopUnconfirmed
      modifies this`containers, this`trace, this`blocked, this`setbacks
      ensures setbacks >= old(setbacks) && (sweep == Clean <==> setbacks == old(setbacks))
      ensures trace == old(trace) + SweepSteps(run, sweep)
      ensures blocked == (old(blocked) || sweep != Clean)
      ensures sweep != Unconfirmed ==> containers == {}
      ensures result.stopUnconfirmed <==> sweep == Unconfirmed
      ensures result.error == (built.error || sweep != Clean)
    {
      var ok := CleanupContainers();
      trace := trace + [Swept(run, ok)];
      if !ok {
        blocked := true;
        return Result(true, true), Unconfirmed;
      }
      var trimmed := Ask();
      trace := trace + [Trimmed(run, trimmed)];
      if !trimmed {
        blocked := true;
        return Result(true, false), Untrimmed;
      }
      return built, Clean;
    }

    // Everything under the first deferred cleanup: credentials, sources, the last question, the build.
    method InWorkspace(run: nat, root: nat) returns (result: Result, ghost built: bool, ghost sweep: Sweep)
      requires root in roots
      modifies this`roots, this`containers, this`trace, this`blocked, this`setbacks
      ensures setbacks >= old(setbacks) && (result.error <==> setbacks > old(setbacks))
      ensures roots.Keys == old(roots).Keys && forall r | r in roots && r != root :: roots[r] == old(roots)[r]
      ensures !built ==>
        result == Result(true, false) && trace == old(trace) && containers == old(containers) && blocked == old(blocked)
      ensures built ==> trace == old(trace) + ([Confirmed(run), Started(run, old(containers))] + SweepSteps(run, sweep))
      ensures built ==> blocked == (old(blocked) || sweep != Clean)
      ensures built && sweep != Unconfirmed ==> containers == {}
      ensures built ==> (result.stopUnconfirmed <==> sweep == Unconfirmed) && (!result.error ==> sweep == Clean)
    {
      built, sweep := false, Clean;
      // prepareBuildpacksEnvironment, then checkoutBuildpacksSources: each may leave what it wrote.
      var credentials: Content, source: Content := *, *;
      roots := roots[root := Workspace(credentials, Empty)];
      var ready := Ask();
      if !ready { return Result(true, false), false, Clean; }
      credentials := *;
      roots := roots[root := Workspace(credentials, source)];
      ready := Ask();
      if !ready { return Result(true, false), false, Clean; }
      // The project directory, and the callback that must find the task still wanted.
      var located := Ask();
      if !located { return Result(true, false), false, Clean; }
      var answered := Ask();
      var wanted := Ask();
      if !answered || !wanted { return Result(true, false), false, Clean; }
      built := true;
      trace := trace + [Confirmed(run)];
      var error := Build(run);
      result, sweep := Sweep(run, Result(error, false));
    }

    // runBuildpacks.
    method RunBuildpacks(run: nat) returns (result: Result, ghost outcome: Outcome)
      requires Valid()
      modifies this`roots, this`nextRoot, this`leftovers, this`containers, this`trace, this`blocked, this`setbacks
      ensures Valid() && trace == old(trace) + Steps(run, outcome)
      ensures blocked == (old(blocked) || Fails(outcome))
      ensures outcome.Built? ==> !old(blocked) && old(containers) == {}
      ensures outcome.Built? && outcome.sweep != Unconfirmed ==> containers == {}
      ensures !outcome.Built? ==> containers == old(containers)
      ensures !outcome.Refused? ==> old(containers) == {} && leftovers == old(leftovers)
      ensures old(blocked) ==> outcome.Refused?
      ensures result.stopUnconfirmed <==> outcome.Built? && outcome.sweep == Unconfirmed
      ensures !result.error ==> outcome == Built(Clean, true)
      // It succeeds exactly when it finds the flag clear and the daemon empty and nothing goes wrong.
      ensures !result.error <==> setbacks == old(setbacks) && !old(blocked) && old(containers) == {}
      ensures setbacks >= old(setbacks)
    {
      outcome := Refused;
      var valid := Ask();
      if !valid || blocked { return Result(true, false), Refused; }
      var ok, ids := Containers();
      if !ok || ids != {} { return Result(true, false), Refused; }
      var trimmed := Ask();
      if !trimmed { return Result(true, false), Refused; }
      var root;
      ok, root := CreateWorkspace();
      if !ok { return Result(true, false), Refused; }
      ghost var built, sweep;
      result, built, sweep := InWorkspace(run, root);
      ghost var before := blocked;
      var wiped := CleanupWorkspace(root);
      trace := trace + [Wiped(run, wiped)];
      if !wiped { result := result.(error := true); }
      outcome := if built then Built(sweep, wiped) else Aborted(wiped);
    }

    // executeBuildpacksTask: one last callback, nonterminal exactly when the stop is unconfirmed.
    method ExecuteTask() returns (ghost outcome: Outcome, ghost status: Status, inTime: bool, wanted: bool)
      requires Valid()
      modifies this
      ensures Valid() && runs == old(runs) + 1
      ensures trace == old(trace) + Steps(old(runs), outcome) + [Reported(old(runs), status)]
      ensures blocked == (old(blocked) || Fails(outcome))
      ensures outcome.Built? ==> !old(blocked) && old(containers) == {}
      ensures containers == {} || blocked <==> old(containers) == {} || old(blocked)
      ensures !outcome.Built? ==> containers == old(containers)
      ensures status == Canceling <==> outcome.Built? && outcome.sweep == Unconfirmed
      ensures status == Completed ==> outcome == Built(Clean, true)
      // Completed exactly when the flag is clear, the daemon empty and nothing goes wrong; what is over time or
      // no longer wanted is said to be that, unless its stop is unconfirmed.
      ensures status == Completed <==> setbacks == old(setbacks) && !old(blocked) && old(containers) == {}
      ensures status == TimedOut <==> !inTime && status != Canceling
      ensures status == Canceled <==> inTime && !wanted && status != Canceling
    {
      var run := runs;
      runs := runs + 1;
      outcome := Refused;
      var reported;
      inTime, wanted := true, true;
      var redeemed := Ask();
      if !redeemed {
        reported := Failed;
      } else {
        var result;
        result, outcome := RunBuildpacks(run);
        inTime := Ask();
        wanted := Ask();
        reported := if result.stopUnconfirmed then Canceling
          else if !inTime then TimedOut
          else if !wanted then Canceled
          else if result.error then Failed
          else Completed;
      }
      status := reported;
      trace := trace + [Reported(run, reported)];
    }

    // The claim gate: a blocked runner takes no further task.
    method Poll()
      requires Valid() && Sound(trace, blocked, runs)
      modifies this
      ensures Valid() && Sound(trace, blocked, runs)
      ensures old(blocked) ==> trace == old(trace) && containers == old(containers)
      ensures old(trace) <= trace && (old(blocked) ==> blocked)
    {
      if blocked { return; }
      ghost var before, run := trace, runs;
      ghost var outcome, status;
      var inTime, wanted;
      outcome, status, inTime, wanted := ExecuteTask();
      AppendTask(before, false, run, outcome, status);
      assert trace == before + TaskSteps(run, outcome, status);
    }

    // Any number of tasks; between them others may start or remove containers on the daemon.
    method Serve(tasks: nat)
      requires Valid() && Sound(trace, blocked, runs)
      modifies this
      ensures Valid() && Sound(trace, blocked, runs)
      ensures old(blocked) ==> trace == old(trace)
    {
      for k := 0 to tasks
        invariant Valid() && Sound(trace, blocked, runs)
        invariant old(blocked) ==> blocked && trace == old(trace)
      {
        containers := *;
        Poll();
      }
    }
  }
}
