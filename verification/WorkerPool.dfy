/** The worker pool that reads log sources: unbuffered jobs, buffered results, two closing goroutines. */
module WorkerPool {
  import opened Basics
  import opened LogMerge
  import opened LogOrder
  import Strings

  const MAX_CONCURRENCY: nat := 5

  datatype Worker = Idle | Reading(source: nat) | Done

  // `next` sources were handed out; `buffer` is the results channel; `received` is what the caller took from it.
  datatype Pool = Pool(
    sources: nat, next: nat, jobsClosed: bool, workers: seq<Worker>,
    buffer: seq<nat>, resultsClosed: bool, received: seq<nat>)

  datatype Step =
    | Hand(w: nat)      // the feeder meets an idle worker on the jobs channel
    | CloseJobs
    | Deliver(w: nat)   // a worker sends its result
    | Exit(w: nat)      // a worker's range over the closed jobs channel ends
    | CloseResults      // after workers.Wait()
    | Receive

  function Start(sources: nat): Pool {
    var count := if sources < MAX_CONCURRENCY then sources else MAX_CONCURRENCY;
    Pool(sources, 0, false, seq(count, _ => Idle), [], false, [])
  }

  // A send on a closed channel panics; only `resultsClosed` could make Deliver one.
  predicate Enabled(p: Pool, s: Step) {
    match s
    case Hand(w) => w < |p.workers| && p.workers[w].Idle? && p.next < p.sources
    case CloseJobs => p.next == p.sources && !p.jobsClosed
    case Deliver(w) => w < |p.workers| && p.workers[w].Reading? && |p.buffer| < |p.workers|
    case Exit(w) => w < |p.workers| && p.workers[w].Idle? && p.jobsClosed
    case CloseResults => !p.resultsClosed && forall w | 0 <= w < |p.workers| :: p.workers[w].Done?
    case Receive => p.buffer != []
  }

  function Apply(p: Pool, s: Step): Pool
    requires Enabled(p, s)
  {
    match s
    case Hand(w) => p.(workers := p.workers[w := Reading(p.next)], next := p.next + 1)
    case CloseJobs => p.(jobsClosed := true)
    case Deliver(w) => p.(workers := p.workers[w := Idle], buffer := p.buffer + [p.workers[w].source])
    case Exit(w) => p.(workers := p.workers[w := Done])
    case CloseResults => p.(resultsClosed := true)
    case Receive => p.(buffer := p.buffer[1..], received := p.received + [p.buffer[0]])
  }

  predicate Run(p: Pool, steps: seq<Step>, q: Pool)
    decreases |steps|
  {
    if steps == [] then p == q else Enabled(p, steps[0]) && Run(Apply(p, steps[0]), steps[1..], q)
  }

  // ---------- conservation ----------

  function HeldBy(w: Worker, source: nat): nat {
    if w.Reading? && w.source == source then 1 else 0
  }

  function Held(workers: seq<Worker>, source: nat): nat {
    if workers == [] then 0 else HeldBy(workers[0], source) + Held(workers[1..], source)
  }

  lemma {:induction false} HeldUpdate(workers: seq<Worker>, w: nat, x: Worker, source: nat)
    requires w < |workers|
    ensures Held(workers[w := x], source) + HeldBy(workers[w], source) == Held(workers, source) + HeldBy(x, source)
  {
    if w == 0 {
      assert workers[w := x][1..] == workers[1..];
    } else {
      HeldUpdate(workers[1..], w - 1, x, source);
      assert workers[w := x][1..] == workers[1..][w - 1 := x];
    }
  }

  // In how many places a source or its result currently is.
  function Copies(p: Pool, source: nat): nat {
    multiset(p.received)[source] + multiset(p.buffer)[source] + Held(p.workers, source)
  }

  // Every source handed out is in exactly one place, and the channels close in order.
  ghost predicate Consistent(p: Pool) {
    && p.next <= p.sources
    && (forall i: nat :: Copies(p, i) == if i < p.next then 1 else 0)
    && (p.jobsClosed ==> p.next == p.sources)
    && (forall w | 0 <= w < |p.workers| :: p.workers[w].Done? ==> p.jobsClosed)
    && (p.resultsClosed ==> forall w | 0 <= w < |p.workers| :: p.workers[w].Done?)
    && |p.workers| == (if p.sources < MAX_CONCURRENCY then p.sources else MAX_CONCURRENCY)
  }

  lemma CountAppended(s: seq<nat>, x: nat, i: nat)
    ensures multiset(s + [x])[i] == multiset(s)[i] + if x == i then 1 else 0
  {
  }

  lemma CountTail(s: seq<nat>, i: nat)
    requires s != []
    ensures multiset(s)[i] == multiset(s[1..])[i] + if s[0] == i then 1 else 0
  {
    assert s == [s[0]] + s[1..];
  }

  lemma StepCopies(p: Pool, s: Step, i: nat)
    requires Enabled(p, s)
    ensures Copies(Apply(p, s), i) == Copies(p, i) + if s.Hand? && i == p.next then 1 else 0
  {
    match s
    case Hand(w) => HeldUpdate(p.workers, w, Reading(p.next), i);
    case Deliver(w) => DeliverCopies(p, w, i);
    case Exit(w) => HeldUpdate(p.workers, w, Done, i);
    case Receive => ReceiveCopies(p, i);
    case _ =>
  }

  lemma DeliverCopies(p: Pool, w: nat, i: nat)
    requires Enabled(p, Deliver(w))
    ensures Copies(Apply(p, Deliver(w)), i) == Copies(p, i)
  {
    HeldUpdate(p.workers, w, Idle, i);
    CountAppended(p.buffer, p.workers[w].source, i);
  }

  lemma ReceiveCopies(p: Pool, i: nat)
    requires Enabled(p, Receive)
    ensures Copies(Apply(p, Receive), i) == Copies(p, i)
  {
    CountAppended(p.received, p.buffer[0], i);
    CountTail(p.buffer, i);
  }

  lemma StepConsistent(p: Pool, s: Step)
    requires Consistent(p) && Enabled(p, s)
    ensures Consistent(Apply(p, s))
  {
    forall i: nat ensures Copies(Apply(p, s), i) == if i < Apply(p, s).next then 1 else 0 { StepCopies(p, s, i); }
  }

  lemma {:induction false} NothingHeld(workers: seq<Worker>, source: nat)
    requires forall w | 0 <= w < |workers| :: !workers[w].Reading?
    ensures Held(workers, source) == 0
  {
    if workers == [] {
    } else {
      NothingHeld(workers[1..], source);
    }
  }

  lemma {:induction false} RunConsistent(p: Pool, steps: seq<Step>, q: Pool)
    requires Consistent(p) && Run(p, steps, q)
    ensures Consistent(q) && q.sources == p.sources
    decreases |steps|
  {
    if steps == [] {
    } else {
      StepConsistent(p, steps[0]);
      RunConsistent(Apply(p, steps[0]), steps[1..], q);
    }
  }

  lemma StartConsistent(sources: nat)
    ensures Consistent(Start(sources))
  {
    forall i: nat ensures Copies(Start(sources), i) == 0 { NothingHeld(Start(sources).workers, i); }
  }

  function Below(n: nat): multiset<nat> {
    if n == 0 then multiset{} else Below(n - 1) + multiset{n - 1}
  }

  // ---------- termination and completeness ----------

  function Weight(w: Worker): nat {
    match w case Idle => 1 case Reading(_) => 4 case Done => 0
  }

  function Weights(workers: seq<Worker>): nat {
    if workers == [] then 0 else Weight(workers[0]) + Weights(workers[1..])
  }

  lemma {:induction false} WeightsUpdate(workers: seq<Worker>, w: nat, x: Worker)
    requires w < |workers|
    ensures Weights(workers[w := x]) == Weights(workers) - Weight(workers[w]) + Weight(x)
  {
    if w == 0 {
      assert workers[w := x][1..] == workers[1..];
    } else {
      WeightsUpdate(workers[1..], w - 1, x);
      assert workers[w := x][1..] == workers[1..][w - 1 := x];
    }
  }

  function Remaining(p: Pool): int {
    4 * (p.sources - p.next) + Weights(p.workers) + 2 * |p.buffer|
    + (if p.jobsClosed then 0 else 1) + (if p.resultsClosed then 0 else 1)
  }

  lemma StepDecreases(p: Pool, s: Step)
    requires Enabled(p, s)
    ensures Remaining(Apply(p, s)) < Remaining(p)
  {
    match s
    case Hand(w) => WeightsUpdate(p.workers, w, Reading(p.next));
    case Deliver(w) => WeightsUpdate(p.workers, w, Idle);
    case Exit(w) => WeightsUpdate(p.workers, w, Done);
    case _ =>
  }

  // No schedule runs for ever.
  lemma {:induction false} RunsEnd(p: Pool, steps: seq<Step>, q: Pool)
    requires Consistent(p) && Run(p, steps, q)
    ensures |steps| <= Remaining(p)
    decreases |steps|
  {
    if steps == [] {
    } else {
      StepDecreases(p, steps[0]);
      StepConsistent(p, steps[0]);
      RunsEnd(Apply(p, steps[0]), steps[1..], q);
    }
  }

  // The caller's range loop ends: the channel is closed and drained.
  predicate Finished(p: Pool) {
    p.resultsClosed && p.buffer == []
  }

  // A schedule can only stop when the caller's loop has ended.
  lemma Progress(p: Pool)
    requires Consistent(p) && forall s :: !Enabled(p, s)
    ensures Finished(p)
  {
    assert !Enabled(p, Receive) && !Enabled(p, CloseJobs) && !Enabled(p, CloseResults);
    forall w | 0 <= w < |p.workers| ensures p.workers[w].Done? {
      assert !Enabled(p, Hand(w)) && !Enabled(p, Deliver(w)) && !Enabled(p, Exit(w));
    }
  }

  // On every schedule: no send hits the closed channel, and when the loop ends
  // each source has yielded exactly one result.
  lemma EverySourceOnce(sources: nat, steps: seq<Step>, q: Pool)
    requires Run(Start(sources), steps, q)
    ensures forall w :: Enabled(q, Deliver(w)) ==> !q.resultsClosed
    ensures Finished(q) ==> multiset(q.received) == Below(sources) && |q.received| == sources
  {
    StartConsistent(sources);
    RunConsistent(Start(sources), steps, q);
    if Finished(q) { ReceivedAll(q); }
  }

  lemma ReceivedAll(q: Pool)
    requires Consistent(q) && Finished(q)
    ensures multiset(q.received) == Below(q.sources) && |q.received| == q.sources
  {
    assert q.sources > 0 ==> q.workers[0].Done?;
    assert q.next == q.sources;
    BelowSize(q.sources);
    forall i: nat ensures multiset(q.received)[i] == Below(q.sources)[i] {
      NothingHeld(q.workers, i);
      BelowHas(q.sources, i);
      assert Copies(q, i) == if i < q.sources then 1 else 0;
    }
    assert |q.received| == |multiset(q.received)|;
  }

  lemma {:induction false} BelowHas(n: nat, i: nat)
    ensures Below(n)[i] == if i < n then 1 else 0
  {
    if n == 0 {
    } else {
      BelowHas(n - 1, i);
    }
  }

  lemma {:induction false} BelowSize(n: nat)
    ensures |Below(n)| == n
  {
    if n == 0 {
    } else {
      BelowSize(n - 1);
      assert Below(n) == Below(n - 1) + multiset{n - 1};
    }
  }

  // ---------- which completion orders there are ----------

  function Busy(workers: seq<Worker>): nat {
    if workers == [] then 0 else (if workers[0].Reading? then 1 else 0) + Busy(workers[1..])
  }

  lemma {:induction false} BusyUpdate(workers: seq<Worker>, w: nat, x: Worker)
    requires w < |workers|
    ensures Busy(workers[w := x]) + (if workers[w].Reading? then 1 else 0) ==
      Busy(workers) + (if x.Reading? then 1 else 0)
  {
    if w == 0 {
      assert workers[w := x][1..] == workers[1..];
    } else {
      BusyUpdate(workers[1..], w - 1, x);
      assert workers[w := x][1..] == workers[1..][w - 1 := x];
    }
  }

  lemma {:induction false} BusyBound(workers: seq<Worker>)
    ensures Busy(workers) <= |workers|
  {
    if workers == [] {
    } else {
      BusyBound(workers[1..]);
    }
  }

  lemma {:induction false} HeldAt(workers: seq<Worker>, w: nat)
    requires w < |workers| && workers[w].Reading?
    ensures Held(workers, workers[w].source) >= 1
  {
    if w == 0 {
    } else {
      HeldAt(workers[1..], w - 1);
    }
  }

  lemma {:induction false} Holder(workers: seq<Worker>, source: nat) returns (w: nat)
    requires Held(workers, source) >= 1
    ensures w < |workers| && workers[w] == Reading(source)
  {
    if workers[0] == Reading(source) {
      w := 0;
    } else {
      var v := Holder(workers[1..], source);
      w := v + 1;
    }
  }

  // No source is answered more than a pool's width ahead of its turn.
  ghost predicate InWindow(order: seq<nat>, width: nat) {
    forall k | 0 <= k < |order| :: order[k] < k + width
  }

  function Width(sources: nat): nat {
    if sources < MAX_CONCURRENCY then sources else MAX_CONCURRENCY
  }

  ghost predicate Windowed(p: Pool) {
    InWindow(p.received + p.buffer, |p.workers|) && p.next == |p.received| + |p.buffer| + Busy(p.workers)
  }

  lemma StepWindowed(p: Pool, s: Step)
    requires Consistent(p) && Windowed(p) && Enabled(p, s)
    ensures Windowed(Apply(p, s))
  {
    match s
    case Hand(w) => BusyUpdate(p.workers, w, Reading(p.next));
    case Exit(w) => BusyUpdate(p.workers, w, Done);
    case Receive => assert Apply(p, s).received + Apply(p, s).buffer == p.received + p.buffer;
    case Deliver(w) => DeliverWindowed(p, w);
    case _ =>
  }

  lemma DeliverWindowed(p: Pool, w: nat)
    requires Consistent(p) && Windowed(p) && Enabled(p, Deliver(w))
    ensures Windowed(Apply(p, Deliver(w)))
  {
    var source, log, q := p.workers[w].source, p.received + p.buffer, Apply(p, Deliver(w));
    BusyUpdate(p.workers, w, Idle);
    assert source < |log| + |p.workers| by {
      BusyBound(p.workers);
      HeldAt(p.workers, w);
      assert Copies(p, source) == if source < p.next then 1 else 0;
    }
    Regroup(p.received, p.buffer, [source]);
    assert q.received + q.buffer == log + [source];
  }

  lemma {:induction false} RunWindowed(p: Pool, steps: seq<Step>, q: Pool)
    requires Consistent(p) && Windowed(p) && Run(p, steps, q)
    ensures Windowed(q)
    decreases |steps|
  {
    if steps == [] {
    } else {
      StepWindowed(p, steps[0]);
      StepConsistent(p, steps[0]);
      RunWindowed(Apply(p, steps[0]), steps[1..], q);
    }
  }

  lemma {:induction false} NoneBusy(workers: seq<Worker>)
    requires forall w | 0 <= w < |workers| :: !workers[w].Reading?
    ensures Busy(workers) == 0
  {
    if workers == [] {
    } else {
      NoneBusy(workers[1..]);
    }
  }

  lemma {:induction false} RunAppend(p: Pool, steps: seq<Step>, q: Pool, s: Step)
    requires Run(p, steps, q) && Enabled(q, s)
    ensures Run(p, steps + [s], Apply(q, s))
    decreases |steps|
  {
    if steps == [] {
      assert [s][1..] == [];
    } else {
      RunAppend(Apply(p, steps[0]), steps[1..], q, s);
      assert (steps + [s])[1..] == steps[1..] + [s];
    }
  }

  // All workers busy with the first sources.
  lemma {:induction false} HandFirst(sources: nat, i: nat) returns (steps: seq<Step>, q: Pool)
    requires i <= Width(sources)
    ensures Run(Start(sources), steps, q) && q.next == i && q.received == q.buffer == [] && !q.jobsClosed &&
      !q.resultsClosed
    ensures |q.workers| == Width(sources) && q.sources == sources
    ensures forall w | 0 <= w < |q.workers| :: q.workers[w] == if w < i then Reading(w) else Idle
  {
    if i == 0 {
      steps, q := [], Start(sources);
    } else {
      steps, q := HandFirst(sources, i - 1);
      RunAppend(Start(sources), steps, q, Hand(i - 1));
      steps, q := steps + [Hand(i - 1)], Apply(q, Hand(i - 1));
    }
  }

  // A pool that has delivered the first `i` of `order`, with every further source handed out that can be.
  ghost predicate At(q: Pool, sources: nat, order: seq<nat>, i: nat) {
    && i <= |order| && Consistent(q) && q.sources == sources && q.received == order[..i] && q.buffer == []
    && !q.jobsClosed && !q.resultsClosed
    && q.next == if sources < i + Width(sources) then sources else i + Width(sources)
  }

  ghost predicate Possible(sources: nat, order: seq<nat>) {
    multiset(order) == Below(sources) && InWindow(order, Width(sources))
  }

  lemma CountsBefore<T>(s: seq<T>, k: nat)
    requires k < |s|
    ensures multiset(s)[s[k]] >= multiset(s[..k])[s[k]] + 1
  {
    assert s == s[..k] + ([s[k]] + s[k + 1..]);
    assert multiset(s) == multiset(s[..k]) + multiset([s[k]] + s[k + 1..]);
  }

  lemma PossibleSize(sources: nat, order: seq<nat>)
    requires multiset(order) == Below(sources)
    ensures |order| == sources && forall k | 0 <= k < |order| :: order[k] < sources && order[k] !in order[..k]
  {
    BelowSize(sources);
    assert |order| == |multiset(order)|;
    forall k | 0 <= k < |order| ensures order[k] < sources && order[k] !in order[..k] {
      assert order[k] in multiset(order);
      BelowHas(sources, order[k]);
      CountsBefore(order, k);
    }
  }

  lemma DeliverNext(q: Pool, sources: nat, order: seq<nat>, i: nat) returns (w: nat)
    requires Possible(sources, order) && At(q, sources, order, i) && i < sources
    ensures i < |order| && Enabled(q, Deliver(w)) && q.workers[w] == Reading(order[i])
  {
    PossibleSize(sources, order);
    assert Copies(q, order[i]) == 1;
    assert multiset(q.received)[order[i]] == 0;
    w := Holder(q.workers, order[i]);
  }

  lemma {:induction false} Schedule(sources: nat, order: seq<nat>, i: nat) returns (steps: seq<Step>, q: Pool)
    requires Possible(sources, order) && i <= sources
    ensures Run(Start(sources), steps, q) && At(q, sources, order, i)
  {
    PossibleSize(sources, order);
    var p := Start(sources);
    StartConsistent(sources);
    if i == 0 {
      steps, q := HandFirst(sources, Width(sources));
      RunConsistent(p, steps, q);
    } else {
      steps, q := Schedule(sources, order, i - 1);
      steps, q := OneRound(sources, order, i - 1, steps, q);
    }
  }

  // The next source of the order is delivered and received; its worker takes another one.
  lemma OneRound(sources: nat, order: seq<nat>, i: nat, steps: seq<Step>, q: Pool) returns (steps': seq<Step>, q': Pool)
    requires Possible(sources, order) && i < sources && Run(Start(sources), steps, q) && At(q, sources, order, i)
    ensures Run(Start(sources), steps', q') && At(q', sources, order, i + 1)
  {
    var p := Start(sources);
    var w := DeliverNext(q, sources, order, i);
    steps', q' := Then(p, steps, q, Deliver(w));
    steps', q' := Then(p, steps', q', Receive);
    assert order[..i + 1] == order[..i] + [order[i]];
    if q'.next < sources { steps', q' := Then(p, steps', q', Hand(w)); }
    StartConsistent(sources);
    RunConsistent(p, steps', q');
  }

  lemma Then(p: Pool, steps: seq<Step>, q: Pool, s: Step) returns (steps': seq<Step>, q': Pool)
    requires Run(p, steps, q) && Enabled(q, s)
    ensures q' == Apply(q, s) && Run(p, steps', q')
  {
    RunAppend(p, steps, q, s);
    steps', q' := steps + [s], Apply(q, s);
  }

  // The workers leave one by one, then the channel closes.
  lemma {:induction false} Leave(p: Pool, steps: seq<Step>, q: Pool, i: nat) returns (steps': seq<Step>, q': Pool)
    requires Run(p, steps, q) && q.jobsClosed && i <= |q.workers|
    requires forall w | 0 <= w < |q.workers| :: q.workers[w] == if w < i then Done else Idle
    ensures Run(p, steps', q') && q'.received == q.received && q'.buffer == q.buffer &&
      q'.resultsClosed == q.resultsClosed
    ensures |q'.workers| == |q.workers| && forall w | 0 <= w < |q'.workers| :: q'.workers[w].Done?
    decreases |q.workers| - i
  {
    if i == |q.workers| {
      steps', q' := steps, q;
    } else {
      steps', q' := Then(p, steps, q, Exit(i));
      steps', q' := Leave(p, steps', q', i + 1);
    }
  }

  ghost predicate Completes(sources: nat, order: seq<nat>) {
    exists steps, q :: Run(Start(sources), steps, q) && Finished(q) && q.received == order
  }

  lemma AllIdle(q: Pool, sources: nat, order: seq<nat>)
    requires Possible(sources, order) && At(q, sources, order, sources)
    ensures forall w | 0 <= w < |q.workers| :: q.workers[w].Idle?
  {
    forall w | 0 <= w < |q.workers| ensures q.workers[w].Idle? {
      if q.workers[w].Reading? {
        NothingLeft(q, sources, order, q.workers[w].source);
        HeldAt(q.workers, w);
      }
    }
  }

  lemma NothingLeft(q: Pool, sources: nat, order: seq<nat>, source: nat)
    requires Possible(sources, order) && At(q, sources, order, sources)
    ensures Held(q.workers, source) == 0
  {
    PossibleSize(sources, order);
    BelowHas(sources, source);
    assert order[..sources] == order;
    assert Copies(q, source) == if source < sources then 1 else 0;
  }

  lemma CompletedIsPossible(sources: nat, steps: seq<Step>, q: Pool)
    requires Run(Start(sources), steps, q) && Finished(q)
    ensures Possible(sources, q.received)
  {
    EverySourceOnce(sources, steps, q);
    StartConsistent(sources);
    NoneBusy(Start(sources).workers);
    RunWindowed(Start(sources), steps, q);
    RunConsistent(Start(sources), steps, q);
    assert q.received + q.buffer == q.received;
  }

  lemma PossibleIsCompleted(sources: nat, order: seq<nat>)
    requires Possible(sources, order)
    ensures Completes(sources, order)
  {
    var p := Start(sources);
    PossibleSize(sources, order);
    var steps, q := Schedule(sources, order, sources);
    AllIdle(q, sources, order);
    steps, q := Then(p, steps, q, CloseJobs);
    steps, q := Leave(p, steps, q, 0);
    steps, q := Then(p, steps, q, CloseResults);
    assert order[..sources] == order;
  }

  // The orders in which a pool completes its sources: the permutations that stay in its window.
  lemma CompletionOrders(sources: nat, order: seq<nat>)
    ensures Completes(sources, order) <==> multiset(order) == Below(sources) && InWindow(order, Width(sources))
  {
    if Completes(sources, order) {
      var steps, q :| Run(Start(sources), steps, q) && Finished(q) && q.received == order;
      CompletedIsPossible(sources, steps, q);
    }
    if Possible(sources, order) { PossibleIsCompleted(sources, order); }
  }

  // ---------- the page over all schedules ----------

  function ResultsOf(order: seq<nat>, read: nat -> ReadResult): seq<ReadResult> {
    seq(|order|, i requires 0 <= i < |order| => read(order[i]))
  }

  // The sources in the order in which they were resolved.
  function Upto(n: nat): (r: seq<nat>)
    ensures |r| == n && forall i | 0 <= i < n :: r[i] == i
  {
    if n == 0 then [] else Upto(n - 1) + [n - 1]
  }

  lemma {:induction false} UptoBelow(n: nat)
    ensures multiset(Upto(n)) == Below(n)
  {
    if n == 0 {
    } else {
      UptoBelow(n - 1);
    }
  }

  lemma TakeOut(order: seq<nat>, k: nat, read: nat -> ReadResult)
    requires k < |order|
    ensures var rest := order[..k] + order[k + 1..];
      && multiset(order) == multiset(rest) + multiset{order[k]}
      && multiset(ResultsOf(order, read)) == multiset(ResultsOf(rest, read)) + multiset{read(order[k])}
  {
    var rs := ResultsOf(order, read);
    assert order == order[..k] + [order[k]] + order[k + 1..];
    assert rs == rs[..k] + [rs[k]] + rs[k + 1..];
    assert ResultsOf(order[..k] + order[k + 1..], read) == rs[..k] + rs[k + 1..];
  }

  // The same sources in another order give the same results in another order.
  lemma {:induction false} ResultsReorder(order: seq<nat>, other: seq<nat>, read: nat -> ReadResult)
    requires multiset(order) == multiset(other)
    ensures Reorders(ResultsOf(order, read), ResultsOf(other, read))
    decreases |order|
  {
    assert |order| == |multiset(order)| == |multiset(other)| == |other|;
    if order == [] {
    } else {
      assert order[0] in multiset(other);
      var k :| 0 <= k < |other| && other[k] == order[0];
      TakeOut(order, 0, read);
      TakeOut(other, k, read);
      var rest, rest' := order[..0] + order[1..], other[..k] + other[k + 1..];
      Cancel(multiset(rest), multiset(rest'), order[0]);
      ResultsReorder(rest, rest', read);
    }
  }

  lemma Cancel(a: multiset<nat>, b: multiset<nat>, x: nat)
    requires a + multiset{x} == b + multiset{x}
    ensures a == b
  {
    assert a == (a + multiset{x}) - multiset{x} && b == (b + multiset{x}) - multiset{x};
  }

  // Two sources can always come last, in either order: three workers keep the others moving.
  lemma LastTwo(sources: nat, i: nat, j: nat, read: nat -> ReadResult) returns (order: seq<nat>)
    requires i < sources && j < sources && i != j
    ensures Completes(sources, order) && EndsWith(ResultsOf(order, read), ResultsOf(Upto(sources), read), [i, j])
  {
    order := TwoLast(sources, i, j);
    CompletionOrders(sources, order);
    UptoBelow(sources);
    ResultsReorder(order, Upto(sources), read);
    var rs, n := ResultsOf(order, read), |order|;
    assert rs[n - 2] == read(order[n - 2]) && rs[n - 1] == read(order[n - 1]);
  }

  lemma TwoLast(sources: nat, i: nat, j: nat) returns (order: seq<nat>)
    requires i < sources && j < sources && i != j
    ensures Possible(sources, order) && |order| == sources && order[sources - 2] == i && order[sources - 1] == j
  {
    var l, h := if i < j then i else j, if i < j then j else i;
    var rest := WithoutPair(Upto(sources), l, h);
    WithoutPairPermutes(Upto(sources), l, h);
    UptoBelow(sources);
    WithoutTwo(sources, l, h);
    AddTwo(sources, rest, i, j);
    order := rest + [i, j];
  }

  lemma AddTwo(sources: nat, rest: seq<nat>, i: nat, j: nat)
    requires i < sources && j < sources && i != j && |rest| == sources - 2
    requires multiset(rest) + multiset{i, j} == Below(sources)
    requires forall k | 0 <= k < |rest| :: rest[k] <= k + 2
    ensures Possible(sources, rest + [i, j])
  {
    assert multiset([i, j]) == multiset{i, j};
    assert multiset(rest + [i, j]) == multiset(rest) + multiset([i, j]);
  }

  // Leaving out two moves the others up by two places at most.
  lemma WithoutTwo(sources: nat, l: nat, h: nat)
    requires l < h < sources
    ensures forall k | 0 <= k < sources - 2 :: WithoutPair(Upto(sources), l, h)[k] <= k + 2
  {
    var s := Upto(sources);
    forall k | 0 <= k < sources - 2 ensures WithoutPair(s, l, h)[k] <= k + 2 {
      assert WithoutPair(s, l, h)[k] == if k < l then s[k] else if k < h - 1 then s[k + 1] else s[k + 2];
    }
  }

  ghost predicate SchedulesAgree(sources: nat, read: nat -> ReadResult, b: Paging) {
    forall o, p | Completes(sources, o) && Completes(sources, p) ::
      Merged(ResultsOf(o, read), b) == Merged(ResultsOf(p, read), b)
  }

  // Over all schedules of the pool, the page depends on the schedule unless no source can slip in;
  // it is then the page of one sort and one cut.
  lemma SchedulesAgreeIffOrderFree(sources: nat, read: nat -> ReadResult, b: Paging)
    requires WeakOrder(b.before) && TiesStayInSource(multiset(ResultsOf(Upto(sources), read)), b.before)
    ensures SchedulesAgree(sources, read, b) <==> OrderFree(ResultsOf(Upto(sources), read), b)
    ensures OrderFree(ResultsOf(Upto(sources), read), b) ==> forall o | Completes(sources, o) ::
      Merged(ResultsOf(o, read), b) == OneShot(Arrivals(ResultsOf(Upto(sources), read)), b)
  {
    var results := ResultsOf(Upto(sources), read);
    if OrderFree(results, b) {
      forall o | Completes(sources, o) ensures Merged(ResultsOf(o, read), b) == OneShot(Arrivals(results), b) {
        CompletionOrders(sources, o);
        UptoBelow(sources);
        ResultsReorder(o, Upto(sources), read);
        OrderFreePage(ResultsOf(o, read), results, b);
      }
    } else {
      var i, j := NotOrderFree(results, b);
      var o := LastTwo(sources, i, j, read);
      var p := LastTwo(sources, j, i, read);
      SlippedDelivery(ResultsOf(o, read), results, i, j, b);
      CutLastDelivery(ResultsOf(p, read), results, i, j, b);
    }
  }

  // ---------- the sources of a query ----------

  datatype Origin = Origin(namespace_: string, pod: string, container: string)

  ghost predicate Named(o: Origin) {
    '\0' !in o.namespace_ && '\0' !in o.pod && '\0' !in o.container
  }

  function OriginOf(e: LogEntry): Origin {
    Origin(e.namespace_, e.pod, e.container)
  }

  // Every source reads one container of its own, whose names hold no NUL.
  ghost predicate OwnContainers(sources: nat, read: nat -> ReadResult, origin: nat -> Origin) {
    && (forall i, e | 0 <= i < sources && e in Entries(read(i)) :: OriginOf(e) == origin(i) && Named(origin(i)))
    && (forall i, j | 0 <= i < j < sources :: origin(i) != origin(j))
  }

  // Entries that tie are of one container.
  lemma TiesAreOfOneContainer(l: LogEntry, r: LogEntry, forward: bool)
    requires Named(OriginOf(l)) && Named(OriginOf(r)) && Tie(l, r, EntryOrder(forward))
    ensures OriginOf(l) == OriginOf(r)
  {
    KeyIsFields(l, r);
    KeyIsFields(r, l);
    Strings.LessTrichotomy(l.namespace_, r.namespace_);
    Strings.LessTrichotomy(l.pod, r.pod);
    Strings.LessTrichotomy(l.container, r.container);
  }

  lemma SameSource(sources: nat, read: nat -> ReadResult, origin: nat -> Origin, i: nat, j: nat, e: LogEntry)
    requires OwnContainers(sources, read, origin) && i <= j < sources
    requires e in Entries(read(i)) && e in Entries(read(j))
    ensures i == j
  {
    assert OriginOf(e) == origin(i);
    assert OriginOf(e) == origin(j);
  }

  // So the entries of a query's sources meet what the theorem asks of them.
  lemma SourcesDoNotTie(sources: nat, read: nat -> ReadResult, origin: nat -> Origin, forward: bool)
    requires OwnContainers(sources, read, origin)
    ensures TiesStayInSource(multiset(ResultsOf(Upto(sources), read)), EntryOrder(forward))
  {
    var rs := ResultsOf(Upto(sources), read);
    forall r | Entries(r) != [] ensures multiset(rs)[r] <= 1 {
      if multiset(rs)[r] >= 2 {
        var i, j := TwoPlaces(rs, r);
        assert read(i) == rs[i] == r && read(j) == rs[j] == r;
        SameSource(sources, read, origin, i, j, Entries(r)[0]);
      }
    }
    forall r, q, x, y | r in multiset(rs) && q in multiset(rs) && x in Entries(r) && y in Entries(q) && r != q
      ensures !Tie(x, y, EntryOrder(forward))
    {
      var i :| 0 <= i < |rs| && rs[i] == r;
      var j :| 0 <= j < |rs| && rs[j] == q;
      assert OriginOf(x) == origin(i) && OriginOf(y) == origin(j) && i != j;
      if Tie(x, y, EntryOrder(forward)) { TiesAreOfOneContainer(x, y, forward); }
    }
  }

  // For the sources of a query, each a container of its own: all schedules give one page exactly when
  // no source can slip in.
  lemma QueriesAgree(sources: nat, read: nat -> ReadResult, origin: nat -> Origin, forward: bool, size: LogEntry -> nat,
                     requestedLimit: int)
    requires OwnContainers(sources, read, origin)
    ensures var b := Paging(EntryOrder(forward), size, EffectiveLimit(requestedLimit));
      && (SchedulesAgree(sources, read, b) <==> OrderFree(ResultsOf(Upto(sources), read), b))
      && (OrderFree(ResultsOf(Upto(sources), read), b) ==> forall o | Completes(sources, o) ::
        Merged(ResultsOf(o, read), b) == OneShot(Arrivals(ResultsOf(Upto(sources), read)), b))
  {
    EntryOrderIsWeak(forward);
    SourcesDoNotTie(sources, read, origin, forward);
    SchedulesAgreeIffOrderFree(sources, read, Paging(EntryOrder(forward), size, EffectiveLimit(requestedLimit)));
  }
}
