/**
 * One batch propagation: a feeder, a fixed number of workers, a closer and a collector over two
 * bounded channels, all of them racing with cancellation. Each action is one atomic step of one
 * goroutine; a run is any sequence of enabled actions.
 */
module WorkerPool {
  import opened Wrappers
  import opened Tle

  datatype Propagator = Propagator(handle: nat)
  datatype Motion = Motion(x: real, y: real, z: real, vx: real, vy: real, vz: real)
  datatype Position = Position(noradId: int, ecef: Motion)
  datatype Job = Job(entry: Entry, prop: Propagator)
  datatype Outcome = Success(position: Position) | Failure(noradId: int)

  /** `motion` is propagation to the batch's target time followed by the frame transform. */
  datatype Batch = Batch(entries: seq<Entry>, props: map<int, Propagator>,
                         motion: Propagator -> Option<Motion>, workers: nat)
  {
    function Capacity(): nat { workers * 2 }

    predicate HasJob(i: nat) requires i < |entries| { entries[i].noradId in props }

    function JobAt(i: nat): Job requires i < |entries| && HasJob(i) { Job(entries[i], props[entries[i].noradId]) }

    function Solve(job: Job): Outcome {
      match motion(job.prop)
      case Some(m) => Success(Position(job.entry.noradId, m))
      case None => Failure(job.entry.noradId)
    }

    /** What a plain loop over the first `n` entries would produce, in order. */
    function Sequential(n: nat): seq<Outcome>
      requires n <= |entries|
    {
      if n == 0 then []
      else Sequential(n - 1) + if HasJob(n - 1) then [Solve(JobAt(n - 1))] else []
    }

    /** How many of the given jobs will come out as `o`. */
    function Due(jobs: seq<Job>, o: Outcome): nat {
      if jobs == [] then 0 else (if Solve(jobs[0]) == o then 1 else 0) + Due(jobs[1..], o)
    }
  }

  datatype Feeder = Feeding | Returning | Stopped
  datatype Worker = Idle | Holding(result: Outcome) | Exited

  datatype State = State(
    next: nat, feeder: Feeder,
    jobs: seq<Job>, jobsClosed: bool,
    workers: seq<Worker>,
    results: seq<Outcome>, resultsClosed: bool, closerDone: bool,
    collecting: bool, collected: seq<Outcome>, positions: seq<Position>, successes: nat, errors: nat,
    cancelled: bool, dropped: multiset<Outcome>)

  datatype Action =
    | Cancel
    | FeedSkip | FeedSend | FeedAbandon | FeedReturn | FeedClose
    | Receive(i: nat) | Deliver(i: nat) | Abandon(i: nat) | Quit(i: nat)
    | CloseResults
    | Collect | Finish

  predicate WorkerMoves(a: Action) { a.Receive? || a.Deliver? || a.Abandon? || a.Quit? }

  function Init(b: Batch): State {
    State(0, Feeding, [], false, seq(b.workers, _ => Idle), [], false, false,
          true, [], [], 0, 0, false, multiset{})
  }

  predicate AllExited(ws: seq<Worker>) { forall i :: 0 <= i < |ws| ==> ws[i].Exited? }

  predicate AtJob(b: Batch, s: State) { s.feeder.Feeding? && s.next < |b.entries| && b.HasJob(s.next) }

  /** A channel operation is enabled when it would not block; a select takes any of its enabled cases. */
  predicate Enabled(b: Batch, s: State, a: Action) {
    match a
    case Cancel => !s.cancelled
    case FeedSkip => s.feeder.Feeding? && s.next < |b.entries| && !b.HasJob(s.next)
    case FeedSend => AtJob(b, s) && |s.jobs| < b.Capacity()
    case FeedAbandon => AtJob(b, s) && s.cancelled
    case FeedReturn => s.feeder.Feeding? && s.next >= |b.entries|
    case FeedClose => s.feeder.Returning?
    case Receive(i) => i < |s.workers| && s.workers[i].Idle? && s.jobs != []
    case Quit(i) => i < |s.workers| && s.workers[i].Idle? && s.jobs == [] && s.jobsClosed
    case Deliver(i) => i < |s.workers| && s.workers[i].Holding? && |s.results| < b.Capacity()
    case Abandon(i) => i < |s.workers| && s.workers[i].Holding? && s.cancelled
    case CloseResults => !s.closerDone && AllExited(s.workers)
    case Collect => s.collecting && s.results != []
    case Finish => s.collecting && s.results == [] && s.resultsClosed
  }

  function Apply(b: Batch, s: State, a: Action): State
    requires Enabled(b, s, a)
  {
    match a
    case Cancel => s.(cancelled := true)
    case FeedSkip => s.(next := s.next + 1)
    case FeedSend => s.(next := s.next + 1, jobs := s.jobs + [b.JobAt(s.next)])
    case FeedAbandon => s.(feeder := Returning)
    case FeedReturn => s.(feeder := Returning)
    case FeedClose => s.(feeder := Stopped, jobsClosed := true)
    case Receive(i) => s.(jobs := s.jobs[1..], workers := s.workers[i := Holding(b.Solve(s.jobs[0]))])
    case Quit(i) => s.(workers := s.workers[i := Exited])
    case Deliver(i) => s.(results := s.results + [s.workers[i].result], workers := s.workers[i := Idle])
    case Abandon(i) => s.(dropped := s.dropped + multiset{s.workers[i].result}, workers := s.workers[i := Exited])
    case CloseResults => s.(closerDone := true, resultsClosed := true)
    case Collect =>
      var r := s.results[0];
      var ok := if r.Success? then [r.position] else [];
      s.(results := s.results[1..], collected := s.collected + [r], positions := s.positions + ok,
         successes := s.successes + |ok|, errors := s.errors + 1 - |ok|)
    case Finish => s.(collecting := false)
  }

  function Run(b: Batch, s: State, acts: seq<Action>): Option<State>
    decreases |acts|
  {
    if acts == [] then Some(s)
    else if Enabled(b, s, acts[0]) then Run(b, Apply(b, s, acts[0]), acts[1..])
    else None
  }

  ghost predicate Reachable(b: Batch, s: State) {
    exists acts :: Run(b, Init(b), acts) == Some(s)
  }

  /** Every goroutine of the batch has ended. */
  predicate Final(s: State) {
    s.feeder.Stopped? && AllExited(s.workers) && s.closerDone && !s.collecting
  }

  // ---- the invariant ----

  function One(w: Worker, o: Outcome): nat {
    if w == Holding(o) then 1 else 0
  }

  function Held(ws: seq<Worker>, o: Outcome): nat {
    if ws == [] then 0 else One(ws[0], o) + Held(ws[1..], o)
  }

  function Count(rs: seq<Outcome>, o: Outcome): nat {
    if rs == [] then 0 else (if rs[0] == o then 1 else 0) + Count(rs[1..], o)
  }

  function Positions(rs: seq<Outcome>): seq<Position> {
    if rs == [] then []
    else Positions(rs[..|rs| - 1]) + if rs[|rs| - 1].Success? then [rs[|rs| - 1].position] else []
  }

  /** Everything fed is queued, held, delivered, collected, or dropped by a cancelled worker. */
  ghost predicate ConservedAt(b: Batch, s: State, o: Outcome) {
    s.next <= |b.entries| &&
    Count(b.Sequential(s.next), o) ==
      b.Due(s.jobs, o) + Held(s.workers, o) + Count(s.results, o) + Count(s.collected, o) + s.dropped[o]
  }

  ghost predicate Conserved(b: Batch, s: State) { forall o :: ConservedAt(b, s, o) }

  ghost predicate Shape(b: Batch, s: State) {
    && |s.workers| == b.workers && |s.jobs| <= b.Capacity() && |s.results| <= b.Capacity()
    && s.next <= |b.entries|
    && (s.jobsClosed <==> s.feeder.Stopped?)
    && (!s.feeder.Feeding? ==> s.next == |b.entries| || s.cancelled)
    && (s.closerDone <==> s.resultsClosed)
    && (s.resultsClosed ==> AllExited(s.workers))
    && (!s.collecting ==> s.resultsClosed && s.results == [])
    && (forall i :: 0 <= i < |s.workers| && s.workers[i].Exited? ==> s.cancelled || (s.jobsClosed && s.jobs == []))
    && (s.dropped != multiset{} ==> s.cancelled)
  }

  ghost predicate Counted(s: State) {
    s.positions == Positions(s.collected) && s.successes == |s.positions| && s.successes + s.errors == |s.collected|
  }

  ghost predicate Inv(b: Batch, s: State) { Shape(b, s) && Conserved(b, s) && Counted(s) }

  lemma {:induction false} HeldUpdate(ws: seq<Worker>, i: nat, w: Worker, o: Outcome)
    requires i < |ws|
    ensures Held(ws[i := w], o) == Held(ws, o) - One(ws[i], o) + One(w, o)
  {
    if i == 0 {
      assert ws[i := w][1..] == ws[1..];
    } else {
      HeldUpdate(ws[1..], i - 1, w, o);
      assert ws[i := w][1..] == ws[1..][i - 1 := w];
    }
  }

  lemma {:induction false} IdleHoldNothing(ws: seq<Worker>, o: Outcome)
    requires forall i :: 0 <= i < |ws| ==> !ws[i].Holding?
    ensures Held(ws, o) == 0
  {
    if ws != [] { IdleHoldNothing(ws[1..], o); }
  }

  lemma {:induction false} DueAppend(b: Batch, jobs: seq<Job>, job: Job, o: Outcome)
    ensures b.Due(jobs + [job], o) == b.Due(jobs, o) + if b.Solve(job) == o then 1 else 0
  {
    if jobs == [] {
    } else {
      DueAppend(b, jobs[1..], job, o);
      assert (jobs + [job])[1..] == jobs[1..] + [job];
    }
  }

  lemma {:induction false} CountAppend(rs: seq<Outcome>, r: Outcome, o: Outcome)
    ensures Count(rs + [r], o) == Count(rs, o) + if r == o then 1 else 0
  {
    if rs == [] {
    } else {
      CountAppend(rs[1..], r, o);
      assert (rs + [r])[1..] == rs[1..] + [r];
    }
  }

  lemma {:induction false} CountIsMultiplicity(rs: seq<Outcome>, o: Outcome)
    ensures Count(rs, o) == multiset(rs)[o]
  {
    if rs != [] {
      CountIsMultiplicity(rs[1..], o);
      assert rs == [rs[0]] + rs[1..];
    }
  }

  lemma FeederConserves(b: Batch, s: State, a: Action, o: Outcome)
    requires a.FeedSend? || a.FeedSkip?
    requires ConservedAt(b, s, o) && Enabled(b, s, a)
    ensures ConservedAt(b, Apply(b, s, a), o)
  {
    if a.FeedSend? {
      DueAppend(b, s.jobs, b.JobAt(s.next), o);
      CountAppend(b.Sequential(s.next), b.Solve(b.JobAt(s.next)), o);
      assert b.Sequential(s.next + 1) == b.Sequential(s.next) + [b.Solve(b.JobAt(s.next))];
    } else {
      assert b.Sequential(s.next + 1) == b.Sequential(s.next);
    }
  }

  lemma WorkerConserves(b: Batch, s: State, a: Action, o: Outcome)
    requires WorkerMoves(a)
    requires ConservedAt(b, s, o) && Enabled(b, s, a)
    ensures ConservedAt(b, Apply(b, s, a), o)
  {
    var w := Apply(b, s, a).workers[a.i];
    HeldUpdate(s.workers, a.i, w, o);
    assert Apply(b, s, a).workers == s.workers[a.i := w];
    if a.Deliver? { CountAppend(s.results, s.workers[a.i].result, o); }
  }

  lemma CollectorConserves(b: Batch, s: State, a: Action, o: Outcome)
    requires a.Collect?
    requires ConservedAt(b, s, o) && Enabled(b, s, a)
    ensures ConservedAt(b, Apply(b, s, a), o)
  {
    CountAppend(s.collected, s.results[0], o);
    assert Count(s.results, o) == (if s.results[0] == o then 1 else 0) + Count(s.results[1..], o);
  }

  lemma ConservedStep(b: Batch, s: State, a: Action, o: Outcome)
    requires ConservedAt(b, s, o) && Enabled(b, s, a)
    ensures ConservedAt(b, Apply(b, s, a), o)
  {
    match a
    case FeedSend | FeedSkip => FeederConserves(b, s, a, o);
    case Receive(_) | Deliver(_) | Abandon(_) | Quit(_) => WorkerConserves(b, s, a, o);
    case Collect => CollectorConserves(b, s, a, o);
    case _ => OthersConserve(b, s, a, o);
  }

  lemma OthersConserve(b: Batch, s: State, a: Action, o: Outcome)
    requires a.Cancel? || a.FeedAbandon? || a.FeedReturn? || a.FeedClose? || a.CloseResults? || a.Finish?
    requires ConservedAt(b, s, o) && Enabled(b, s, a)
    ensures ConservedAt(b, Apply(b, s, a), o)
  {
  }

  lemma ShapeWhenWorkerMoves(b: Batch, s: State, a: Action)
    requires Shape(b, s) && Enabled(b, s, a) && WorkerMoves(a)
    ensures Shape(b, Apply(b, s, a))
  {
  }

  lemma ShapeWhenOtherMoves(b: Batch, s: State, a: Action)
    requires Shape(b, s) && Enabled(b, s, a) && !WorkerMoves(a)
    ensures Shape(b, Apply(b, s, a))
  {
    assert Apply(b, s, a).workers == s.workers;
  }

  lemma ShapeStep(b: Batch, s: State, a: Action)
    requires Shape(b, s) && Enabled(b, s, a)
    ensures Shape(b, Apply(b, s, a))
  {
    if WorkerMoves(a) { ShapeWhenWorkerMoves(b, s, a); } else { ShapeWhenOtherMoves(b, s, a); }
  }

  lemma PositionsAppend(rs: seq<Outcome>, r: Outcome)
    ensures Positions(rs + [r]) == Positions(rs) + if r.Success? then [r.position] else []
  {
    assert (rs + [r])[..|rs|] == rs;
  }

  lemma CollectCounts(b: Batch, s: State)
    requires Counted(s) && Enabled(b, s, Collect)
    ensures Counted(Apply(b, s, Collect))
  {
    PositionsAppend(s.collected, s.results[0]);
  }

  lemma CountedStep(b: Batch, s: State, a: Action)
    requires Counted(s) && Enabled(b, s, a)
    ensures Counted(Apply(b, s, a))
  {
    if a.Collect? {
      CollectCounts(b, s);
    } else {
      var s' := Apply(b, s, a);
      assert s'.collected == s.collected && s'.positions == s.positions;
      assert s'.successes == s.successes && s'.errors == s.errors;
    }
  }

  lemma InitInv(b: Batch)
    ensures Inv(b, Init(b))
  {
    forall o ensures ConservedAt(b, Init(b), o) {
      IdleHoldNothing(Init(b).workers, o);
    }
  }

  lemma InvStep(b: Batch, s: State, a: Action)
    requires Inv(b, s) && Enabled(b, s, a)
    ensures Inv(b, Apply(b, s, a))
  {
    forall o ensures ConservedAt(b, Apply(b, s, a), o) {
      ConservedStep(b, s, a, o);
    }
    ShapeStep(b, s, a);
    CountedStep(b, s, a);
  }

  lemma {:induction false} InvRun(b: Batch, s: State, acts: seq<Action>)
    requires Inv(b, s) && Run(b, s, acts).Some?
    ensures Inv(b, Run(b, s, acts).value)
    decreases |acts|
  {
    if acts != [] {
      InvStep(b, s, acts[0]);
      InvRun(b, Apply(b, s, acts[0]), acts[1..]);
    }
  }

  lemma ReachableInv(b: Batch, s: State)
    requires Reachable(b, s)
    ensures Inv(b, s)
  {
    var acts :| Run(b, Init(b), acts) == Some(s);
    InitInv(b);
    InvRun(b, Init(b), acts);
  }

  // ---- main results ----

  /** No goroutine sends on or closes a channel that is already closed. */
  lemma NoPanic(b: Batch, s: State)
    requires Reachable(b, s)
    ensures AtJob(b, s) || s.feeder.Returning? ==> !s.jobsClosed
    ensures (exists i :: 0 <= i < |s.workers| && s.workers[i].Holding?) ==> !s.resultsClosed
    ensures !s.closerDone ==> !s.resultsClosed
  {
    ReachableInv(b, s);
  }

  lemma OneMoreIndex(b: Batch, n: nat)
    requires 0 < n <= |b.entries|
    ensures |set i: nat | i < n && b.HasJob(i)| ==
            |set i: nat | i < n - 1 && b.HasJob(i)| + if b.HasJob(n - 1) then 1 else 0
  {
    var jobs, fewer := set i: nat | i < n && b.HasJob(i), set i: nat | i < n - 1 && b.HasJob(i);
    assert jobs == if b.HasJob(n - 1) then fewer + {n - 1} else fewer;
  }

  lemma {:induction false} SequentialCounts(b: Batch, n: nat)
    requires n <= |b.entries|
    ensures |b.Sequential(n)| == |set i: nat | i < n && b.HasJob(i)|
  {
    if n > 0 {
      SequentialCounts(b, n - 1);
      OneMoreIndex(b, n);
    }
  }

  lemma {:induction false} PositionsMultiset(xs: seq<Outcome>, ys: seq<Outcome>)
    requires multiset(xs) == multiset(ys)
    ensures multiset(Positions(xs)) == multiset(Positions(ys))
  {
    forall p ensures multiset(Positions(xs))[p] == multiset(Positions(ys))[p] {
      PositionsCount(xs, p);
      PositionsCount(ys, p);
    }
  }

  lemma {:induction false} PositionsCount(xs: seq<Outcome>, p: Position)
    ensures multiset(Positions(xs))[p] == multiset(xs)[Success(p)]
  {
    if xs != [] {
      PositionsCount(xs[..|xs| - 1], p);
      assert xs == xs[..|xs| - 1] + [xs[|xs| - 1]];
    }
  }

  /**
   * When the collector returns, an uncancelled batch has collected a permutation of what the plain
   * loop produces, so its positions are a permutation of the plain loop's, and the counts add up to
   * the number of entries with a propagator. A cancelled batch invents nothing.
   */
  lemma BatchIsSequential(b: Batch, s: State)
    requires b.workers > 0 && Reachable(b, s) && !s.collecting
    ensures var all := b.Sequential(|b.entries|);
            && s.successes == |s.positions|
            && multiset(s.collected) <= multiset(all)
            && (!s.cancelled ==>
                  && multiset(s.collected) == multiset(all)
                  && multiset(s.positions) == multiset(Positions(all))
                  && s.successes + s.errors == |set i: nat | i < |b.entries| && b.HasJob(i)|)
  {
    ReachableInv(b, s);
    var all := b.Sequential(|b.entries|);
    SequentialGrows(b, s.next, |b.entries|);
    forall o ensures multiset(s.collected)[o] <= multiset(all)[o]
                     && (!s.cancelled ==> multiset(s.collected)[o] == multiset(all)[o])
    {
      assert ConservedAt(b, s, o) && s.workers[0].Exited?;
      if !s.cancelled { IdleHoldNothing(s.workers, o); }
      CountIsMultiplicity(s.collected, o);
      CountIsMultiplicity(b.Sequential(s.next), o);
    }
    if !s.cancelled {
      PositionsMultiset(s.collected, all);
      SequentialCounts(b, |b.entries|);
      assert |multiset(s.collected)| == |s.collected| && |multiset(all)| == |all|;
    }
  }

  lemma {:induction false} SequentialExtends(b: Batch, m: nat, n: nat)
    requires m <= n <= |b.entries|
    ensures b.Sequential(m) <= b.Sequential(n)
  {
    if m < n { SequentialExtends(b, m, n - 1); }
  }

  lemma SequentialGrows(b: Batch, m: nat, n: nat)
    requires m <= n <= |b.entries|
    ensures b.Sequential(m) <= b.Sequential(n)
    ensures multiset(b.Sequential(m)) <= multiset(b.Sequential(n))
  {
    SequentialExtends(b, m, n);
    var xs, ys := b.Sequential(m), b.Sequential(n);
    assert ys == xs + ys[|xs|..];
  }

  // ---- liveness ----

  function Weight(w: Worker): nat {
    match w
    case Idle => 1
    case Holding(_) => 3
    case Exited => 0
  }

  function Weights(ws: seq<Worker>): nat {
    if ws == [] then 0 else Weight(ws[0]) + Weights(ws[1..])
  }

  lemma {:induction false} WeightsUpdate(ws: seq<Worker>, i: nat, w: Worker)
    requires i < |ws|
    ensures Weights(ws[i := w]) == Weights(ws) - Weight(ws[i]) + Weight(w)
  {
    if i == 0 {
      assert ws[i := w][1..] == ws[1..];
    } else {
      WeightsUpdate(ws[1..], i - 1, w);
      assert ws[i := w][1..] == ws[1..][i - 1 := w];
    }
  }

  /** Work left: an upper bound on the number of steps the batch can still take. */
  function Left(b: Batch, s: State): int {
    4 * (|b.entries| - s.next) + 3 * |s.jobs| + Weights(s.workers) + |s.results|
    + (match s.feeder case Feeding => 2 case Returning => 1 case Stopped => 0)
    + (if s.closerDone then 0 else 1) + (if s.collecting then 1 else 0) + (if s.cancelled then 0 else 1)
  }

  lemma WorkerUsesWork(b: Batch, s: State, a: Action)
    requires WorkerMoves(a)
    requires Enabled(b, s, a)
    ensures Left(b, Apply(b, s, a)) < Left(b, s)
  {
    var w := Apply(b, s, a).workers[a.i];
    WeightsUpdate(s.workers, a.i, w);
    assert Apply(b, s, a).workers == s.workers[a.i := w];
  }

  /** Every step, cancellation included, uses up work; so a run takes at most `Left` of its start steps. */
  lemma StepUsesWork(b: Batch, s: State, a: Action)
    requires Shape(b, s) && Enabled(b, s, a)
    ensures 0 <= Left(b, Apply(b, s, a)) < Left(b, s)
  {
    ShapeStep(b, s, a);
    if WorkerMoves(a) { WorkerUsesWork(b, s, a); } else { OthersUseWork(b, s, a); }
  }

  lemma OthersUseWork(b: Batch, s: State, a: Action)
    requires !WorkerMoves(a)
    requires Enabled(b, s, a)
    ensures Left(b, Apply(b, s, a)) < Left(b, s)
  {
  }

  lemma {:induction false} RunsAreBounded(b: Batch, s: State, acts: seq<Action>)
    requires Inv(b, s) && Run(b, s, acts).Some?
    ensures |acts| <= Left(b, s)
    decreases |acts|
  {
    if acts != [] {
      StepUsesWork(b, s, acts[0]);
      InvStep(b, s, acts[0]);
      RunsAreBounded(b, Apply(b, s, acts[0]), acts[1..]);
    }
  }

  /** Some step other than a fresh cancellation is possible. */
  ghost predicate CanStep(b: Batch, s: State) {
    exists a :: a != Cancel && Enabled(b, s, a)
  }

  lemma WorkersCanStep(b: Batch, s: State, i: nat)
    requires Inv(b, s) && i < |s.workers| && !s.workers[i].Exited?
    requires s.jobs != [] || s.workers[i].Holding?
    ensures CanStep(b, s)
  {
    if s.workers[i].Idle? {
      assert Enabled(b, s, Receive(i));
    } else if s.results == [] {
      assert Enabled(b, s, Deliver(i));
    } else {
      assert Enabled(b, s, Collect);
    }
  }

  lemma FeederCanStep(b: Batch, s: State)
    requires !s.feeder.Stopped? && (AtJob(b, s) ==> s.cancelled || |s.jobs| < b.Capacity())
    ensures CanStep(b, s)
  {
    if s.feeder.Returning? {
      assert Enabled(b, s, FeedClose);
    } else if !AtJob(b, s) {
      assert Enabled(b, s, if s.next < |b.entries| then FeedSkip else FeedReturn);
    } else {
      assert Enabled(b, s, if s.cancelled then FeedAbandon else FeedSend);
    }
  }

  /** A feeder at a job has a worker to feed. */
  lemma JobsNeedWorkers(b: Batch, s: State)
    requires AtJob(b, s) && (b.workers > 0 || b.Sequential(|b.entries|) == [])
    ensures b.workers > 0
  {
    SequentialGrows(b, s.next + 1, |b.entries|);
  }

  lemma LiveWorkersCanStep(b: Batch, s: State)
    requires Inv(b, s) && s.feeder.Stopped? && !AllExited(s.workers)
    ensures CanStep(b, s)
  {
    var i :| 0 <= i < |s.workers| && !s.workers[i].Exited?;
    if s.jobs == [] && s.workers[i].Idle? { assert Enabled(b, s, Quit(i)); } else { WorkersCanStep(b, s, i); }
  }

  lemma CollectorCanStep(b: Batch, s: State)
    requires Inv(b, s) && AllExited(s.workers) && !(s.closerDone && !s.collecting)
    ensures CanStep(b, s)
  {
    if !s.closerDone {
      assert Enabled(b, s, CloseResults);
    } else {
      assert Enabled(b, s, if s.results == [] then Finish else Collect);
    }
  }

  /** Until every goroutine has ended, one of them can move. */
  lemma NeverStuck(b: Batch, s: State)
    requires Inv(b, s) && !Final(s)
    requires b.workers > 0 || b.Sequential(|b.entries|) == []
    ensures CanStep(b, s)
  {
    if AtJob(b, s) && !s.cancelled && |s.jobs| >= b.Capacity() {
      JobsNeedWorkers(b, s);
      WorkersCanStep(b, s, 0);
    } else if !s.feeder.Stopped? {
      FeederCanStep(b, s);
    } else if !AllExited(s.workers) {
      LiveWorkersCanStep(b, s);
    } else {
      CollectorCanStep(b, s);
    }
  }

  lemma {:induction false} RunAppend(b: Batch, s: State, acts: seq<Action>, a: Action)
    requires Run(b, s, acts).Some? && Enabled(b, Run(b, s, acts).value, a)
    ensures Run(b, s, acts + [a]) == Some(Apply(b, Run(b, s, acts).value, a))
    decreases |acts|
  {
    if acts != [] {
      RunAppend(b, Apply(b, s, acts[0]), acts[1..], a);
      assert (acts + [a])[1..] == acts[1..] + [a];
    } else {
      assert (acts + [a])[1..] == [];
    }
  }

  /** Without workers the results close at once and the feeder walks to its first job, then waits there. */
  lemma {:induction false} FeederWalks(b: Batch, n: nat) returns (acts: seq<Action>)
    requires b.workers == 0 && n <= |b.entries| && b.Sequential(n) == []
    ensures Run(b, Init(b), acts) ==
            Some(Init(b).(next := n, resultsClosed := true, closerDone := true, collecting := false))
  {
    var s := Init(b);
    if n == 0 {
      acts := [CloseResults];
      assert Run(b, s, []) == Some(s);
      RunAppend(b, s, [], CloseResults);
      RunAppend(b, s, [CloseResults], Finish);
      acts := [CloseResults] + [Finish];
    } else {
      acts := FeederWalks(b, n - 1);
      RunAppend(b, s, acts, FeedSkip);
      acts := acts + [FeedSkip];
    }
  }

  lemma {:induction false} FirstJob(b: Batch, n: nat) returns (k: nat)
    requires n <= |b.entries| && b.Sequential(n) != []
    ensures k < n && b.HasJob(k) && b.Sequential(k) == []
  {
    if b.Sequential(n - 1) == [] { k := n - 1; } else { k := FirstJob(b, n - 1); }
  }

  /** The pool never hangs exactly when it has a worker or nothing to do. */
  lemma DeadlockFreeIff(b: Batch)
    ensures (forall s :: Reachable(b, s) && !Final(s) ==> CanStep(b, s))
            <==> (b.workers > 0 || b.Sequential(|b.entries|) == [])
  {
    if b.workers > 0 || b.Sequential(|b.entries|) == [] {
      forall s | Reachable(b, s) && !Final(s) ensures CanStep(b, s) {
        ReachableInv(b, s);
        NeverStuck(b, s);
      }
    } else {
      var k := FirstJob(b, |b.entries|);
      var acts := FeederWalks(b, k);
      var s := Run(b, Init(b), acts).value;
      assert Reachable(b, s) && !Final(s) && !CanStep(b, s);
    }
  }

  /** So every run can be continued to its end, in a number of steps known at the start. */
  lemma {:induction false} EveryRunEnds(b: Batch, s: State) returns (acts: seq<Action>)
    requires Inv(b, s) && (b.workers > 0 || b.Sequential(|b.entries|) == [])
    ensures Cancel !in acts && Run(b, s, acts).Some? && Final(Run(b, s, acts).value)
    decreases Left(b, s)
  {
    if Final(s) {
      acts := [];
    } else {
      NeverStuck(b, s);
      var a :| a != Cancel && Enabled(b, s, a);
      StepUsesWork(b, s, a);
      InvStep(b, s, a);
      var rest := EveryRunEnds(b, Apply(b, s, a));
      acts := [a] + rest;
      assert acts[1..] == rest;
    }
  }
}
