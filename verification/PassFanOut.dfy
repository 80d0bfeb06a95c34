/**
 * Predicting for many satellites at once: a goroutine to each, at most `slots` of them past the
 * semaphore, each writing its own element of the result slice.
 */
module PassFanOut {
  import opened Wrappers
  import opened PassSpec
  import opened PassPredictor

  /** A satellite's passes, or nothing when its element set cannot be initialised. */
  type Prediction = Option<seq<Pass>>

  /** Each entry is seen as its sky, if its element set can be initialised. */
  datatype Request = Request(skies: seq<Option<Sky>>, horizonNs: int, minEl: real, maxPasses: int, slots: nat) {
    /** What PredictSatellite promises for entry `i`, by whether the context was live when it returned. */
    ghost predicate Answers(i: nat, r: Prediction, live: bool) requires i < |skies| {
      if skies[i].None? then r.None?
      else r.Some? && Reported(skies[i].value, minEl, horizonNs, maxPasses, r.value, live)
    }
  }

  datatype Answer = Predicted(result: Prediction) | Cancelled
  datatype Phase = Waiting | Working | Ended
  datatype State = State(tasks: seq<Phase>, results: seq<Option<Answer>>, cancelled: bool)

  /** A prediction returns while the context is live, or possibly short of passes once it is cancelled. */
  datatype Action = Cancel | Enter(i: nat) | GiveUp(i: nat) | Finish(i: nat, result: Prediction)

  function Init(q: Request): State {
    State(seq(|q.skies|, _ => Waiting), seq(|q.skies|, _ => None), false)
  }

  function Busy(tasks: seq<Phase>): nat {
    if tasks == [] then 0 else (if tasks[0].Working? then 1 else 0) + Busy(tasks[1..])
  }

  /** Waiting goroutines take any ready case of their select: a free slot, or the cancellation. */
  ghost predicate Enabled(q: Request, s: State, a: Action) {
    match a
    case Cancel => !s.cancelled
    case Enter(i) => i < |s.tasks| && s.tasks[i].Waiting? && Busy(s.tasks) < q.slots
    case GiveUp(i) => i < |s.tasks| && s.tasks[i].Waiting? && s.cancelled
    case Finish(i, r) =>
      i < |s.tasks| && i < |q.skies| && s.tasks[i].Working? && q.Answers(i, r, !s.cancelled)
  }

  function Apply(s: State, a: Action): State {
    match a
    case Cancel => s.(cancelled := true)
    case Enter(i) => if i < |s.tasks| then s.(tasks := s.tasks[i := Working]) else s
    case GiveUp(i) => Write(s, i, Answer.Cancelled)
    case Finish(i, r) => Write(s, i, Predicted(r))
  }

  function Write(s: State, i: nat, a: Answer): State {
    if i < |s.tasks| == |s.results| then s.(tasks := s.tasks[i := Ended], results := s.results[i := Some(a)]) else s
  }

  ghost predicate Run(q: Request, acts: seq<Action>, s: State) {
    if acts == [] then s == Init(q)
    else
      var l := |acts| - 1;
      exists p :: Run(q, acts[..l], p) && Enabled(q, p, acts[l]) && s == Apply(p, acts[l])
  }

  predicate AllEnded(s: State) { forall i :: 0 <= i < |s.tasks| ==> s.tasks[i].Ended? }

  ghost predicate Answered(q: Request, i: nat, a: Answer, live: bool)
    requires i < |q.skies|
  {
    if a.Cancelled? then !live else q.Answers(i, a.result, live)
  }

  ghost predicate Inv(q: Request, s: State) {
    && |s.tasks| == |s.results| == |q.skies|
    && Busy(s.tasks) <= q.slots
    && (forall i :: 0 <= i < |s.tasks| ==> (s.tasks[i].Ended? <==> s.results[i].Some?))
    && (forall i :: 0 <= i < |s.tasks| && s.results[i].Some? ==> Answered(q, i, s.results[i].value, !s.cancelled))
  }

  lemma {:induction false} BusyUpdate(tasks: seq<Phase>, i: nat, p: Phase)
    requires i < |tasks|
    ensures Busy(tasks[i := p]) + (if tasks[i].Working? then 1 else 0) == Busy(tasks) + (if p.Working? then 1 else 0)
  {
    if i == 0 {
      assert tasks[i := p][1..] == tasks[1..];
    } else {
      BusyUpdate(tasks[1..], i - 1, p);
      assert tasks[i := p][1..] == tasks[1..][i - 1 := p];
    }
  }

  lemma {:induction false} BusyWhenWaiting(tasks: seq<Phase>)
    requires forall i :: 0 <= i < |tasks| ==> !tasks[i].Working?
    ensures Busy(tasks) == 0
  {
    if tasks != [] { BusyWhenWaiting(tasks[1..]); }
  }

  lemma WriteKeepsInv(q: Request, s: State, i: nat, a: Answer)
    requires Inv(q, s) && i < |s.tasks| && !s.tasks[i].Ended? && Answered(q, i, a, !s.cancelled)
    ensures Inv(q, Write(s, i, a))
  {
    BusyUpdate(s.tasks, i, Ended);
  }

  lemma CancelKeepsInv(q: Request, s: State)
    requires Inv(q, s)
    ensures Inv(q, s.(cancelled := true))
  {
    forall i: nat | i < |s.tasks| && s.results[i].Some? ensures Answered(q, i, s.results[i].value, false) {
      assert Answered(q, i, s.results[i].value, !s.cancelled);
    }
  }

  lemma InvStep(q: Request, s: State, a: Action)
    requires Inv(q, s) && Enabled(q, s, a)
    ensures Inv(q, Apply(s, a))
  {
    match a
    case Cancel => CancelKeepsInv(q, s);
    case Enter(i) => BusyUpdate(s.tasks, i, Working);
    case GiveUp(i) => WriteKeepsInv(q, s, i, Answer.Cancelled);
    case Finish(i, r) => WriteKeepsInv(q, s, i, Predicted(r));
  }

  /** At most `slots` predictions are ever under way. */
  lemma {:induction false} InvRun(q: Request, acts: seq<Action>, s: State)
    requires Run(q, acts, s)
    ensures Inv(q, s)
  {
    if acts == [] {
      BusyWhenWaiting(s.tasks);
    } else {
      var l := |acts| - 1;
      var p :| Run(q, acts[..l], p) && Enabled(q, p, acts[l]) && s == Apply(p, acts[l]);
      InvRun(q, acts[..l], p);
      InvStep(q, p, acts[l]);
    }
  }

  /** Whatever the schedule, a request that has ended holds each entry's own report, in the order asked. */
  lemma FanOutIsMap(q: Request, acts: seq<Action>, s: State)
    requires Run(q, acts, s) && AllEnded(s)
    ensures |s.results| == |q.skies|
    ensures forall i :: 0 <= i < |q.skies| ==> s.results[i].Some? && Answered(q, i, s.results[i].value, !s.cancelled)
  {
    InvRun(q, acts, s);
  }

  /** Uncancelled, the results do not depend on the schedule at all. */
  lemma ScheduleDoesNotMatter(q: Request, acts: seq<Action>, s: State, acts': seq<Action>, s': State)
    requires Run(q, acts, s) && AllEnded(s) && !s.cancelled
    requires Run(q, acts', s') && AllEnded(s') && !s'.cancelled
    ensures s.results == s'.results
  {
    FanOutIsMap(q, acts, s);
    FanOutIsMap(q, acts', s');
    forall i: nat | i < |q.skies| ensures s.results[i] == s'.results[i] {
      AnswerIsUnique(q, i, s.results[i].value.result, s'.results[i].value.result);
    }
  }

  lemma AnswerIsUnique(q: Request, i: nat, r: Prediction, r': Prediction)
    requires i < |q.skies| && q.Answers(i, r, true) && q.Answers(i, r', true)
    ensures r == r'
  {
    if q.skies[i].Some? {
      ReportIsUnique(q.skies[i].value, q.minEl, q.horizonNs, q.maxPasses, r.value, r'.value);
    }
  }

  /** A result, once written, is never written again. */
  lemma SlotsAreWrittenOnce(q: Request, s: State, a: Action, i: nat)
    requires Inv(q, s) && Enabled(q, s, a) && i < |s.results| && s.results[i].Some?
    ensures Apply(s, a).results[i] == s.results[i]
  {
    assert s.tasks[i].Ended?;
  }

  /** The steps the goroutines still have to take. */
  function Work(tasks: seq<Phase>): nat {
    if tasks == [] then 0
    else (match tasks[0] case Waiting => 2 case Working => 1 case Ended => 0) + Work(tasks[1..])
  }

  lemma {:induction false} WorkUpdate(tasks: seq<Phase>, i: nat, p: Phase)
    requires i < |tasks|
    ensures Work(tasks[i := p]) + Work([tasks[i]]) == Work(tasks) + Work([p])
  {
    if i == 0 {
      assert tasks[i := p][1..] == tasks[1..];
    } else {
      WorkUpdate(tasks[1..], i - 1, p);
      assert tasks[i := p][1..] == tasks[1..][i - 1 := p];
    }
  }

  lemma {:induction false} WorkAtFirst(tasks: seq<Phase>)
    requires forall i :: 0 <= i < |tasks| ==> tasks[i].Waiting?
    ensures Work(tasks) == 2 * |tasks|
  {
    if tasks != [] { WorkAtFirst(tasks[1..]); }
  }

  function Left(s: State): nat { Work(s.tasks) + if s.cancelled then 0 else 1 }

  lemma StepUsesWork(q: Request, s: State, a: Action)
    requires Inv(q, s) && Enabled(q, s, a)
    ensures Left(Apply(s, a)) < Left(s)
  {
    match a
    case Cancel =>
    case Enter(i) => WorkUpdate(s.tasks, i, Working);
    case GiveUp(i) => WorkUpdate(s.tasks, i, Ended);
    case Finish(i, _) => WorkUpdate(s.tasks, i, Ended);
  }

  /** No run is longer than two steps to a goroutine and one for the cancellation. */
  lemma {:induction false} RunsAreBounded(q: Request, acts: seq<Action>, s: State)
    requires Run(q, acts, s)
    ensures |acts| + Left(s) <= 2 * |q.skies| + 1
  {
    if acts == [] {
      WorkAtFirst(s.tasks);
    } else {
      var l := |acts| - 1;
      var p :| Run(q, acts[..l], p) && Enabled(q, p, acts[l]) && s == Apply(p, acts[l]);
      RunsAreBounded(q, acts[..l], p);
      InvRun(q, acts[..l], p);
      StepUsesWork(q, p, acts[l]);
    }
  }

  ghost predicate CanStep(q: Request, s: State) {
    exists a: Action :: !a.Cancel? && Enabled(q, s, a)
  }

  /** With at least one slot some goroutine can always move; with none, an uncancelled request never does. */
  lemma DeadlockFreeIff(q: Request)
    ensures (forall acts, s :: Run(q, acts, s) && !AllEnded(s) ==> CanStep(q, s)) <==> q.slots > 0 || q.skies == []
  {
    if q.slots > 0 || q.skies == [] {
      forall acts, s | Run(q, acts, s) && !AllEnded(s) ensures CanStep(q, s) {
        InvRun(q, acts, s);
        SomeoneMoves(q, s);
      }
    } else {
      var s := Init(q);
      assert Run(q, [], s) && !s.tasks[0].Ended?;
      forall a: Action | !a.Cancel? ensures !Enabled(q, s, a) {
      }
    }
  }

  lemma AnswerExists(q: Request, i: nat) returns (r: Prediction)
    requires i < |q.skies|
    ensures q.Answers(i, r, true) && q.Answers(i, r, false)
  {
    if q.skies[i].None? {
      r := None;
    } else {
      var ps := ReportExists(q.skies[i].value, q.minEl, q.horizonNs, q.maxPasses);
      r := Some(ps);
    }
  }

  lemma SomeoneMoves(q: Request, s: State)
    requires Inv(q, s) && !AllEnded(s) && q.slots > 0
    ensures CanStep(q, s)
  {
    if i :| 0 <= i < |s.tasks| && s.tasks[i].Working? {
      var r := AnswerExists(q, i);
      assert q.Answers(i, r, !s.cancelled);
      assert Enabled(q, s, Finish(i, r));
    } else {
      BusyWhenWaiting(s.tasks);
      var i :| 0 <= i < |s.tasks| && !s.tasks[i].Ended?;
      assert Enabled(q, s, Action.Enter(i));
    }
  }
}
