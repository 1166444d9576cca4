/** The persistent reader pool: callers of `read_raw` take turns; each publishes a batch under a new
    generation, drains it alongside the workers through one shared cursor, and returns only when every
    worker has reported. Any scheduling of the threads is a run. */
module ReaderPool {
  import opened Options

  type WorkerId = nat

  datatype Thread = CallerThread | WorkerThread(id: WorkerId)

  // The caller inside `read_raw`. `fast` is the path that wakes no worker.
  datatype Caller =
    | Idle
    | Publishing
    | Drawing(fast: bool)
    | Running(fast: bool, task: nat)
    | Waiting(failed: bool, asleep: bool)   // asleep on `done_cv`, with the lock released
    | Returned(ok: bool)
  {
    // Inside a pooled batch, between publishing it and taking it back.
    predicate InBatch() { (Drawing? && !fast) || (Running? && !fast) || Waiting? }
  }

  // A worker, with the last generation it took and, while it holds one, the call whose tasks it points to.
  datatype Worker =
    | Resting(generation: nat, asleep: bool)   // asleep on `work_cv`, with the lock released
    | Draws(generation: nat, call: nat)
    | Runs(generation: nat, call: nat, task: nat)
    | Reports(generation: nat, call: nat, failed: bool)
  {
    predicate Through(g: nat) { Resting? && generation == g }
  }

  datatype Batch = Batch(generation: nat, call: nat, remaining: nat, failed: bool)

  // What became of one task of the current call.
  datatype Fate = Fresh | Taken(who: Thread) | Done | Broken(who: Thread)

  datatype State = State(
    nextGeneration: nat, call: nat, total: nat, cursor: nat, batch: Option<Batch>,
    caller: Caller, workers: map<WorkerId, Worker>,
    fate: seq<Fate>, runs: seq<nat>)

  datatype Step =
    | Begin(tasks: nat)
    | Publish
    | CallerDraw
    | CallerRun(ok: bool)
    | CallerSleep
    | CallerWakes      // a wake-up without a notification
    | CallerFinish
    | CallerLeave
    | WorkerSleep(w: WorkerId)
    | WorkerWakes(w: WorkerId)      // likewise
    | TakeBatch(w: WorkerId)
    | Draw(w: WorkerId)
    | Run(w: WorkerId, ok: bool)
    | Report(w: WorkerId)

  predicate OfWorker(step: Step) {
    step.WorkerSleep? || step.WorkerWakes? || step.TakeBatch? || step.Draw? || step.Run? || step.Report?
  }

  // A batch that the worker has not seen.
  predicate HasNews(s: State, w: WorkerId)
    requires w in s.workers
  { s.batch.Some? && s.batch.value.generation != s.workers[w].generation }

  predicate Enabled(s: State, step: Step) {
    match step
    case Begin(tasks) => s.caller.Idle? && tasks > 0
    case Publish => s.caller.Publishing?
    case CallerDraw => s.caller.Drawing?
    case CallerRun(_) => s.caller.Running? && s.caller.task < |s.fate| && s.caller.task < |s.runs|
    case CallerSleep => s.caller.Waiting? && !s.caller.asleep && s.batch.Some? && s.batch.value.remaining > 0
    case CallerWakes => s.caller.Waiting? && s.caller.asleep
    case CallerFinish => s.caller.Waiting? && !s.caller.asleep && (s.batch.Some? ==> s.batch.value.remaining == 0)
    case CallerLeave => s.caller.Returned?
    case WorkerSleep(w) => w in s.workers && s.workers[w].Resting? && !s.workers[w].asleep && !HasNews(s, w)
    case WorkerWakes(w) => w in s.workers && s.workers[w].Resting? && s.workers[w].asleep
    case TakeBatch(w) => w in s.workers && s.workers[w].Resting? && !s.workers[w].asleep && HasNews(s, w)
    case Draw(w) => w in s.workers && s.workers[w].Draws?
    case Run(w, _) => w in s.workers && s.workers[w].Runs? && s.workers[w].task < |s.fate| &&
      s.workers[w].task < |s.runs|
    case Report(w) => w in s.workers && s.workers[w].Reports?
                      && (s.batch.Some? && s.batch.value.generation == s.workers[w].generation ==>
                          s.batch.value.remaining > 0)
  }

  // A drawn index past the end tells its thread that the batch is drained.
  function Take(s: State, who: Thread): State {
    s.(cursor := s.cursor + 1, fate := if s.cursor < |s.fate| then s.fate[s.cursor := Taken(who)] else s.fate)
  }

  function Ran(s: State, who: Thread, task: nat, ok: bool): State
    requires task < |s.fate| && task < |s.runs|
  {
    if ok then s.(fate := s.fate[task := Done], runs := s.runs[task := s.runs[task] + 1])
    else s.(fate := s.fate[task := Broken(who)])
  }

  // `notify_all` on `work_cv`.
  function Roused(workers: map<WorkerId, Worker>): (r: map<WorkerId, Worker>) {
    map w | w in workers :: if workers[w].Resting? then workers[w].(asleep := false) else workers[w]
  }

  function Apply(s: State, step: Step): State
    requires Enabled(s, step)
  {
    match step
    case Begin(tasks) =>
      s.(call := s.call + 1, total := tasks, cursor := 0, fate := seq(tasks, _ => Fresh), runs := seq(tasks, _ => 0),
         caller := if tasks == 1 || s.workers == map[] then Drawing(true) else Publishing)
    case Publish =>
      s.(batch := Some(Batch(s.nextGeneration, s.call, |s.workers|, false)),
         nextGeneration := s.nextGeneration + 1, caller := Drawing(false), workers := Roused(s.workers))
    case CallerDraw =>
      Take(s, CallerThread).(caller := if s.cursor < s.total then Running(s.caller.fast, s.cursor)
                                       else if s.caller.fast then Returned(true) else Waiting(false, false))
    case CallerRun(ok) =>
      Ran(s, CallerThread, s.caller.task, ok).(caller :=
        if ok then Drawing(s.caller.fast) else if s.caller.fast then Returned(false) else Waiting(true, false))
    case CallerSleep => s.(caller := s.caller.(asleep := true))
    case CallerWakes => s.(caller := s.caller.(asleep := false))
    case CallerFinish =>
      s.(batch := None, caller := Returned(!s.caller.failed && (s.batch.Some? ==> !s.batch.value.failed)))
    case CallerLeave => s.(caller := Idle)
    case WorkerSleep(w) => s.(workers := s.workers[w := s.workers[w].(asleep := true)])
    case WorkerWakes(w) => s.(workers := s.workers[w := s.workers[w].(asleep := false)])
    case TakeBatch(w) => s.(workers := s.workers[w := Draws(s.batch.value.generation, s.batch.value.call)])
    case Draw(w) =>
      var me := s.workers[w];
      Take(s, WorkerThread(w)).(workers := s.workers[w :=
        if s.cursor < s.total then Runs(me.generation, me.call, s.cursor) else Reports(me.generation, me.call, false)])
    case Run(w, ok) =>
      var me := s.workers[w];
      Ran(s, WorkerThread(w), me.task, ok).(workers := s.workers[w :=
        if ok then Draws(me.generation, me.call) else Reports(me.generation, me.call, true)])
    case Report(w) =>
      var me := s.workers[w];
      var s' := s.(workers := s.workers[w := Resting(me.generation, false)]);
      if s.batch.Some? && s.batch.value.generation == me.generation then
        var b := s.batch.value;
        // The last report notifies, under the lock.
        var woken := if b.remaining == 1 && s.caller.Waiting? then s.caller.(asleep := false) else s.caller;
        s'.(batch := Some(b.(remaining := b.remaining - 1, failed := b.failed || me.failed)), caller := woken)
      else s'
  }

  ghost predicate Legal(s: State, steps: seq<Step>)
    decreases |steps|
  {
    steps == [] || (Enabled(s, steps[0]) && Legal(Apply(s, steps[0]), steps[1..]))
  }

  ghost function Exec(s: State, steps: seq<Step>): State
    requires Legal(s, steps)
    decreases |steps|
  {
    if steps == [] then s else Exec(Apply(s, steps[0]), steps[1..])
  }

  ghost predicate Start(s: State) {
    && s.nextGeneration == 1 && s.batch == None && s.caller == Idle && s.fate == [] && s.runs == [] && s.total == 0
    && forall w :: w in s.workers ==> s.workers[w].Through(0)
  }

  // ----- The invariant -----

  // Workers that have yet to report on the current batch.
  ghost function Pending(workers: map<WorkerId, Worker>, generation: nat): set<WorkerId> {
    set w | w in workers && !workers[w].Through(generation)
  }

  ghost predicate BatchInv(s: State) {
    && (s.batch.Some? <==> s.caller.InBatch())
    && (s.batch.Some? ==>
          && s.batch.value.call == s.call
          && s.batch.value.generation + 1 == s.nextGeneration
          && s.batch.value.remaining == |Pending(s.workers, s.batch.value.generation)|)
  }

  // A worker that holds a batch holds the current one, while its caller is still inside the call.
  ghost predicate WorkerOk(s: State, w: WorkerId)
    requires w in s.workers
  {
    var me := s.workers[w];
    && me.generation < s.nextGeneration
    && (me.Resting? && me.asleep ==> !HasNews(s, w))
    && (!me.Resting? ==> && s.batch.Some? && s.batch.value.generation == me.generation && me.call == s.call
                         && s.caller.InBatch())
    && (me.Runs? ==> me.task < |s.fate| && s.fate[me.task] == Taken(WorkerThread(w)))
    && (me.Reports? && !me.failed ==> s.cursor >= s.total)
  }

  ghost predicate TaskKept(s: State, i: nat)
    requires i < |s.fate| == |s.runs|
  {
    && (s.fate[i] == Fresh <==> i >= s.cursor)
    && s.runs[i] == (if s.fate[i] == Done then 1 else 0)
    && (s.fate[i].Taken? ==>
          match s.fate[i].who
          case CallerThread => s.caller.Running? && s.caller.task == i
          case WorkerThread(w) => w in s.workers && s.workers[w].Runs? && s.workers[w].task == i)
    && (s.fate[i].Broken? ==>
          match s.fate[i].who
          case CallerThread => (s.caller.Waiting? && s.caller.failed) || s.caller == Returned(false) || s.caller == Idle
          case WorkerThread(w) =>
            || (w in s.workers && s.workers[w].Reports? && s.workers[w].failed)
            || (s.batch.Some? && s.batch.value.failed)
            || s.caller == Returned(false) || s.caller == Idle)
  }

  ghost predicate CallerOk(s: State) {
    && |s.fate| == |s.runs| == s.total
    && (s.caller.Running? ==> s.caller.task < s.total && s.fate[s.caller.task] == Taken(CallerThread))
    && ((s.caller.Waiting? && !s.caller.failed) || s.caller == Returned(true) ==> s.cursor >= s.total)
    && (s.caller.Waiting? && s.caller.asleep ==> s.batch.Some? && s.batch.value.remaining > 0)
    && (s.caller == Publishing ==> s.cursor == 0 && s.workers != map[])
    && (s.caller.Returned? ==> forall i :: 0 <= i < |s.fate| ==> !s.fate[i].Taken?)
  }

  ghost predicate Inv(s: State) {
    && BatchInv(s) && CallerOk(s)
    && (forall w :: w in s.workers ==> WorkerOk(s, w))
    && (forall i :: 0 <= i < |s.fate| ==> TaskKept(s, i))
  }

  lemma PendingAfter(workers: map<WorkerId, Worker>, w: WorkerId, me: Worker, generation: nat)
    requires w in workers
    ensures Pending(workers[w := me], generation)
            == if me.Through(generation) then Pending(workers, generation) - {w}
              else Pending(workers, generation) + {w}
  {}

  // Sleeping, waking and taking a batch leave the same reports to be made.
  lemma StirKeepsPending(s: State, s': State, w: WorkerId)
    requires w in s.workers && w in s'.workers && s'.workers == s.workers[w := s'.workers[w]] && s'.batch == s.batch
    requires s.batch.Some? ==>
      var g := s.batch.value.generation; s.workers[w].Through(g) <==> s'.workers[w].Through(g)
    ensures s.batch.Some? ==>
      Pending(s'.workers, s.batch.value.generation) == Pending(s.workers, s.batch.value.generation)
  {
    if s.batch.Some? { PendingAfter(s.workers, w, s'.workers[w], s.batch.value.generation); }
  }

  lemma StepKeepsBatch(s: State, step: Step)
    requires Inv(s) && Enabled(s, step)
    ensures BatchInv(Apply(s, step))
  {
    var s' := Apply(s, step);
    match step
    case Publish =>
      forall w | w in s.workers ensures w in Pending(s'.workers, s.nextGeneration) {
        assert WorkerOk(s, w);
      }
      assert Pending(s'.workers, s.nextGeneration) == s.workers.Keys;
    case WorkerSleep(w) => StirKeepsPending(s, s', w);
    case WorkerWakes(w) => StirKeepsPending(s, s', w);
    case TakeBatch(w) => StirKeepsPending(s, s', w);
    case Draw(w) =>
      assert WorkerOk(s, w);
      PendingAfter(s.workers, w, s'.workers[w], s.batch.value.generation);
      assert Pending(s'.workers, s.batch.value.generation) == Pending(s.workers, s.batch.value.generation);
    case Run(w, _) =>
      assert WorkerOk(s, w);
      PendingAfter(s.workers, w, s'.workers[w], s.batch.value.generation);
      assert Pending(s'.workers, s.batch.value.generation) == Pending(s.workers, s.batch.value.generation);
    case Report(w) =>
      assert WorkerOk(s, w);
      PendingAfter(s.workers, w, s'.workers[w], s.batch.value.generation);
      assert w in Pending(s.workers, s.batch.value.generation);
    case _ =>
  }

  lemma FinishedBatchIsQuiet(s: State, w: WorkerId)
    requires Inv(s) && Enabled(s, CallerFinish) && w in s.workers
    ensures s.workers[w].Resting?
  {
    assert WorkerOk(s, w);
    if s.batch.Some? {
      assert Pending(s.workers, s.batch.value.generation) == {};
      assert w !in Pending(s.workers, s.batch.value.generation);
    }
  }

  lemma WorkerStepKeepsWorkers(s: State, step: Step, w: WorkerId)
    requires Inv(s) && Enabled(s, step) && w in s.workers && OfWorker(step)
    ensures WorkerOk(Apply(s, step), w)
  {
    assert WorkerOk(s, w) && WorkerOk(s, step.w);
    assert s.cursor < |s.fate| ==> TaskKept(s, s.cursor);
  }

  lemma CallerStepKeepsWorkers(s: State, step: Step, w: WorkerId)
    requires Inv(s) && Enabled(s, step) && w in s.workers && !OfWorker(step)
    ensures WorkerOk(Apply(s, step), w)
  {
    assert WorkerOk(s, w);
    assert s.cursor < |s.fate| ==> TaskKept(s, s.cursor);
    if step.CallerFinish? {
      FinishedBatchIsQuiet(s, w);
    }
  }

  lemma WorkerStepKeepsTask(s: State, step: Step, i: nat)
    requires Inv(s) && Enabled(s, step) && i < |s.fate| && OfWorker(step)
    ensures TaskKept(Apply(s, step), i)
  {
    assert TaskKept(s, i) && WorkerOk(s, step.w);
    if step.Run? {
      assert TaskKept(s, s.workers[step.w].task);
    }
  }

  lemma CallerStepKeepsTask(s: State, step: Step, i: nat)
    requires Inv(s) && Enabled(s, step) && !OfWorker(step)
    requires i < |Apply(s, step).fate| == |Apply(s, step).runs|
    ensures TaskKept(Apply(s, step), i)
  {
    if !step.Begin? {
      assert TaskKept(s, i);
    }
    if step.CallerFinish? && s.fate[i].Broken? && s.fate[i].who.WorkerThread? && s.fate[i].who.id in s.workers {
      FinishedBatchIsQuiet(s, s.fate[i].who.id);
    }
  }

  lemma StepKeepsCaller(s: State, step: Step)
    requires Inv(s) && Enabled(s, step)
    ensures CallerOk(Apply(s, step))
  {
    var s' := Apply(s, step);
    match step
    case CallerFinish =>
      forall i | 0 <= i < |s.fate| ensures !s.fate[i].Taken? {
        assert TaskKept(s, i);
        if s.fate[i].Taken? && s.fate[i].who.WorkerThread? {
          FinishedBatchIsQuiet(s, s.fate[i].who.id);
        }
      }
    case CallerDraw => if s.caller.fast { NoneTakenOnFastPath(s); }
    case CallerRun(_) => if s.caller.fast { NoneTakenOnFastPath(s); }
    case Draw(w) =>
      assert WorkerOk(s, w);
      assert s.cursor < |s.fate| ==> TaskKept(s, s.cursor);
    case Run(w, _) => assert WorkerOk(s, w);
    case _ =>
  }

  lemma NoneTakenOnFastPath(s: State)
    requires Inv(s) && (s.caller.Drawing? || s.caller.Running?) && s.caller.fast
    ensures forall i :: 0 <= i < |s.fate| && s.fate[i].Taken? ==> s.caller.Running? && i == s.caller.task
  {
    forall w | w in s.workers ensures s.workers[w].Resting? { assert WorkerOk(s, w); }
    forall i | 0 <= i < |s.fate| && s.fate[i].Taken? ensures s.caller.Running? && i == s.caller.task {
      assert TaskKept(s, i);
    }
  }

  lemma StepKeepsInv(s: State, step: Step)
    requires Inv(s) && Enabled(s, step)
    ensures Inv(Apply(s, step))
  {
    var s' := Apply(s, step);
    StepKeepsBatch(s, step);
    StepKeepsCaller(s, step);
    forall w | w in s'.workers ensures WorkerOk(s', w) {
      if OfWorker(step) {
        WorkerStepKeepsWorkers(s, step, w);
      } else {
        CallerStepKeepsWorkers(s, step, w);
      }
    }
    forall i | 0 <= i < |s'.fate| ensures TaskKept(s', i) {
      if OfWorker(step) {
        WorkerStepKeepsTask(s, step, i);
      } else {
        CallerStepKeepsTask(s, step, i);
      }
    }
  }

  lemma {:induction false} RunKeepsInv(s: State, steps: seq<Step>)
    requires Inv(s) && Legal(s, steps)
    ensures Inv(Exec(s, steps))
    decreases |steps|
  {
    if steps != [] {
      StepKeepsInv(s, steps[0]);
      RunKeepsInv(Apply(s, steps[0]), steps[1..]);
    }
  }

  lemma StartEstablishesInv(s: State)
    requires Start(s)
    ensures Inv(s)
  {
    assert forall w :: w in s.workers ==> WorkerOk(s, w);
  }

  // ----- What holds over all schedules -----

  /** If `read_raw` returns Ok, every task of its batch ran exactly once. */
  lemma OkMeansEveryTaskRanOnce(s: State, steps: seq<Step>, i: nat)
    requires Start(s) && Legal(s, steps)
    requires Exec(s, steps).caller == Returned(true) && i < Exec(s, steps).total
    ensures i < |Exec(s, steps).runs| && Exec(s, steps).runs[i] == 1
  {
    StartEstablishesInv(s);
    RunKeepsInv(s, steps);
    assert TaskKept(Exec(s, steps), i);
  }

  /** A worker touches only the tasks of the call that is in progress: when a call has returned, or has
      not yet published its batch, no worker points at any tasks. */
  lemma NoWorkerOutlivesTheCall(s: State, steps: seq<Step>, w: WorkerId)
    requires Start(s) && Legal(s, steps) && w in Exec(s, steps).workers
    ensures var t := Exec(s, steps);
            && (!t.caller.InBatch() ==> t.workers[w].Resting?)
            && (!t.workers[w].Resting? ==> t.workers[w].call == t.call && t.batch.Some? && t.batch.value.call == t.call)
  {
    StartEstablishesInv(s);
    RunKeepsInv(s, steps);
    assert WorkerOk(Exec(s, steps), w);
  }

  /** The shared cursor belongs to the batch a drawing worker holds: what it draws is an unclaimed task
      of that batch or the end of it, never an index of another batch. */
  lemma DrawsComeFromItsOwnBatch(s: State, steps: seq<Step>, w: WorkerId)
    requires Start(s) && Legal(s, steps) && Enabled(Exec(s, steps), Draw(w))
    ensures var t := Exec(s, steps);
            && t.workers[w].call == t.call
            && (t.cursor < t.total ==> t.cursor < |t.fate| && t.fate[t.cursor] == Fresh)
  {
    StartEstablishesInv(s);
    RunKeepsInv(s, steps);
    var t := Exec(s, steps);
    assert WorkerOk(t, w);
    assert t.cursor < |t.fate| ==> TaskKept(t, t.cursor);
  }

  ghost function TakesOf(steps: seq<Step>, w: WorkerId, s: State, generation: nat): nat
    requires Legal(s, steps)
    decreases |steps|
  {
    if steps == [] then 0
    else (if steps[0] == TakeBatch(w) && s.batch.value.generation == generation then 1 else 0)
         + TakesOf(steps[1..], w, Apply(s, steps[0]), generation)
  }

  lemma StepMovesGenerationsForward(s: State, step: Step, w: WorkerId)
    requires Inv(s) && Enabled(s, step) && w in s.workers
    ensures w in Apply(s, step).workers && s.workers[w].generation <= Apply(s, step).workers[w].generation
    ensures step == TakeBatch(w) ==>
      s.workers[w].generation < s.batch.value.generation == Apply(s, step).workers[w].generation
  {
    assert WorkerOk(s, w);
  }

  /** No worker takes a generation twice, nor one older than it has seen. */
  lemma {:induction false} NoGenerationTwice(s: State, steps: seq<Step>, w: WorkerId, generation: nat)
    requires Inv(s) && Legal(s, steps) && w in s.workers
    ensures TakesOf(steps, w, s, generation) <= (if s.workers[w].generation < generation then 1 else 0)
    decreases |steps|
  {
    if steps != [] {
      StepKeepsInv(s, steps[0]);
      StepMovesGenerationsForward(s, steps[0], w);
      NoGenerationTwice(Apply(s, steps[0]), steps[1..], w, generation);
    }
  }

  // ----- Progress -----

  /** The last report cannot be lost: while the caller sleeps, some worker has yet to report on its batch. */
  lemma SleeperIsOwedAReport(s: State, steps: seq<Step>)
    requires Start(s) && Legal(s, steps)
    ensures var t := Exec(s, steps);
            t.caller.Waiting? && t.caller.asleep ==>
              t.batch.Some? && t.batch.value.remaining > 0 && Pending(t.workers, t.batch.value.generation) != {}
  {
    StartEstablishesInv(s);
    RunKeepsInv(s, steps);
  }

  /** A batch cannot be slept through: a worker asleep on `work_cv` has seen the batch there is. */
  lemma NobodySleepsThroughABatch(s: State, steps: seq<Step>, w: WorkerId)
    requires Start(s) && Legal(s, steps) && w in Exec(s, steps).workers
    ensures var t := Exec(s, steps);
            t.workers[w].Resting? && t.workers[w].asleep && t.batch.Some? ==>
              t.workers[w].generation == t.batch.value.generation && w !in Pending(t.workers, t.batch.value.generation)
  {
    StartEstablishesInv(s);
    RunKeepsInv(s, steps);
    assert WorkerOk(Exec(s, steps), w);
  }

  // A step that does some of the call's work, rather than falling asleep or waking for nothing.
  predicate MovesOn(step: Step) {
    !(step.CallerSleep? || step.CallerWakes? || step.WorkerSleep? || step.WorkerWakes?)
  }

  // A worker that has yet to report can take its next step.
  lemma PendingWorkerCanStep(s: State, w: WorkerId) returns (step: Step)
    requires Inv(s) && s.batch.Some? && w in Pending(s.workers, s.batch.value.generation)
    ensures Enabled(s, step) && MovesOn(step)
  {
    assert WorkerOk(s, w);
    step := match s.workers[w]
      case Resting(_, _) => TakeBatch(w)
      case Draws(_, _) => Draw(w)
      case Runs(_, _, _) => Run(w, true)
      case Reports(_, _, _) => Report(w);
  }

  /** The pool cannot deadlock: inside a call some thread can always take a step that does some of its work. */
  lemma SomeThreadCanStep(s: State, steps: seq<Step>) returns (step: Step)
    requires Start(s) && Legal(s, steps) && !Exec(s, steps).caller.Idle?
    ensures Enabled(Exec(s, steps), step) && MovesOn(step)
  {
    StartEstablishesInv(s);
    RunKeepsInv(s, steps);
    var t := Exec(s, steps);
    match t.caller
    case Publishing => step := Publish;
    case Drawing(_) => step := CallerDraw;
    case Running(_, _) => step := CallerRun(true);
    case Returned(_) => step := CallerLeave;
    case Waiting(_, _) =>
      if t.batch.Some? && t.batch.value.remaining > 0 {
        var w :| w in Pending(t.workers, t.batch.value.generation);
        step := PendingWorkerCanStep(t, w);
      } else {
        step := CallerFinish;
      }
  }
}
