/**
 The conversion queue: jobs are recorded by id and queued by their options; one worker dequeues
 options, looks for a queued job with the same model path, and drives that job to its end. Steps are
 the critical sections; anything may happen between them.
 */
module ConversionManagers {
  import opened Common

  datatype Status = Queued | Running | Completed | Failed

  datatype Options = Options(onnxPath: string, enginePath: string, maxBatchSize: int)

  datatype Job = Job(status: Status, progress: int, message: string, error: string, options: Options, engineSize: nat)

  datatype Worker = AtTop | Matched(opts: Options, found: Option<nat>) | Building(opts: Options, job: nat) | Gone

  /** `submitted` records, in parallel to the queue, which job each queued entry was submitted with. */
  datatype Manager = Manager(jobs: map<nat, Job>, order: seq<nat>, queue: seq<Options>, submitted: seq<nat>,
                             worker: Worker, running: bool)

  const Unstarted := Manager(map[], [], [], [], AtTop, true)

  datatype Event =
    | Submit(id: nat, opts: Options)
    | Take(choice: Option<nat>)
    | Skip
    | Start
    | Progress(percent: int, message: string)
    | Finish(ok: bool, size: nat)
    | StopRunning
    | Leave

  predicate Matches(j: Job, opts: Options) { j.status == Queued && j.options.onnxPath == opts.onnxPath }

  predicate IsMatch(jobs: map<nat, Job>, opts: Options, id: nat) { id in jobs && Matches(jobs[id], opts) }

  /** What the scan over the jobs may find: any match, or nothing when there is none. */
  ghost predicate MayFind(jobs: map<nat, Job>, opts: Options, found: Option<nat>) {
    match found
    case Some(id) => IsMatch(jobs, opts, id)
    case None => forall id :: !IsMatch(jobs, opts, id)
  }

  ghost predicate Can(m: Manager, e: Event) {
    match e
    case Submit(id, _) => id !in m.jobs
    case Take(choice) => m.worker.AtTop? && m.running && m.queue != [] && MayFind(m.jobs, m.queue[0], choice)
    case Skip => m.worker.Matched? && m.worker.found.None?
    case Start => m.worker.Matched? && m.worker.found.Some? && m.worker.found.value in m.jobs
    case Progress(_, _) => m.worker.Building? && m.worker.job in m.jobs
    case Finish(_, _) => m.worker.Building? && m.worker.job in m.jobs
    case StopRunning => true
    case Leave => m.worker.AtTop? && !m.running
  }

  function SetJob(m: Manager, id: nat, j: Job): Manager { m.(jobs := m.jobs[id := j]) }

  function NewJob(opts: Options): Job { Job(Queued, 0, "", "", opts, 0) }

  function Started(j: Job): Job { j.(status := Running, message := "Building TensorRT engine...") }

  /** `size` is that of the engine file the options name. */
  function Ended(j: Job, ok: bool, size: nat): Job {
    if ok then j.(status := Completed, progress := 100, message := "Conversion complete", engineSize := size)
    else j.(status := Failed, error := j.message)
  }

  ghost function Next(m: Manager, e: Event): Manager
    requires Can(m, e)
  {
    match e
    case Submit(id, opts) =>
      SetJob(m, id, NewJob(opts)).(order := m.order + [id], queue := m.queue + [opts], submitted := m.submitted + [id])
    case Take(choice) =>
      m.(queue := m.queue[1..], submitted := if m.submitted == [] then [] else m.submitted[1..], worker := Matched(m.queue[0], choice))
    case Skip => m.(worker := AtTop)
    case Start =>
      var id := m.worker.found.value;
      SetJob(m, id, Started(m.jobs[id])).(worker := Building(m.worker.opts, id))
    case Progress(percent, message) => SetJob(m, m.worker.job, m.jobs[m.worker.job].(progress := percent, message := message))
    case Finish(ok, size) => SetJob(m, m.worker.job, Ended(m.jobs[m.worker.job], ok, size)).(worker := AtTop)
    case StopRunning => m.(running := false)
    case Leave => m.(worker := Gone)
  }

  // ---------------------------------------------------------------- the critical sections as written

  class ConversionManager {
    var jobs: map<nat, Job>
    var jobOrder: seq<nat>
    var queue: seq<Options>

    constructor ()
      ensures jobs == map[] && jobOrder == [] && queue == []
    {
      jobs, jobOrder, queue := map[], [], [];
    }

    method SubmitJob(id: nat, opts: Options)
      modifies this
      ensures id in jobs && jobs[id] == Job(Queued, 0, "", "", opts, 0)
      ensures jobs == old(jobs)[id := NewJob(opts)] && jobOrder == old(jobOrder) + [id] && queue == old(queue) + [opts]
    {
      jobs := jobs[id := NewJob(opts)];
      jobOrder := jobOrder + [id];
      queue := queue + [opts];
    }

    /** Dequeue, then scan the jobs in no particular order for the first match. */
    method TakeNext() returns (opts: Options, found: Option<nat>)
      requires queue != []
      modifies this`queue
      ensures opts == old(queue)[0] && queue == old(queue)[1..] && MayFind(jobs, opts, found)
    {
      opts := queue[0];
      queue := queue[1..];
      found := None;
      var todo := jobs.Keys;
      while todo != {}
        invariant todo <= jobs.Keys && forall id :: id in jobs.Keys - todo ==> !IsMatch(jobs, opts, id)
        decreases |todo|
      {
        var id :| id in todo;
        if jobs[id].status == Queued && jobs[id].options.onnxPath == opts.onnxPath {
          return opts, Some(id);
        }
        todo := todo - {id};
      }
    }

    method StartJob(id: nat)
      requires id in jobs
      modifies this`jobs
      ensures jobs == old(jobs)[id := old(jobs)[id].(status := Running, message := "Building TensorRT engine...")]
      ensures jobs == old(jobs)[id := Started(old(jobs)[id])]
    {
      var job := jobs[id];
      jobs := jobs[id := job.(status := Running)];
      jobs := jobs[id := jobs[id].(message := "Building TensorRT engine...")];
    }

    method FinishJob(id: nat, ok: bool, size: nat)
      requires id in jobs
      modifies this`jobs
      ensures ok ==> jobs == old(jobs)[id := old(jobs)[id].(status := Completed, progress := 100, message := "Conversion complete", engineSize := size)]
      ensures !ok ==> jobs == old(jobs)[id := old(jobs)[id].(status := Failed, error := old(jobs)[id].message)]
      ensures jobs == old(jobs)[id := Ended(old(jobs)[id], ok, size)]
    {
      if ok {
        jobs := jobs[id := jobs[id].(status := Completed)];
        jobs := jobs[id := jobs[id].(progress := 100)];
        jobs := jobs[id := jobs[id].(message := "Conversion complete")];
        jobs := jobs[id := jobs[id].(engineSize := size)];
      } else {
        jobs := jobs[id := jobs[id].(status := Failed)];
        jobs := jobs[id := jobs[id].(error := jobs[id].message)];
      }
    }
  }

  // ---------------------------------------------------------------- counting

  function CountPath(queue: seq<Options>, path: string): nat {
    if queue == [] then 0 else (if queue[0].onnxPath == path then 1 else 0) + CountPath(queue[1..], path)
  }

  /** The queued jobs of a path. */
  function QueuedIds(jobs: map<nat, Job>, path: string): set<nat> {
    set id | id in jobs && jobs[id].status == Queued && jobs[id].options.onnxPath == path
  }

  /** A dequeued entry whose job has not been marked running yet. */
  function InHand(w: Worker, path: string): nat {
    if w.Matched? && w.found.Some? && w.opts.onnxPath == path then 1 else 0
  }

  ghost predicate Balanced(m: Manager) {
    forall path :: BalancedAt(m, path)
  }

  ghost predicate BalancedAt(m: Manager, path: string) {
    CountPath(m.queue, path) + InHand(m.worker, path) == |QueuedIds(m.jobs, path)|
  }

  /** The worker's job is where the worker says it is. */
  ghost predicate WorkerSound(m: Manager) {
    match m.worker
    case Matched(opts, found) => found.Some? && IsMatch(m.jobs, opts, found.value)
    case Building(opts, id) => id in m.jobs && m.jobs[id].status == Running && m.jobs[id].options.onnxPath == opts.onnxPath
    case _ => true
  }

  lemma {:induction false} CountAppend(queue: seq<Options>, opts: Options, path: string)
    ensures CountPath(queue + [opts], path) == CountPath(queue, path) + (if opts.onnxPath == path then 1 else 0)
    decreases |queue|
  {
    if queue == [] {
      assert [] + [opts] == [opts] && [opts][1..] == [];
    } else {
      CountAppend(queue[1..], opts, path);
      assert (queue + [opts])[1..] == queue[1..] + [opts];
    }
  }

  lemma SubmitBalanced(m: Manager, id: nat, opts: Options)
    requires Balanced(m) && id !in m.jobs
    ensures Balanced(Next(m, Submit(id, opts)))
  {
    var m' := Next(m, Submit(id, opts));
    forall path ensures BalancedAt(m', path) {
      assert BalancedAt(m, path);
      CountAppend(m.queue, opts, path);
      if opts.onnxPath == path {
        assert QueuedIds(m'.jobs, path) == QueuedIds(m.jobs, path) + {id};
      } else {
        assert QueuedIds(m'.jobs, path) == QueuedIds(m.jobs, path);
      }
    }
  }

  /** At the top of its loop the worker always finds a job for the entry it dequeues. */
  lemma NeverSkips(m: Manager, choice: Option<nat>)
    requires Balanced(m) && Can(m, Take(choice))
    ensures choice.Some?
  {
    var path := m.queue[0].onnxPath;
    assert BalancedAt(m, path);
    assert CountPath(m.queue, path) >= 1;
    if QueuedIds(m.jobs, path) != {} {
      var id :| id in QueuedIds(m.jobs, path);
      assert IsMatch(m.jobs, m.queue[0], id);
    }
  }

  lemma TakeBalanced(m: Manager, choice: Option<nat>)
    requires Balanced(m) && Can(m, Take(choice))
    ensures Balanced(Next(m, Take(choice))) && WorkerSound(Next(m, Take(choice)))
  {
    NeverSkips(m, choice);
    forall path ensures BalancedAt(Next(m, Take(choice)), path) { assert BalancedAt(m, path); }
  }

  lemma StartBalanced(m: Manager)
    requires Balanced(m) && WorkerSound(m) && Can(m, Start)
    ensures Balanced(Next(m, Start)) && WorkerSound(Next(m, Start))
  {
    var m', id := Next(m, Start), m.worker.found.value;
    forall path ensures BalancedAt(m', path) {
      assert BalancedAt(m, path);
      LeavesQueued(m.jobs, id, Started(m.jobs[id]), path);
    }
  }

  /** A job that starts is no longer among the queued ones of its path; other paths are untouched. */
  lemma LeavesQueued(jobs: map<nat, Job>, id: nat, started: Job, path: string)
    requires id in jobs && jobs[id].status == Queued && started.status != Queued
    ensures var after := QueuedIds(jobs[id := started], path);
            if path == jobs[id].options.onnxPath
            then id in QueuedIds(jobs, path) && after == QueuedIds(jobs, path) - {id} && |after| == |QueuedIds(jobs, path)| - 1
            else after == QueuedIds(jobs, path)
  {
    var before, after := QueuedIds(jobs, path), QueuedIds(jobs[id := started], path);
    if path == jobs[id].options.onnxPath { assert after == before - {id}; } else { assert after == before; }
  }

  lemma BuildingBalanced(m: Manager, e: Event)
    requires Balanced(m) && WorkerSound(m) && Can(m, e) && (e.Progress? || e.Finish?)
    ensures Balanced(Next(m, e)) && WorkerSound(Next(m, e))
  {
    forall path ensures BalancedAt(Next(m, e), path) {
      assert BalancedAt(m, path);
      assert QueuedIds(Next(m, e).jobs, path) == QueuedIds(m.jobs, path);
    }
  }

  lemma IdleBalanced(m: Manager, e: Event)
    requires Balanced(m) && WorkerSound(m) && Can(m, e) && (e.Skip? || e.StopRunning? || e.Leave?)
    ensures Balanced(Next(m, e)) && WorkerSound(Next(m, e))
  {
    forall path ensures BalancedAt(Next(m, e), path) { assert BalancedAt(m, path); }
  }

  ghost predicate StepTo(m: Manager, e: Event, m': Manager) { Can(m, e) && m' == Next(m, e) }

  ghost predicate Reached(m: Manager, events: seq<Event>)
    decreases |events|
  {
    if events == [] then m == Unstarted
    else
      var earlier, last := events[..|events| - 1], events[|events| - 1];
      exists q :: Reached(q, earlier) && StepTo(q, last, m)
  }

  lemma StepBalanced(m: Manager, e: Event)
    requires Balanced(m) && WorkerSound(m) && Can(m, e)
    ensures Balanced(Next(m, e)) && WorkerSound(Next(m, e))
  {
    match e {
      case Submit(id, opts) => SubmitBalanced(m, id, opts);
      case Take(choice) => TakeBalanced(m, choice);
      case Start => StartBalanced(m);
      case Progress(_, _) => BuildingBalanced(m, e);
      case Finish(_, _) => BuildingBalanced(m, e);
      case _ => IdleBalanced(m, e);
    }
  }

  lemma {:induction false} RunBalanced(m: Manager, events: seq<Event>)
    requires Reached(m, events)
    ensures Balanced(m) && WorkerSound(m)
    decreases |events|
  {
    if events == [] {
      forall path ensures BalancedAt(m, path) { assert QueuedIds(m.jobs, path) == {}; }
    } else {
      var q :| Reached(q, events[..|events| - 1]) && StepTo(q, events[|events| - 1], m);
      RunBalanced(q, events[..|events| - 1]);
      StepBalanced(q, events[|events| - 1]);
    }
  }

  /**
   In every run with fresh ids: whenever the worker is at the top of its loop, for every model path
   the queue holds as many entries as there are queued jobs, and a dequeued entry always finds a job,
   so the worker never skips one.
   */
  lemma QueueMatchesJobs(m: Manager, events: seq<Event>, path: string, choice: Option<nat>)
    requires Reached(m, events)
    ensures m.worker.AtTop? ==> CountPath(m.queue, path) == |QueuedIds(m.jobs, path)|
    ensures Can(m, Take(choice)) ==> choice.Some?
    ensures !Can(m, Skip)
  {
    RunBalanced(m, events);
    assert BalancedAt(m, path);
    if Can(m, Take(choice)) { NeverSkips(m, choice); }
  }

  // ---------------------------------------------------------------- status

  function Rank(s: Status): nat { match s case Queued => 0 case Running => 1 case Completed => 2 case Failed => 2 }

  /** From Queued to Running to Completed or Failed, one at a time; a finished job never changes again. */
  lemma StatusOnlyAdvances(m: Manager, events: seq<Event>, e: Event, id: nat)
    requires Reached(m, events) && Can(m, e) && id in m.jobs
    ensures var m' := Next(m, e);
            && id in m'.jobs && m'.jobs[id].options == m.jobs[id].options
            && Rank(m.jobs[id].status) <= Rank(m'.jobs[id].status) <= Rank(m.jobs[id].status) + 1
            && (Rank(m.jobs[id].status) == 2 ==> m'.jobs[id] == m.jobs[id])
  {
    RunBalanced(m, events);
  }

  /** What a client can read off a job, stage by stage. */
  ghost predicate Tells(j: Job) {
    && (j.status == Queued ==> j.progress == 0 && j.message == "" && j.error == "" && j.engineSize == 0)
    && (j.status == Running ==> j.error == "" && j.engineSize == 0)
    && (j.status == Completed ==> j.progress == 100 && j.message == "Conversion complete" && j.error == "")
    && (j.status == Failed ==> j.error == j.message && j.engineSize == 0)
  }

  lemma {:induction false} JobsTell(m: Manager, events: seq<Event>)
    requires Reached(m, events)
    ensures forall id :: id in m.jobs ==> Tells(m.jobs[id])
    decreases |events|
  {
    if events != [] {
      var q :| Reached(q, events[..|events| - 1]) && StepTo(q, events[|events| - 1], m);
      JobsTell(q, events[..|events| - 1]);
      RunBalanced(q, events[..|events| - 1]);
      StepTells(q, events[|events| - 1]);
    }
  }

  lemma StepTells(m: Manager, e: Event)
    requires WorkerSound(m) && Can(m, e) && forall id :: id in m.jobs ==> Tells(m.jobs[id])
    ensures forall id :: id in Next(m, e).jobs ==> Tells(Next(m, e).jobs[id])
  {
  }

  /**
   How a conversion ends, in every run: a build that succeeds leaves its job completed, with the size
   of the engine file it wrote; one that fails leaves it failed, with the last message as the error.
   The worker is free again, and no other job is touched.
   */
  lemma ConversionEnds(m: Manager, events: seq<Event>, ok: bool, size: nat, m': Manager)
    requires Reached(m, events) && StepTo(m, Finish(ok, size), m')
    ensures m.worker.Building? && m.worker.job in m.jobs && m.worker.job in m'.jobs
    ensures m.jobs[m.worker.job].status == Running && m'.jobs[m.worker.job].options == m.jobs[m.worker.job].options
    ensures var j := m'.jobs[m.worker.job];
            if ok then j.status == Completed && j.progress == 100 && j.message == "Conversion complete" && j.error == "" && j.engineSize == size
            else j.status == Failed && j.error == j.message == m.jobs[m.worker.job].message && j.engineSize == 0
    ensures m'.worker == AtTop && m'.jobs.Keys == m.jobs.Keys && m'.queue == m.queue && m'.order == m.order
    ensures forall id :: id in m.jobs && id != m.worker.job ==> m'.jobs[id] == m.jobs[id]
  {
    RunBalanced(m, events);
    JobsTell(m, events);
    StepReached(m, events, Finish(ok, size), m');
    JobsTell(m', events + [Finish(ok, size)]);
  }

  lemma StepReached(m: Manager, events: seq<Event>, e: Event, m': Manager)
    requires Reached(m, events) && StepTo(m, e, m')
    ensures Reached(m', events + [e])
  {
    assert (events + [e])[..|events + [e]| - 1] == events;
  }

  // ---------------------------------------------------------------- which job is run

  /** The queue's entries are the options of the jobs they were submitted with, and those are the queued jobs. */
  ghost predicate Aligned(m: Manager) {
    && |m.submitted| == |m.queue| && NoDuplicates(m.submitted)
    && (forall i :: 0 <= i < |m.submitted| ==> m.submitted[i] in m.jobs && m.jobs[m.submitted[i]].options == m.queue[i])
    && (forall id :: id in m.jobs && m.jobs[id].status == Queued ==> id in m.submitted || InWorkersHand(m.worker, id))
    && (forall i :: 0 <= i < |m.submitted| ==> m.jobs[m.submitted[i]].status == Queued && !InWorkersHand(m.worker, m.submitted[i]))
    && (m.worker.Matched? && m.worker.found.Some? && m.worker.found.value in m.jobs ==> m.jobs[m.worker.found.value].options == m.worker.opts)
  }

  predicate InWorkersHand(w: Worker, id: nat) { w.Matched? && w.found == Some(id) }

  ghost predicate DistinctPaths(jobs: map<nat, Job>) {
    forall a, b :: a in jobs && b in jobs && a != b ==> jobs[a].options.onnxPath != jobs[b].options.onnxPath
  }

  /** Every queue entry is the options of a recorded job, the one it was submitted with. */
  ghost predicate Recorded(m: Manager) {
    && |m.submitted| == |m.queue|
    && forall i :: 0 <= i < |m.submitted| ==> m.submitted[i] in m.jobs && m.jobs[m.submitted[i]].options == m.queue[i]
  }

  lemma StepRecorded(m: Manager, e: Event)
    requires Recorded(m) && WorkerSound(m) && Can(m, e)
    ensures Recorded(Next(m, e))
  {
    if e.Take? {
      assert forall i :: 0 <= i < |m.queue| - 1 ==> m.queue[1..][i] == m.queue[i + 1] && m.submitted[1..][i] == m.submitted[i + 1];
    }
  }

  lemma {:induction false} RunRecorded(m: Manager, events: seq<Event>)
    requires Reached(m, events)
    ensures Recorded(m)
    decreases |events|
  {
    if events != [] {
      var q :| Reached(q, events[..|events| - 1]) && StepTo(q, events[|events| - 1], m);
      RunRecorded(q, events[..|events| - 1]);
      RunBalanced(q, events[..|events| - 1]);
      StepRecorded(q, events[|events| - 1]);
    }
  }

  /**
   In every reached state at the top of the loop: the entry about to be dequeued is the options of the
   job it was submitted with, and that job is the one found, for every order of the scan, exactly when
   no other queued job has its model path.
   */
  lemma RightJobIff(m: Manager, events: seq<Event>)
    requires Reached(m, events) && m.worker.AtTop? && m.running && m.queue != []
    ensures |m.submitted| == |m.queue| && m.submitted[0] in m.jobs && m.jobs[m.submitted[0]].options == m.queue[0]
    ensures (forall choice :: Can(m, Take(choice)) ==> choice == Some(m.submitted[0]))
            <==> forall id :: id in m.jobs && Matches(m.jobs[id], m.queue[0]) ==> id == m.submitted[0]
  {
    RunRecorded(m, events);
    RunBalanced(m, events);
    if forall choice :: Can(m, Take(choice)) ==> choice == Some(m.submitted[0]) {
      forall id | id in m.jobs && Matches(m.jobs[id], m.queue[0]) ensures id == m.submitted[0] {
        assert Can(m, Take(Some(id)));
      }
    }
    if forall id :: id in m.jobs && Matches(m.jobs[id], m.queue[0]) ==> id == m.submitted[0] {
      forall choice | Can(m, Take(choice)) ensures choice == Some(m.submitted[0]) { NeverSkips(m, choice); }
    }
  }

  /** At most one queued job has the model path of the next entry. */
  ghost predicate OneMatch(m: Manager) {
    m.queue != [] ==> forall a, b :: IsMatch(m.jobs, m.queue[0], a) && IsMatch(m.jobs, m.queue[0], b) ==> a == b
  }

  /** A run that never dequeued while two queued jobs had the entry's model path. */
  ghost predicate ReachedApart(m: Manager, events: seq<Event>)
    decreases |events|
  {
    if events == [] then m == Unstarted
    else
      var earlier, last := events[..|events| - 1], events[|events| - 1];
      exists q :: ReachedApart(q, earlier) && ApartStep(q, last, m)
  }

  ghost predicate ApartStep(m: Manager, e: Event, m': Manager) { StepTo(m, e, m') && (e.Take? ==> OneMatch(m)) }

  lemma TakeAligned(m: Manager, choice: Option<nat>)
    requires Aligned(m) && OneMatch(m) && Can(m, Take(choice))
    ensures choice == Some(m.submitted[0]) && Aligned(Next(m, Take(choice)))
  {
    TakenIsSubmitted(m, choice);
    FirstLeaves(m);
  }

  lemma TakenIsSubmitted(m: Manager, choice: Option<nat>)
    requires Aligned(m) && OneMatch(m) && Can(m, Take(choice))
    ensures choice == Some(m.submitted[0])
  {
    assert IsMatch(m.jobs, m.queue[0], m.submitted[0]);
  }

  /** The oldest entry goes from the queue into the worker's hands. */
  lemma FirstLeaves(m: Manager)
    requires Aligned(m) && m.worker.AtTop? && m.queue != []
    ensures Aligned(m.(queue := m.queue[1..], submitted := m.submitted[1..], worker := Matched(m.queue[0], Some(m.submitted[0]))))
  {
    var rest := m.submitted[1..];
    assert forall i :: 0 <= i < |rest| ==> rest[i] == m.submitted[i + 1] && m.queue[1..][i] == m.queue[i + 1];
    forall id | id in m.submitted && id != m.submitted[0] ensures id in rest {
      var i :| 0 <= i < |m.submitted| && m.submitted[i] == id;
      assert rest[i - 1] == id;
    }
  }

  lemma SubmitAligned(m: Manager, id: nat, opts: Options)
    requires Aligned(m) && WorkerSound(m) && id !in m.jobs
    ensures Aligned(Next(m, Submit(id, opts)))
  {
    var m' := Next(m, Submit(id, opts));
    assert m'.submitted[|m.submitted|] == id;
    forall k | k in m'.jobs && m'.jobs[k].status == Queued ensures k in m'.submitted || InWorkersHand(m'.worker, k) {
      if k != id && k in m.submitted {
        var i :| 0 <= i < |m.submitted| && m.submitted[i] == k;
        assert m'.submitted[i] == k;
      }
    }
  }

  lemma OtherAligned(m: Manager, e: Event)
    requires Aligned(m) && WorkerSound(m) && Can(m, e) && !e.Submit? && !e.Take?
    ensures Aligned(Next(m, e))
  {
    if e.Start? { StartAligned(m); } else if e.Progress? || e.Finish? { BuildingAligned(m, e); }
  }

  lemma StartAligned(m: Manager)
    requires Aligned(m) && WorkerSound(m) && Can(m, Start)
    ensures Aligned(Next(m, Start))
  {
  }

  lemma BuildingAligned(m: Manager, e: Event)
    requires Aligned(m) && WorkerSound(m) && Can(m, e) && (e.Progress? || e.Finish?)
    ensures Aligned(Next(m, e))
  {
  }

  lemma {:induction false} RunAligned(m: Manager, events: seq<Event>)
    requires ReachedApart(m, events)
    ensures Reached(m, events) && Aligned(m)
    decreases |events|
  {
    if events != [] {
      var last := events[|events| - 1];
      var q :| ReachedApart(q, events[..|events| - 1]) && ApartStep(q, last, m);
      RunAligned(q, events[..|events| - 1]);
      RunBalanced(q, events[..|events| - 1]);
      match last {
        case Submit(id, opts) => SubmitAligned(q, id, opts);
        case Take(choice) => TakeAligned(q, choice);
        case _ => OtherAligned(q, last);
      }
    }
  }

  /**
   Converting a model again and again is safe as long as no two of its jobs are queued when one is
   dequeued: then each job is built with its own options, oldest first.
   */
  lemma OneMatchRunsRightJob(m: Manager, events: seq<Event>, choice: Option<nat>)
    requires ReachedApart(m, events) && OneMatch(m) && Can(m, Take(choice))
    ensures choice.Some? && choice.value in m.jobs && m.jobs[choice.value].options == m.queue[0]
    ensures m.submitted != [] && choice.value == m.submitted[0]
  {
    RunAligned(m, events);
    TakeAligned(m, choice);
  }

  /** Jobs keep their options, so paths that are distinct now were distinct before. */
  lemma EarlierDistinct(m: Manager, e: Event)
    requires Can(m, e) && WorkerSound(m) && DistinctPaths(Next(m, e).jobs)
    ensures DistinctPaths(m.jobs)
  {
    var later := Next(m, e).jobs;
    assert forall id :: id in m.jobs ==> id in later && later[id].options == m.jobs[id].options;
  }

  lemma {:induction false} DistinctApart(m: Manager, events: seq<Event>)
    requires Reached(m, events) && DistinctPaths(m.jobs)
    ensures ReachedApart(m, events)
    decreases |events|
  {
    if events != [] {
      var last := events[|events| - 1];
      var q :| Reached(q, events[..|events| - 1]) && StepTo(q, last, m);
      RunBalanced(q, events[..|events| - 1]);
      EarlierDistinct(q, last);
      DistinctApart(q, events[..|events| - 1]);
      assert ApartStep(q, last, m);
    }
  }

  /** In every run in which no two submissions name the same model, each job is built with its own options, oldest first. */
  lemma DistinctPathsRunRightJob(m: Manager, events: seq<Event>, choice: Option<nat>)
    requires Reached(m, events) && DistinctPaths(m.jobs) && Can(m, Take(choice))
    ensures choice.Some? && choice.value in m.jobs && m.jobs[choice.value].options == m.queue[0]
    ensures m.submitted != [] && choice.value == m.submitted[0]
  {
    DistinctApart(m, events);
    OneMatchRunsRightJob(m, events, choice);
  }

  /** Two submissions of the same model to different files: the second job may be run with the first one's options. */
  lemma SameModelMayBeMixedUp(a: Options, b: Options)
    requires a.onnxPath == b.onnxPath && a.enginePath != b.enginePath
    ensures var m := Next(Next(Unstarted, Submit(1, a)), Submit(2, b));
            && Can(m, Take(Some(2)))
            && Next(m, Take(Some(2))).worker == Matched(a, Some(2)) && m.jobs[2].options == b != a
  {
  }
}
