/**
The worker pool that refreshes the domain metadata cache.

Any number of workers share a queue of chunks, a counter of outstanding chunks, an abort
flag and a progress mark. `queueMutex` guards only the queue; the counter, the flag and
the mark are atomics that other workers may change between any two loads. One step of the
model is therefore one access to shared state by one worker, and a run is an arbitrary
interleaving of such steps.
*/
module WorkPool {
  import opened Arithmetic
  import opened Sequences
  import opened Wrappers

  type DomainId(!new, ==)
  type Desc(!new, ==)

  /** What a run works on: the chunks, the description each domain would get now (absent
      when the domain is unknown or has no description), and the cache before the run. */
  datatype Job = Job(chunks: seq<seq<DomainId>>, current: map<DomainId, Desc>, before: map<DomainId, Desc>)

  /** Where a worker stands inside the processing of one task. */
  datatype Stage =
    | Look                          // at the loop head, about to load the abort flag
    | Count                         // description stored, about to bump the processed count
    | Compare(progress: nat)        // about to load the last reported progress
    | Swap(progress: nat, seen: nat) // about to compare-and-swap it
    | Tell(progress: nat)           // has set the mark, about to hand it to the progress callback
    | Publish                       // about to merge the local results into the cache
    | Finish                        // about to decrement the outstanding counter

  datatype Worker =
    | Top                           // about to lock the queue mutex
    | Test(woken: bool)             // holds the mutex, about to load the abort flag
    | Drained(woken: bool)          // holds the mutex, about to test for a drained pool
    | Sleeping                      // waits on the condition variable
    | Taking                        // holds the mutex, about to pop
    | Busy(task: Option<nat>, i: nat, local: map<DomainId, Desc>, stage: Stage)
    | Exited(clean: bool)           // clean: left because the pool was drained

  /** Where the chunks are. The last three fields are history: the code keeps no such record. */
  datatype Tasks = Tasks(
    queue: seq<nat>,                // chunk numbers still queued
    active: int,                    // activeTasks
    abort: bool,
    inHand: map<nat, nat>,          // popped chunks and the worker that has each
    finished: set<nat>,             // chunks whose completion was counted
    abandoned: set<nat>)            // chunks of workers that threw

  datatype Progress = Progress(
    processed: nat,
    last: nat,                      // lastReportedProgress
    marks: seq<nat>,                // every value swapped into it
    reports: seq<nat>)              // every value the callback then showed, in the order it did

  datatype Pool = Pool(
    tasks: Tasks,
    holder: Option<nat>,            // the worker that holds the queue mutex
    progress: Progress,
    cache: map<DomainId, Desc>,
    workers: seq<Worker>)

  // ---------- The steps ----------

  function Items(j: Job, task: Option<nat>): seq<DomainId>
  {
    if task.Some? && task.value < |j.chunks| then j.chunks[task.value] else []
  }

  /** How many of some domains have a description, each occurrence counted. */
  function DescribedIn(j: Job, items: seq<DomainId>): (d: nat)
    ensures d <= |items|
  {
    if items == [] then 0 else (if items[0] in j.current then 1 else 0) + DescribedIn(j, items[1..])
  }

  /** The same for the chunks from chunk `from` on. */
  function DescribedFrom(j: Job, from: nat): nat
    decreases |j.chunks| - from
  {
    if from >= |j.chunks| then 0 else DescribedIn(j, j.chunks[from]) + DescribedFrom(j, from + 1)
  }

  function Described(j: Job): nat { DescribedFrom(j, 0) }

  /** Sum of the chunk lengths from chunk `from` on. */
  function ItemsFrom(j: Job, from: nat): nat
    decreases |j.chunks| - from
  {
    if from >= |j.chunks| then 0 else |j.chunks[from]| + ItemsFrom(j, from + 1)
  }

  function Total(j: Job): nat { ItemsFrom(j, 0) }

  /** The whole percentage that `p` processed domains make. */
  function Percent(j: Job, p: nat): nat { if Total(j) == 0 then 0 else p * 100 / Total(j) }

  /** The wait predicate of the condition variable. */
  predicate Ready(s: Pool) { s.tasks.queue != [] || s.tasks.abort || s.tasks.active == 0 }

  predicate HoldsMutex(wk: Worker) { wk.Test? || wk.Drained? || wk.Taking? }

  /** A worker may throw while it looks up and describes domains or reports progress. */
  predicate CanThrow(wk: Worker) { wk.Busy? && !wk.stage.Publish? && !wk.stage.Finish? }

  /** Whether worker w can take its next step. */
  predicate Enabled(s: Pool, w: nat)
  {
    w < |s.workers| &&
    match s.workers[w]
    case Top => s.holder.None?
    case Sleeping => s.holder.None? && Ready(s)
    case Exited(_) => false
    case _ => true
  }

  function Put(s: Pool, w: nat, wk: Worker): Pool
    requires w < |s.workers|
  {
    s.(workers := s.workers[w := wk])
  }

  /** The normal step of worker w. */
  function Step(j: Job, s: Pool, w: nat): Pool
    requires Enabled(s, w)
  {
    if s.workers[w].Busy? then BusyStep(j, s, w) else QueueStep(s, w)
  }

  /** A step outside task processing: entering, testing, sleeping, popping, leaving. */
  function QueueStep(s: Pool, w: nat): Pool
    requires Enabled(s, w) && !s.workers[w].Busy?
  {
    match s.workers[w]
    case Top => Put(s.(holder := Some(w)), w, Test(false))
    case Sleeping => Put(s.(holder := Some(w)), w, Test(true))
    case Test(woken) =>
      if s.tasks.abort then Put(s.(holder := None), w, Exited(false)) else Put(s, w, Drained(woken))
    case Drained(woken) =>
      if s.tasks.queue == [] && s.tasks.active == 0 then Put(s.(holder := None), w, Exited(true))
      else if s.tasks.queue == [] && !woken then Put(s.(holder := None), w, Sleeping)
      else Put(s, w, Taking)
    case Taking =>
      if s.tasks.queue == [] then Put(s.(holder := None), w, Busy(None, 0, map[], Look))
      else
        var c := s.tasks.queue[0];
        Put(s.(holder := None, tasks := s.tasks.(queue := s.tasks.queue[1..], inHand := s.tasks.inHand[c := w])), w,
          Busy(Some(c), 0, map[], Look))
  }

  /** A step inside task processing. */
  function BusyStep(j: Job, s: Pool, w: nat): Pool
    requires w < |s.workers| && s.workers[w].Busy?
  {
    var Busy(task, i, local, stage) := s.workers[w];
    match stage
    case Look =>
      var items := Items(j, task);
      if i >= |items| || s.tasks.abort then Put(s, w, Busy(task, i, local, Publish))
      else if items[i] !in j.current then Put(s, w, Busy(task, i + 1, local, Look))
      else Put(s, w, Busy(task, i, local[items[i] := j.current[items[i]]], Count))
    case Count =>
      var counted := s.progress.(processed := s.progress.processed + 1);
      Put(s.(progress := counted), w, Busy(task, i, local, Compare(Percent(j, counted.processed))))
    case Compare(progress) =>
      if progress > s.progress.last then Put(s, w, Busy(task, i, local, Swap(progress, s.progress.last)))
      else Put(s, w, Busy(task, i + 1, local, Look))
    case Swap(progress, seen) =>
      if s.progress.last != seen then Put(s, w, Busy(task, i + 1, local, Look))
      else
        var marked := s.progress.(last := progress, marks := s.progress.marks + [progress]);
        Put(s.(progress := marked), w, Busy(task, i, local, Tell(progress)))
    case Tell(progress) =>
      var told := s.progress.(reports := s.progress.reports + [progress]);
      Put(s.(progress := told), w, Busy(task, i + 1, local, Look))
    case Publish =>
      Put(s.(cache := s.cache + local), w, Busy(task, i, local, Finish))
    case Finish =>
      var done := if task.Some? then {task.value} else {};
      Put(s.(tasks := s.tasks.(active := s.tasks.active - 1, finished := s.tasks.finished + done,
        inHand := s.tasks.inHand - done)), w, Top)
  }

  /** The step in which worker w throws: the exception is recorded, the abort flag raised,
      and the worker leaves without touching the outstanding counter. */
  function Throw(s: Pool, w: nat): Pool
    requires w < |s.workers| && CanThrow(s.workers[w])
  {
    var task := s.workers[w].task;
    var lost := if task.Some? then {task.value} else {};
    Put(s.(tasks := s.tasks.(abort := true, abandoned := s.tasks.abandoned + lost, inHand := s.tasks.inHand - lost)),
      w, Exited(false))
  }

  ghost predicate Next(j: Job, s: Pool, s': Pool)
  {
    exists w: nat :: StepOf(j, s, w, s')
  }

  ghost predicate StepOf(j: Job, s: Pool, w: nat, s': Pool)
  {
    || (Enabled(s, w) && s' == Step(j, s, w))
    || (w < |s.workers| && CanThrow(s.workers[w]) && s' == Throw(s, w))
  }

  /** The pool just before the workers start. */
  function Initial(j: Job, n: nat): Pool
  {
    Pool(Tasks(seq(|j.chunks|, k => k), |j.chunks|, false, map[], {}, {}), None, Progress(0, 0, [], []), j.before,
      seq(n, _ => Top))
  }

  ghost predicate IsRun(j: Job, n: nat, run: seq<Pool>)
  {
    && |run| > 0
    && run[0] == Initial(j, n)
    && forall k :: 0 <= k < |run| - 1 ==> Next(j, run[k], run[k + 1])
  }

  // ---------- The invariant ----------

  /** Number of chunks already popped. */
  function Popped(j: Job, s: Pool): int { |j.chunks| - |s.tasks.queue| }

  /** Every popped chunk is in exactly one place: finished, abandoned, or in one worker's hands. */
  ghost predicate Partition(j: Job, s: Pool)
  {
    && Popped(j, s) >= 0
    && (forall k :: 0 <= k < |s.tasks.queue| ==> s.tasks.queue[k] == Popped(j, s) + k)
    && s.tasks.finished !! s.tasks.abandoned
    && s.tasks.finished !! s.tasks.inHand.Keys
    && s.tasks.abandoned !! s.tasks.inHand.Keys
    && (forall c :: c in s.tasks.finished ==> c < Popped(j, s))
    && (forall c :: c in s.tasks.abandoned ==> c < Popped(j, s))
    && (forall c :: c in s.tasks.inHand ==> c < Popped(j, s))
    && (forall c: nat :: c < Popped(j, s) ==> c in s.tasks.finished || c in s.tasks.abandoned || c in s.tasks.inHand)
    && (forall c :: c in s.tasks.inHand ==> s.tasks.inHand[c] < |s.workers| && Has(s.workers[s.tasks.inHand[c]], c))
    && s.tasks.active == |j.chunks| - |s.tasks.finished|
    && (s.tasks.abort <==> s.tasks.abandoned != {})
  }

  predicate Has(wk: Worker, c: nat) { wk.Busy? && wk.task == Some(c) }

  /** A worker that processes a task is the one recorded as having it. */
  ghost predicate OwnTask(s: Pool, w: nat)
    requires w < |s.workers|
  {
    var wk := s.workers[w];
    wk.Busy? ==> wk.task.Some? && wk.task.value in s.tasks.inHand && s.tasks.inHand[wk.task.value] == w
  }

  ghost predicate MutexOk(s: Pool)
  {
    && (forall w :: 0 <= w < |s.workers| && HoldsMutex(s.workers[w]) ==> s.holder == Some(w))
    && (s.holder.Some? ==> s.holder.value < |s.workers| && HoldsMutex(s.workers[s.holder.value]))
  }

  /** The descriptions a worker has collected after the first i items. */
  function Collected(j: Job, items: seq<DomainId>, i: nat): map<DomainId, Desc>
    requires i <= |items|
  {
    map id | id in items[..i] && id in j.current :: j.current[id]
  }

  predicate Counted(stage: Stage) { stage.Compare? || stage.Swap? || stage.Tell? }

  predicate Counting(stage: Stage) { stage.Count? || Counted(stage) }

  /** What holds of one worker, given the shared state. */
  ghost predicate WorkerOk(j: Job, s: Pool, wk: Worker)
  {
    match wk
    case Test(woken) => woken ==> Ready(s)
    case Drained(woken) => woken ==> s.tasks.queue != [] || s.tasks.active == 0
    case Taking => s.tasks.queue != []
    case Exited(clean) => if clean then s.tasks.queue == [] && s.tasks.active == 0 else s.tasks.abort
    case Busy(task, i, local, stage) =>
      && task.Some? && task.value < |j.chunks|
      && var items := j.chunks[task.value];
      && i <= |items|
      && (Counting(stage) ==> i < |items| && items[i] in j.current && local == Collected(j, items, i + 1))
      && (stage.Look? || stage.Publish? || stage.Finish? ==> local == Collected(j, items, i))
      && (stage.Publish? || stage.Finish? ==> i == |items| || s.tasks.abort)
      && (Counted(stage) ==> stage.progress <= Percent(j, s.progress.processed))
      && (stage.Swap? ==> stage.seen < stage.progress)
      && (stage.Finish? && !s.tasks.abort ==> Shown(j, s.cache, task.value))
    case _ => true
  }

  /** The cache shows the fresh description of every domain of chunk c that has one. */
  ghost predicate Shown(j: Job, cache: map<DomainId, Desc>, c: nat)
  {
    c < |j.chunks| ==>
      forall id :: id in j.chunks[c] && id in j.current ==> id in cache && cache[id] == j.current[id]
  }

  predicate Listed(j: Job, id: DomainId)
  {
    exists c :: 0 <= c < |j.chunks| && id in j.chunks[c]
  }

  ghost predicate CacheOk(j: Job, s: Pool)
  {
    && (forall id :: id in j.before ==> id in s.cache)
    && (forall id :: id in s.cache ==>
          || (id in j.before && s.cache[id] == j.before[id])
          || (Listed(j, id) && id in j.current && s.cache[id] == j.current[id]))
    && (!s.tasks.abort ==> forall c :: c in s.tasks.finished ==> Shown(j, s.cache, c))
  }

  predicate Increasing(xs: seq<nat>) { forall a, b :: 0 <= a < b < |xs| ==> xs[a] < xs[b] }

  ghost predicate MarksOk(j: Job, s: Pool)
  {
    && Increasing(s.progress.marks)
    && s.progress.last == (if s.progress.marks == [] then 0 else s.progress.marks[|s.progress.marks| - 1])
    && s.progress.last <= Percent(j, s.progress.processed)
    && (s.progress.marks != [] ==> s.progress.marks[0] > 0)
  }

  /** How many workers have set mark m and not yet told it. */
  function Telling(ws: seq<Worker>, m: nat): nat
  {
    if ws == [] then 0 else Telling(ws[..|ws| - 1], m) + Untold(ws[|ws| - 1], m)
  }

  function Untold(wk: Worker, m: nat): nat
  {
    if wk.Busy? && wk.stage == Tell(m) then 1 else 0
  }

  /** Every mark is told at most once; without an exception none is dropped. */
  ghost predicate ToldOk(s: Pool)
  {
    forall m: nat :: ToldFor(s, m)
  }

  ghost predicate ToldFor(s: Pool, m: nat)
  {
    var told := multiset(s.progress.reports)[m] + Telling(s.workers, m);
    told <= multiset(s.progress.marks)[m] && (!s.tasks.abort ==> told == multiset(s.progress.marks)[m])
  }

  /** Domains a worker may still count. */
  function Uncounted(j: Job, wk: Worker): nat
  {
    if !wk.Busy? then 0
    else
      var items, next := Items(j, wk.task), if Counted(wk.stage) then wk.i + 1 else wk.i;
      if next > |items| then 0 else DescribedIn(j, items[next..])
  }

  function SumUncounted(j: Job, ws: seq<Worker>): nat
  {
    if ws == [] then 0 else SumUncounted(j, ws[..|ws| - 1]) + Uncounted(j, ws[|ws| - 1])
  }

  ghost predicate CountOk(j: Job, s: Pool)
    requires Popped(j, s) >= 0
  {
    var counted := s.progress.processed + DescribedFrom(j, Popped(j, s)) + SumUncounted(j, s.workers);
    counted <= Described(j) && (!s.tasks.abort ==> counted == Described(j))
  }

  ghost predicate Inv(j: Job, s: Pool)
  {
    && Partition(j, s)
    && MutexOk(s)
    && (forall w :: 0 <= w < |s.workers| ==> OwnTask(s, w) && WorkerOk(j, s, s.workers[w]))
    && CacheOk(j, s)
    && MarksOk(j, s)
    && ToldOk(s)
    && CountOk(j, s)
  }

  // ---------- Preservation ----------

  lemma {:induction false} SumUncountedPut(j: Job, ws: seq<Worker>, w: nat, wk: Worker)
    requires w < |ws|
    ensures SumUncounted(j, ws[w := wk]) == SumUncounted(j, ws) - Uncounted(j, ws[w]) + Uncounted(j, wk)
  {
    var us := ws[w := wk];
    if w == |ws| - 1 {
      assert us[..|us| - 1] == ws[..|ws| - 1];
    } else {
      assert us[..|us| - 1] == ws[..|ws| - 1][w := wk];
      SumUncountedPut(j, ws[..|ws| - 1], w, wk);
    }
  }

  lemma {:induction false} SumUncountedTops(j: Job, n: nat)
    ensures SumUncounted(j, seq(n, _ => Top)) == 0
  {
    if n > 0 {
      var ws: seq<Worker> := seq(n, _ => Top);
      assert ws[..n - 1] == seq(n - 1, _ => Top);
      SumUncountedTops(j, n - 1);
    }
  }

  lemma {:induction false} TellingPut(ws: seq<Worker>, w: nat, wk: Worker, m: nat)
    requires w < |ws|
    ensures Telling(ws[w := wk], m) == Telling(ws, m) - Untold(ws[w], m) + Untold(wk, m)
  {
    var us := ws[w := wk];
    if w == |ws| - 1 {
      assert us[..|us| - 1] == ws[..|ws| - 1];
    } else {
      assert us[..|us| - 1] == ws[..|ws| - 1][w := wk];
      TellingPut(ws[..|ws| - 1], w, wk, m);
    }
  }

  lemma {:induction false} NobodyTells(ws: seq<Worker>, m: nat)
    requires forall w :: 0 <= w < |ws| ==> !ws[w].Busy?
    ensures Telling(ws, m) == 0
  {
    if ws != [] { NobodyTells(ws[..|ws| - 1], m); }
  }

  lemma InitialInv(j: Job, n: nat)
    ensures Inv(j, Initial(j, n))
  {
    SumUncountedTops(j, n);
    assert forall w :: 0 <= w < n ==> Initial(j, n).workers[w] == Top;
    forall m: nat ensures ToldFor(Initial(j, n), m) {
      NobodyTells(Initial(j, n).workers, m);
    }
  }

  lemma {:induction false} SumUncountedAtLeast(j: Job, ws: seq<Worker>, w: nat)
    requires w < |ws|
    ensures Uncounted(j, ws[w]) <= SumUncounted(j, ws)
  {
    if w < |ws| - 1 {
      SumUncountedAtLeast(j, ws[..|ws| - 1], w);
    }
  }

  lemma {:induction false} SubsetOfRange(xs: set<nat>, n: nat)
    requires forall x :: x in xs ==> x < n
    ensures |xs| <= n
    ensures |xs| == n ==> forall x: nat :: x < n ==> x in xs
  {
    if n == 0 {
      assert xs == {};
    } else {
      SubsetOfRange(xs - {n - 1}, n - 1);
      assert forall x: nat :: x < n - 1 && x in xs - {n - 1} ==> x in xs;
    }
  }

  /** The counter never underflows: while a chunk is in some worker's hands it is positive. */
  lemma OutstandingWhileHeld(j: Job, s: Pool, c: nat)
    requires Partition(j, s) && c in s.tasks.inHand
    ensures s.tasks.active >= 1
  {
    SubsetOfRange(s.tasks.finished, |j.chunks|);
    assert c !in s.tasks.finished && c < |j.chunks|;
  }

  /** A step that leaves the chunks where they are. */
  lemma PartitionFrame(j: Job, s: Pool, s': Pool, w: nat)
    requires Partition(j, s) && w < |s.workers| == |s'.workers|
    requires s'.tasks == s.tasks && s'.workers == s.workers[w := s'.workers[w]]
    requires s.workers[w].Busy? ==> s'.workers[w].Busy? && s'.workers[w].task == s.workers[w].task
    ensures Partition(j, s')
  {
  }

  lemma QueueStepPartition(j: Job, s: Pool, w: nat)
    requires Partition(j, s) && Enabled(s, w) && !s.workers[w].Busy? && (s.workers[w].Taking? ==> s.tasks.queue != [])
    ensures Partition(j, QueueStep(s, w))
  {
    if !s.workers[w].Taking? {
      PartitionFrame(j, s, QueueStep(s, w), w);
    }
  }

  /** Worker w lets go of chunk c, which joins the finished or the abandoned ones. */
  lemma PartitionRelease(j: Job, s: Pool, s': Pool, w: nat, c: nat)
    requires Partition(j, s) && w < |s.workers| && c in s.tasks.inHand && s.tasks.inHand[c] == w
    requires |s'.workers| == |s.workers| && s'.workers == s.workers[w := s'.workers[w]]
    requires Has(s.workers[w], c)
    requires
      var t := s.tasks.(inHand := s.tasks.inHand - {c});
      || s'.tasks == t.(finished := t.finished + {c}, active := t.active - 1)
      || s'.tasks == t.(abandoned := t.abandoned + {c}, abort := true)
    ensures Partition(j, s')
  {
  }

  lemma BusyStepTasks(j: Job, s: Pool, w: nat)
    requires w < |s.workers| && s.workers[w].Busy? && s.workers[w].task.Some?
    ensures var s' := BusyStep(j, s, w);
      && |s'.workers| == |s.workers| && s'.workers == s.workers[w := s'.workers[w]]
      && if s.workers[w].stage.Finish? then
           var c := s.workers[w].task.value;
           s'.tasks == s.tasks.(inHand := s.tasks.inHand - {c}, finished := s.tasks.finished + {c},
             active := s.tasks.active - 1)
         else s'.tasks == s.tasks && s'.workers[w].Busy? && s'.workers[w].task == s.workers[w].task
  {
  }

  lemma BusyStepPartition(j: Job, s: Pool, w: nat, s': Pool)
    requires Partition(j, s) && Enabled(s, w) && OwnTask(s, w) && s.workers[w].Busy? && s' == BusyStep(j, s, w)
    ensures Partition(j, s')
  {
    BusyStepTasks(j, s, w);
    if s.workers[w].stage.Finish? {
      PartitionRelease(j, s, s', w, s.workers[w].task.value);
    } else {
      PartitionFrame(j, s, s', w);
    }
  }

  lemma QueueStepMutex(s: Pool, w: nat)
    requires MutexOk(s) && Enabled(s, w) && !s.workers[w].Busy?
    ensures MutexOk(QueueStep(s, w))
  {
  }

  lemma BusyStepCache(j: Job, s: Pool, w: nat)
    requires CacheOk(j, s) && Enabled(s, w) && s.workers[w].Busy? && WorkerOk(j, s, s.workers[w])
    ensures CacheOk(j, BusyStep(j, s, w))
    ensures forall c: nat :: Shown(j, s.cache, c) ==> Shown(j, BusyStep(j, s, w).cache, c)
  {
  }

  lemma BusyStepMarks(j: Job, s: Pool, w: nat)
    requires MarksOk(j, s) && Enabled(s, w) && s.workers[w].Busy? && WorkerOk(j, s, s.workers[w])
    ensures MarksOk(j, BusyStep(j, s, w))
  {
    PercentMonotone(j, s.progress.processed, s.progress.processed + 1);
  }

  lemma PercentMonotone(j: Job, p: nat, q: nat)
    requires p <= q
    ensures Percent(j, p) <= Percent(j, q)
  {
    if Total(j) > 0 { DivMonotone(p * 100, q * 100, Total(j)); }
  }

  lemma DivMonotone(a: nat, b: nat, d: nat)
    requires a <= b && d > 0
    ensures a / d <= b / d
  {
    var q, r := a / d, b / d;
    assert a == q * d + a % d && b == r * d + b % d;
    if r < q { MulMono(r + 1, q, d); }
  }

  /** A step of worker w changes what is told of mark m only through its own stage. */
  lemma ToldFrame(s: Pool, s': Pool, w: nat, m: nat)
    requires ToldFor(s, m) && w < |s.workers| == |s'.workers| && s'.workers == s.workers[w := s'.workers[w]]
    requires s.tasks.abort ==> s'.tasks.abort
    requires
      var before := Untold(s.workers[w], m) + multiset(s.progress.reports)[m] + multiset(s'.progress.marks)[m];
      var after := Untold(s'.workers[w], m) + multiset(s'.progress.reports)[m] + multiset(s.progress.marks)[m];
      after <= before && (!s'.tasks.abort ==> after == before)
    ensures ToldFor(s', m)
  {
    TellingPut(s.workers, w, s'.workers[w], m);
  }

  lemma BusyStepTold(j: Job, s: Pool, w: nat, m: nat)
    requires ToldFor(s, m) && Enabled(s, w) && s.workers[w].Busy?
    ensures ToldFor(BusyStep(j, s, w), m)
  {
    ToldFrame(s, BusyStep(j, s, w), w, m);
  }

  lemma QueueStepTold(s: Pool, w: nat, m: nat)
    requires ToldFor(s, m) && Enabled(s, w) && !s.workers[w].Busy?
    ensures ToldFor(QueueStep(s, w), m)
  {
    ToldFrame(s, QueueStep(s, w), w, m);
  }

  lemma ThrowTold(s: Pool, w: nat, m: nat)
    requires ToldFor(s, m) && w < |s.workers| && CanThrow(s.workers[w])
    ensures ToldFor(Throw(s, w), m)
  {
    ToldFrame(s, Throw(s, w), w, m);
  }

  /** Shared state only moves one way: what a worker has learnt from it stays true. */
  ghost predicate Grows(j: Job, s: Pool, s': Pool)
  {
    && (s.tasks.abort ==> s'.tasks.abort)
    && (s.tasks.active == 0 ==> s'.tasks.active == 0)
    && (s.tasks.queue == [] ==> s'.tasks.queue == [])
    && Percent(j, s.progress.processed) <= Percent(j, s'.progress.processed)
    && (forall c: nat :: Shown(j, s.cache, c) ==> Shown(j, s'.cache, c))
  }

  lemma OtherWorkerOk(j: Job, s: Pool, s': Pool, wk: Worker)
    requires WorkerOk(j, s, wk) && Grows(j, s, s') && (HoldsMutex(wk) ==> s'.tasks.queue == s.tasks.queue)
    ensures WorkerOk(j, s', wk)
  {
  }

  lemma CollectedMore(j: Job, items: seq<DomainId>, i: nat)
    requires i < |items|
    ensures Collected(j, items, i + 1) ==
            if items[i] in j.current then Collected(j, items, i)[items[i] := j.current[items[i]]]
            else Collected(j, items, i)
  {
    assert items[..i + 1] == items[..i] + [items[i]];
  }

  lemma QueueStepOwn(j: Job, s: Pool, w: nat)
    requires Partition(j, s) && Enabled(s, w) && !s.workers[w].Busy? && WorkerOk(j, s, s.workers[w])
    ensures WorkerOk(j, QueueStep(s, w), QueueStep(s, w).workers[w])
  {
  }

  lemma BusyStepOwn(j: Job, s: Pool, w: nat)
    requires Enabled(s, w) && s.workers[w].Busy? && WorkerOk(j, s, s.workers[w])
    ensures WorkerOk(j, BusyStep(j, s, w), BusyStep(j, s, w).workers[w])
  {
    if s.workers[w].stage.Look? {
      LookOwn(j, s, w);
    } else if s.workers[w].stage.Publish? {
      PublishOwn(j, s, w);
    }
  }

  lemma LookOwn(j: Job, s: Pool, w: nat)
    requires Enabled(s, w) && s.workers[w].Busy? && s.workers[w].stage.Look? && WorkerOk(j, s, s.workers[w])
    ensures WorkerOk(j, BusyStep(j, s, w), BusyStep(j, s, w).workers[w])
  {
    var i, items := s.workers[w].i, j.chunks[s.workers[w].task.value];
    if i < |items| { CollectedMore(j, items, i); }
  }

  lemma PublishOwn(j: Job, s: Pool, w: nat)
    requires Enabled(s, w) && s.workers[w].Busy? && s.workers[w].stage.Publish? && WorkerOk(j, s, s.workers[w])
    ensures WorkerOk(j, BusyStep(j, s, w), BusyStep(j, s, w).workers[w])
  {
    var items := j.chunks[s.workers[w].task.value];
    assert items[..|items|] == items;
  }

  lemma PercentAtMost100(p: nat, total: nat)
    requires 0 < total && p <= total
    ensures p * 100 / total <= 100
  {
    var q := p * 100 / total;
    assert q * total <= p * 100;
    assert q > 100 ==> q * total >= 101 * total;
  }

  /** The accounting of one worker's items carries over to the whole pool. */
  lemma CountFrame(j: Job, s: Pool, s': Pool, w: nat)
    requires Popped(j, s) >= 0 && Popped(j, s') >= 0 && CountOk(j, s) && w < |s.workers| == |s'.workers|
    requires s'.workers == s.workers[w := s'.workers[w]]
    requires s.tasks.abort ==> s'.tasks.abort
    requires
      var before := s.progress.processed + DescribedFrom(j, Popped(j, s)) + Uncounted(j, s.workers[w]);
      var after := s'.progress.processed + DescribedFrom(j, Popped(j, s')) + Uncounted(j, s'.workers[w]);
      after <= before && (!s'.tasks.abort ==> after == before)
    ensures CountOk(j, s')
  {
    SumUncountedPut(j, s.workers, w, s'.workers[w]);
  }

  lemma QueueStepCount(j: Job, s: Pool, w: nat)
    requires Partition(j, s) && CountOk(j, s) && Enabled(s, w) && !s.workers[w].Busy? && WorkerOk(j, s, s.workers[w])
    ensures Popped(j, QueueStep(s, w)) >= 0 && CountOk(j, QueueStep(s, w))
  {
    if s.workers[w].Taking? {
      assert s.tasks.queue[0] == Popped(j, s);
    }
    CountFrame(j, s, QueueStep(s, w), w);
  }

  lemma BusyStepCount(j: Job, s: Pool, w: nat)
    requires Popped(j, s) >= 0 && CountOk(j, s) && Enabled(s, w) && s.workers[w].Busy? && WorkerOk(j, s, s.workers[w])
    ensures CountOk(j, BusyStep(j, s, w))
  {
    BusyStepUncounted(j, s, w);
    CountFrame(j, s, BusyStep(j, s, w), w);
  }

  lemma BusyStepUncounted(j: Job, s: Pool, w: nat)
    requires Enabled(s, w) && s.workers[w].Busy? && WorkerOk(j, s, s.workers[w])
    ensures var s' := BusyStep(j, s, w);
      var before := s.progress.processed + Uncounted(j, s.workers[w]);
      var after := s'.progress.processed + Uncounted(j, s'.workers[w]);
      after <= before && (!s.tasks.abort ==> after == before)
  {
    match s.workers[w].stage
    case Look => LookUncounted(j, s, w);
    case Publish => StillUncounted(j, s, w);
    case Finish => StillUncounted(j, s, w);
    case _ => CountedOne(j, s, w);
  }

  lemma CountedOne(j: Job, s: Pool, w: nat)
    requires w < |s.workers| && s.workers[w].Busy? && Counting(s.workers[w].stage) && WorkerOk(j, s, s.workers[w])
    ensures var s' := BusyStep(j, s, w);
      s'.progress.processed + Uncounted(j, s'.workers[w]) == s.progress.processed + Uncounted(j, s.workers[w])
  {
    SkippedOne(j, Items(j, s.workers[w].task), s.workers[w].i);
  }

  lemma StillUncounted(j: Job, s: Pool, w: nat)
    requires w < |s.workers| && s.workers[w].Busy? && WorkerOk(j, s, s.workers[w])
    requires s.workers[w].stage.Publish? || s.workers[w].stage.Finish?
    ensures var s' := BusyStep(j, s, w);
      && s'.progress.processed == s.progress.processed
      && Uncounted(j, s'.workers[w]) <= Uncounted(j, s.workers[w])
      && (!s.tasks.abort ==> Uncounted(j, s'.workers[w]) == Uncounted(j, s.workers[w]))
  {
    SkippedOne(j, Items(j, s.workers[w].task), s.workers[w].i);
  }

  lemma LookUncounted(j: Job, s: Pool, w: nat)
    requires Enabled(s, w) && s.workers[w].Busy? && s.workers[w].stage.Look? && WorkerOk(j, s, s.workers[w])
    ensures var s' := BusyStep(j, s, w);
      && s'.progress.processed == s.progress.processed
      && Uncounted(j, s'.workers[w]) <= Uncounted(j, s.workers[w])
      && (!s.tasks.abort ==> Uncounted(j, s'.workers[w]) == Uncounted(j, s.workers[w]))
  {
    SkippedOne(j, Items(j, s.workers[w].task), s.workers[w].i);
  }

  lemma SkippedOne(j: Job, items: seq<DomainId>, i: nat)
    requires i <= |items|
    ensures i < |items| ==>
        DescribedIn(j, items[i..]) == (if items[i] in j.current then 1 else 0) + DescribedIn(j, items[i + 1..])
    ensures i == |items| ==> DescribedIn(j, items[i..]) == 0
  {
    if i < |items| { assert items[i..][1..] == items[i + 1..]; }
  }

  lemma {:induction false} DescribedAtMostTotal(j: Job, from: nat)
    ensures DescribedFrom(j, from) <= ItemsFrom(j, from)
    decreases |j.chunks| - from
  {
    if from < |j.chunks| { DescribedAtMostTotal(j, from + 1); }
  }

  /** The percentage of what was processed never passes that of what can be. */
  lemma ProcessedWithin(j: Job, s: Pool)
    requires Popped(j, s) >= 0 && CountOk(j, s)
    ensures s.progress.processed <= Described(j) <= Total(j)
    ensures Percent(j, s.progress.processed) <= Percent(j, Described(j)) <= 100
  {
    DescribedAtMostTotal(j, 0);
    PercentMonotone(j, s.progress.processed, Described(j));
    if Total(j) > 0 { PercentAtMost100(Described(j), Total(j)); }
  }

  /** How a step of worker w may change what the other workers rely on. */
  ghost predicate Moves(j: Job, s: Pool, w: nat, s': Pool)
    requires w < |s.workers|
  {
    && |s'.workers| == |s.workers| && s'.workers == s.workers[w := s'.workers[w]]
    && Grows(j, s, s')
    && (s'.tasks.queue == s.tasks.queue || HoldsMutex(s.workers[w]))
    && (forall c :: c in s.tasks.inHand && s.tasks.inHand[c] != w ==>
      c in s'.tasks.inHand && s'.tasks.inHand[c] == s.tasks.inHand[c])
    && OwnTask(s', w)
  }

  /** The workers that did not move keep their invariants. */
  lemma OthersAfterStep(j: Job, s: Pool, s': Pool, w: nat)
    requires MutexOk(s)
    requires forall v :: 0 <= v < |s.workers| ==> OwnTask(s, v) && WorkerOk(j, s, s.workers[v])
    requires w < |s.workers| && Moves(j, s, w, s') && WorkerOk(j, s', s'.workers[w])
    ensures forall v :: 0 <= v < |s'.workers| ==> OwnTask(s', v) && WorkerOk(j, s', s'.workers[v])
  {
    forall v | 0 <= v < |s'.workers| ensures OwnTask(s', v) && WorkerOk(j, s', s'.workers[v]) {
      assert OwnTask(s, v) && WorkerOk(j, s, s.workers[v]);
      if v != w {
        OtherWorkerOk(j, s, s', s.workers[v]);
      }
    }
  }

  lemma QueueStepMoves(j: Job, s: Pool, w: nat)
    requires Partition(j, s) && Enabled(s, w) && !s.workers[w].Busy? && WorkerOk(j, s, s.workers[w])
    ensures Moves(j, s, w, QueueStep(s, w))
  {
  }

  lemma BusyStepMoves(j: Job, s: Pool, w: nat)
    requires Partition(j, s) && Enabled(s, w) && s.workers[w].Busy? && OwnTask(s, w)
    requires forall c: nat :: Shown(j, s.cache, c) ==> Shown(j, BusyStep(j, s, w).cache, c)
    ensures Moves(j, s, w, BusyStep(j, s, w))
  {
    OutstandingWhileHeld(j, s, s.workers[w].task.value);
    PercentMonotone(j, s.progress.processed, BusyStep(j, s, w).progress.processed);
  }

  lemma ThrowParts(j: Job, s: Pool, w: nat)
    requires Partition(j, s) && MutexOk(s) && CountOk(j, s) && w < |s.workers|
    requires CanThrow(s.workers[w]) && OwnTask(s, w) && WorkerOk(j, s, s.workers[w])
    ensures Partition(j, Throw(s, w)) && MutexOk(Throw(s, w)) && CountOk(j, Throw(s, w))
    ensures Moves(j, s, w, Throw(s, w)) && WorkerOk(j, Throw(s, w), Throw(s, w).workers[w])
  {
    CountFrame(j, s, Throw(s, w), w);
  }

  lemma NextPartition(j: Job, s: Pool, w: nat, s': Pool)
    requires Inv(j, s) && StepOf(j, s, w, s')
    ensures Partition(j, s')
  {
    assert OwnTask(s, w) && WorkerOk(j, s, s.workers[w]);
    if CanThrow(s.workers[w]) && s' == Throw(s, w) {
      ThrowParts(j, s, w);
    } else if s.workers[w].Busy? {
      BusyStepPartition(j, s, w, s');
    } else {
      QueueStepPartition(j, s, w);
    }
  }

  lemma BusyStepMutex(j: Job, s: Pool, w: nat)
    requires MutexOk(s) && Enabled(s, w) && s.workers[w].Busy?
    ensures MutexOk(BusyStep(j, s, w))
  {
    assert BusyStep(j, s, w).holder == s.holder;
  }

  lemma NextMutex(j: Job, s: Pool, w: nat, s': Pool)
    requires MutexOk(s) && StepOf(j, s, w, s')
    ensures MutexOk(s')
  {
    if CanThrow(s.workers[w]) && s' == Throw(s, w) {
    } else if s.workers[w].Busy? {
      BusyStepMutex(j, s, w);
    } else {
      QueueStepMutex(s, w);
    }
  }

  lemma NextCount(j: Job, s: Pool, w: nat, s': Pool)
    requires Partition(j, s) && MutexOk(s) && CountOk(j, s) && StepOf(j, s, w, s')
    requires OwnTask(s, w) && WorkerOk(j, s, s.workers[w])
    ensures Popped(j, s') >= 0 && CountOk(j, s')
  {
    if CanThrow(s.workers[w]) && s' == Throw(s, w) {
      ThrowParts(j, s, w);
    } else if s.workers[w].Busy? {
      BusyStepCount(j, s, w);
    } else {
      QueueStepCount(j, s, w);
    }
  }

  lemma NextCache(j: Job, s: Pool, w: nat, s': Pool)
    requires Inv(j, s) && StepOf(j, s, w, s')
    ensures CacheOk(j, s')
  {
    if s.workers[w].Busy? && s' == BusyStep(j, s, w) {
      BusyStepCache(j, s, w);
    }
  }

  lemma NextMarks(j: Job, s: Pool, w: nat, s': Pool)
    requires Inv(j, s) && StepOf(j, s, w, s')
    ensures MarksOk(j, s')
  {
    if s.workers[w].Busy? && s' == BusyStep(j, s, w) {
      BusyStepMarks(j, s, w);
    }
  }

  lemma NextTold(j: Job, s: Pool, w: nat, s': Pool)
    requires ToldOk(s) && StepOf(j, s, w, s')
    ensures ToldOk(s')
  {
    forall m: nat ensures ToldFor(s', m) {
      if CanThrow(s.workers[w]) && s' == Throw(s, w) {
        ThrowTold(s, w, m);
      } else if s.workers[w].Busy? {
        BusyStepTold(j, s, w, m);
      } else {
        QueueStepTold(s, w, m);
      }
    }
  }

  lemma NextWorkers(j: Job, s: Pool, w: nat, s': Pool)
    requires Inv(j, s) && StepOf(j, s, w, s')
    ensures forall v :: 0 <= v < |s'.workers| ==> OwnTask(s', v) && WorkerOk(j, s', s'.workers[v])
  {
    assert OwnTask(s, w) && WorkerOk(j, s, s.workers[w]);
    if CanThrow(s.workers[w]) && s' == Throw(s, w) {
      ThrowParts(j, s, w);
    } else if s.workers[w].Busy? {
      BusyStepCount(j, s, w);
      BusyStepCache(j, s, w);
      BusyStepOwn(j, s, w);
      BusyStepMoves(j, s, w);
    } else {
      QueueStepOwn(j, s, w);
      QueueStepMoves(j, s, w);
    }
    OthersAfterStep(j, s, s', w);
  }

  /** One step of any worker, normal or throwing, keeps the invariant. */
  lemma NextInv(j: Job, s: Pool, s': Pool)
    requires Inv(j, s) && Next(j, s, s')
    ensures Inv(j, s')
  {
    var w: nat :| StepOf(j, s, w, s');
    assert OwnTask(s, w) && WorkerOk(j, s, s.workers[w]);
    NextPartition(j, s, w, s');
    NextMutex(j, s, w, s');
    NextCount(j, s, w, s');
    NextCache(j, s, w, s');
    NextMarks(j, s, w, s');
    NextTold(j, s, w, s');
    NextWorkers(j, s, w, s');
  }

  /** The invariant holds in every state of every run. */
  lemma {:induction false} RunInv(j: Job, n: nat, run: seq<Pool>, k: nat)
    requires IsRun(j, n, run) && k < |run|
    ensures Inv(j, run[k])
  {
    if k == 0 {
      InitialInv(j, n);
    } else {
      RunInv(j, n, run, k - 1);
      assert Next(j, run[k - 1], run[k - 1 + 1]);
      NextInv(j, run[k - 1], run[k]);
    }
  }

  // ---------- What every run keeps ----------

  /** The workers that have a task in hand. */
  function Holders(s: Pool): set<nat> { set w: nat | w < |s.workers| && s.workers[w].Busy? }

  lemma {:induction false} SameSize(m: map<nat, nat>, ws: set<nat>)
    requires forall c :: c in m ==> m[c] in ws
    requires forall c, d :: c in m && d in m && m[c] == m[d] ==> c == d
    requires forall w :: w in ws ==> exists c :: c in m && m[c] == w
    ensures |m| == |ws|
  {
    if m == map[] {
      assert ws == {};
    } else {
      var c :| c in m;
      forall w | w in ws - {m[c]} ensures exists d :: d in m - {c} && (m - {c})[d] == w {
        var d :| d in m && m[d] == w;
        assert d in m - {c};
      }
      SameSize(m - {c}, ws - {m[c]});
      assert m.Keys == (m - {c}).Keys + {c};
    }
  }

  lemma HandCount(j: Job, s: Pool)
    requires Inv(j, s)
    ensures |s.tasks.inHand| == |Holders(s)|
  {
    forall w | w in Holders(s) ensures exists c :: c in s.tasks.inHand && s.tasks.inHand[c] == w {
      assert OwnTask(s, w);
    }
    SameSize(s.tasks.inHand, Holders(s));
  }

  lemma {:induction false} RangeUnion(n: nat, xs: set<nat>)
    requires forall x: nat :: x < n <==> x in xs
    ensures |xs| == n
  {
    if n == 0 {
      assert xs == {};
    } else {
      assert n - 1 in xs;
      RangeUnion(n - 1, xs - {n - 1});
    }
  }

  /** In every reachable state activeTasks is the number of queued chunks, plus the chunks in
      some worker's hands, plus the chunks abandoned by workers that threw. No chunk is in two
      of these places, and no worker ever processes the empty task of an empty queue. */
  lemma ActiveTasksAccounting(j: Job, n: nat, run: seq<Pool>, k: nat)
    requires IsRun(j, n, run) && k < |run|
    ensures var s := run[k];
      && s.tasks.active == |s.tasks.queue| + |Holders(s)| + |s.tasks.abandoned|
      && (forall w :: w in Holders(s) ==> s.workers[w].task.Some?)
      && (forall v, w :: v in Holders(s) && w in Holders(s) && s.workers[v].task == s.workers[w].task ==> v == w)
      && (forall w, i :: w in Holders(s) && 0 <= i < |s.tasks.queue| ==> s.workers[w].task != Some(s.tasks.queue[i]))
  {
    RunInv(j, n, run, k);
    var s := run[k];
    HandCount(j, s);
    RangeUnion(Popped(j, s), s.tasks.finished + s.tasks.abandoned + s.tasks.inHand.Keys);
    assert |s.tasks.finished + s.tasks.abandoned + s.tasks.inHand.Keys|
        == |s.tasks.finished| + |s.tasks.abandoned| + |s.tasks.inHand.Keys|;
    forall w | w in Holders(s) ensures s.workers[w].task.Some? && s.workers[w].task.value in s.tasks.inHand &&
        s.tasks.inHand[s.workers[w].task.value] == w {
      assert OwnTask(s, w);
    }
  }

  /** The progress mark strictly increases over the whole run, within 1 to the percentage of
      all domains that have a description. */
  lemma MarksIncrease(j: Job, n: nat, run: seq<Pool>, k: nat)
    requires IsRun(j, n, run) && k < |run|
    ensures Increasing(run[k].progress.marks)
    ensures forall i :: 0 <= i < |run[k].progress.marks| ==>
        0 < run[k].progress.marks[i] <= Percent(j, Described(j)) <= 100
    ensures run[k].progress.processed <= Described(j)
  {
    RunInv(j, n, run, k);
    ProcessedWithin(j, run[k]);
  }

  /** Every mark is told at most once, whatever the interleaving, and when the workers have
      left without an exception every mark was told. */
  lemma MarksAreTold(j: Job, n: nat, run: seq<Pool>, k: nat)
    requires IsRun(j, n, run) && k < |run|
    ensures multiset(run[k].progress.reports) <= multiset(run[k].progress.marks)
    ensures forall m :: multiset(run[k].progress.reports)[m] <= 1
    ensures !run[k].tasks.abort && AllLeft(run[k]) ==>
        multiset(run[k].progress.reports) == multiset(run[k].progress.marks)
  {
    RunInv(j, n, run, k);
    var s := run[k];
    IncreasingHasNoRepeats(s.progress.marks);
    ReportsAreMarks(s);
  }

  lemma ReportsAreMarks(s: Pool)
    requires ToldOk(s)
    ensures multiset(s.progress.reports) <= multiset(s.progress.marks)
    ensures !s.tasks.abort && (forall w :: 0 <= w < |s.workers| ==> !s.workers[w].Busy?) ==>
              multiset(s.progress.reports) == multiset(s.progress.marks)
  {
    forall m: nat ensures multiset(s.progress.reports)[m] <= multiset(s.progress.marks)[m] {
      assert ToldFor(s, m);
    }
    if !s.tasks.abort && (forall w :: 0 <= w < |s.workers| ==> !s.workers[w].Busy?) {
      forall m: nat ensures multiset(s.progress.reports)[m] == multiset(s.progress.marks)[m] {
        assert ToldFor(s, m);
        NobodyTells(s.workers, m);
      }
    }
  }

  lemma {:induction false} IncreasingHasNoRepeats(xs: seq<nat>)
    requires Increasing(xs)
    ensures forall m :: multiset(xs)[m] <= 1
  {
    if xs != [] {
      var init := xs[..|xs| - 1];
      IncreasingHasNoRepeats(init);
      assert xs == init + [xs[|xs| - 1]];
      assert xs[|xs| - 1] !in init;
    }
  }

  /** A worker that leaves without having seen the abort flag leaves a drained pool: every
      chunk has been published and its completion counted, and every mark told. */
  lemma CleanExitMeansAllPublished(j: Job, n: nat, run: seq<Pool>, k: nat, w: nat)
    requires IsRun(j, n, run) && k < |run| && w < |run[k].workers| && run[k].workers[w] == Exited(true)
    ensures run[k].tasks.queue == [] && run[k].tasks.active == 0 && !run[k].tasks.abort
    ensures forall c: nat :: c in run[k].tasks.finished <==> c < |j.chunks|
    ensures forall c: nat :: Shown(j, run[k].cache, c)
    ensures multiset(run[k].progress.reports) == multiset(run[k].progress.marks)
    ensures run[k].progress.processed == Described(j)
  {
    RunInv(j, n, run, k);
    var s := run[k];
    assert WorkerOk(j, s, s.workers[w]);
    SubsetOfRange(s.tasks.finished, |j.chunks|);
    assert s.tasks.abandoned == {};
    forall v | 0 <= v < |s.workers| ensures !s.workers[v].Busy? {
      assert OwnTask(s, v);
    }
    ReportsAreMarks(s);
    NothingUncounted(j, s.workers);
  }

  lemma {:induction false} NothingUncounted(j: Job, ws: seq<Worker>)
    requires forall w :: 0 <= w < |ws| ==> !ws[w].Busy?
    ensures SumUncounted(j, ws) == 0
  {
    if ws != [] { NothingUncounted(j, ws[..|ws| - 1]); }
  }

  /** No stuck wait: while some worker has not left, some worker can move. In particular a
      state in which all remaining workers sleep on a false predicate is unreachable. */
  lemma NoDeadlock(j: Job, n: nat, run: seq<Pool>, k: nat, w: nat)
    requires IsRun(j, n, run) && k < |run| && w < |run[k].workers| && !run[k].workers[w].Exited?
    ensures exists v :: Enabled(run[k], v)
  {
    RunInv(j, n, run, k);
    var s := run[k];
    if s.holder.Some? {
      assert Enabled(s, s.holder.value);
    } else if !Enabled(s, w) {
      assert s.workers[w].Sleeping? && !Ready(s);
      // Something is outstanding, nothing is queued, and nothing was abandoned: it is in hand.
      if s.tasks.inHand == map[] {
        RangeUnion(|j.chunks|, s.tasks.finished);
        assert false;
      }
      var c :| c in s.tasks.inHand;
      assert Enabled(s, s.tasks.inHand[c]);
    }
  }

  // ---------- Termination ----------

  /** Upper bound on the steps worker w still takes before it needs another chunk. */
  function Rank(j: Job, wk: Worker): nat
  {
    match wk
    case Exited(_) => 0
    case Taking => 2
    case Drained(woken) => if woken then 3 else 6
    case Test(woken) => if woken then 4 else 7
    case Sleeping => 5
    case Top => 8
    case Busy(task, i, _, stage) =>
      var left := if i <= |Items(j, task)| then |Items(j, task)| - i else 0;
      match stage
      case Finish => 9
      case Publish => 10
      case Look => 11 + 5 * left
      case Count => 10 + 5 * left
      case Compare(_) => 9 + 5 * left
      case Swap(_, _) => 8 + 5 * left
      case Tell(_) => 7 + 5 * left
  }

  function SumRank(j: Job, ws: seq<Worker>): nat
  {
    if ws == [] then 0 else SumRank(j, ws[..|ws| - 1]) + Rank(j, ws[|ws| - 1])
  }

  /** Upper bound on the steps any run can still take from s. */
  function Measure(j: Job, s: Pool): int
    requires Popped(j, s) >= 0
  {
    5 * ItemsFrom(j, Popped(j, s)) + 10 * |s.tasks.queue| + SumRank(j, s.workers)
  }

  lemma {:induction false} SumRankPut(j: Job, ws: seq<Worker>, w: nat, wk: Worker)
    requires w < |ws|
    ensures SumRank(j, ws[w := wk]) == SumRank(j, ws) - Rank(j, ws[w]) + Rank(j, wk)
  {
    var us := ws[w := wk];
    if w == |ws| - 1 {
      assert us[..|us| - 1] == ws[..|ws| - 1];
    } else {
      assert us[..|us| - 1] == ws[..|ws| - 1][w := wk];
      SumRankPut(j, ws[..|ws| - 1], w, wk);
    }
  }

  lemma {:induction false} SumRankTops(j: Job, n: nat)
    ensures SumRank(j, seq(n, _ => Top)) == 8 * n
  {
    if n > 0 {
      var ws: seq<Worker> := seq(n, _ => Top);
      assert ws[..n - 1] == seq(n - 1, _ => Top);
      SumRankTops(j, n - 1);
    }
  }

  lemma QueueStepShrinks(j: Job, s: Pool, w: nat)
    requires Partition(j, s) && Enabled(s, w) && !s.workers[w].Busy? && WorkerOk(j, s, s.workers[w])
    ensures Popped(j, QueueStep(s, w)) >= 0 && Measure(j, QueueStep(s, w)) < Measure(j, s)
  {
    SumRankPut(j, s.workers, w, QueueStep(s, w).workers[w]);
    if s.workers[w].Taking? {
      assert s.tasks.queue[0] == Popped(j, s);
    }
  }

  lemma BusyStepRank(j: Job, s: Pool, w: nat)
    requires Enabled(s, w) && s.workers[w].Busy? && WorkerOk(j, s, s.workers[w])
    ensures var s' := BusyStep(j, s, w);
      s'.tasks.queue == s.tasks.queue && s'.workers == s.workers[w := s'.workers[w]] &&
        Rank(j, s'.workers[w]) < Rank(j, s.workers[w])
  {
  }

  lemma BusyStepShrinks(j: Job, s: Pool, w: nat)
    requires Popped(j, s) >= 0 && Enabled(s, w) && s.workers[w].Busy? && WorkerOk(j, s, s.workers[w])
    ensures Measure(j, BusyStep(j, s, w)) < Measure(j, s)
  {
    BusyStepRank(j, s, w);
    SumRankPut(j, s.workers, w, BusyStep(j, s, w).workers[w]);
  }

  lemma ThrowShrinks(j: Job, s: Pool, w: nat)
    requires Popped(j, s) >= 0 && w < |s.workers| && CanThrow(s.workers[w])
    ensures Measure(j, Throw(s, w)) < Measure(j, s)
  {
    SumRankPut(j, s.workers, w, Exited(false));
  }

  lemma NextShrinks(j: Job, s: Pool, w: nat, s': Pool)
    requires Partition(j, s) && StepOf(j, s, w, s') && WorkerOk(j, s, s.workers[w])
    ensures Popped(j, s') >= 0 && Measure(j, s') < Measure(j, s)
  {
    if CanThrow(s.workers[w]) && s' == Throw(s, w) {
      ThrowShrinks(j, s, w);
    } else if s.workers[w].Busy? {
      BusyStepShrinks(j, s, w);
      BusyStepTasks(j, s, w);
    } else {
      QueueStepShrinks(j, s, w);
    }
  }

  lemma RunShrinks(j: Job, n: nat, run: seq<Pool>, k: nat)
    requires IsRun(j, n, run) && k + 1 < |run|
    ensures Popped(j, run[k]) >= 0 && Popped(j, run[k + 1]) >= 0
    ensures Measure(j, run[k + 1]) < Measure(j, run[k])
  {
    RunInv(j, n, run, k);
    assert Next(j, run[k], run[k + 1]);
    var w: nat :| StepOf(j, run[k], w, run[k + 1]);
    NextShrinks(j, run[k], w, run[k + 1]);
  }

  /** A bound on the steps of a pool of n workers: 5 for each listed domain, 10 for each
      chunk, 8 for each worker. */
  function StepBound(j: Job, n: nat): nat { 5 * Total(j) + 10 * |j.chunks| + 8 * n }

  lemma {:induction false} MeasureAlongRun(j: Job, n: nat, run: seq<Pool>, k: nat)
    requires IsRun(j, n, run) && k < |run|
    ensures Popped(j, run[k]) >= 0
    ensures k + Measure(j, run[k]) <= StepBound(j, n)
  {
    if k == 0 {
      SumRankTops(j, n);
    } else {
      MeasureAlongRun(j, n, run, k - 1);
      RunShrinks(j, n, run, k - 1);
    }
  }

  ghost predicate AllLeft(s: Pool) { forall w :: 0 <= w < |s.workers| ==> s.workers[w].Exited? }

  ghost predicate Blocked(s: Pool) { forall w: nat :: w < |s.workers| ==> !Enabled(s, w) }

  /** Every interleaving is finite, so the joins in the caller return; and a run that cannot
      be extended is one in which every worker has left. */
  lemma RunsTerminate(j: Job, n: nat, run: seq<Pool>)
    requires IsRun(j, n, run)
    ensures |run| - 1 <= StepBound(j, n)
    ensures Blocked(run[|run| - 1]) ==> AllLeft(run[|run| - 1])
  {
    MeasureAlongRun(j, n, run, |run| - 1);
    RunInv(j, n, run, |run| - 1);
    var s := run[|run| - 1];
    if w: nat :| w < |s.workers| && !s.workers[w].Exited? {
      NoDeadlock(j, n, run, |run| - 1, w);
    }
  }

  // ---------- After an exception ----------

  /** The sum of a number over the workers. */
  function Tally(ws: seq<Worker>, f: Worker -> nat): nat
  {
    if ws == [] then 0 else Tally(ws[..|ws| - 1], f) + f(ws[|ws| - 1])
  }

  lemma {:induction false} TallyPut(ws: seq<Worker>, f: Worker -> nat, w: nat, wk: Worker)
    requires w < |ws|
    ensures Tally(ws[w := wk], f) == Tally(ws, f) - f(ws[w]) + f(wk)
  {
    var us := ws[w := wk];
    if w == |ws| - 1 {
      assert us[..|us| - 1] == ws[..|ws| - 1];
    } else {
      assert us[..|us| - 1] == ws[..|ws| - 1][w := wk];
      TallyPut(ws[..|ws| - 1], f, w, wk);
    }
  }

  lemma {:induction false} TallyAtMost(ws: seq<Worker>, f: Worker -> nat, most: nat)
    requires forall wk :: f(wk) <= most
    ensures Tally(ws, f) <= most * |ws|
  {
    if ws != [] { TallyAtMost(ws[..|ws| - 1], f, most); }
  }

  /** The steps a worker still takes once the abort flag is up. */
  function AbortRank(wk: Worker): nat
  {
    match wk
    case Exited(_) => 0
    case Test(_) => 1
    case Top => 2
    case Sleeping => 2
    case Taking => 6
    case Drained(_) => 7
    case Busy(_, _, _, stage) =>
      match stage
      case Finish => 3
      case Publish => 4
      case Look => 5
      case Tell(_) => 6
      case Swap(_, _) => 7
      case Compare(_) => 8
      case Count => 9
  }

  /** Whether the worker is about to count a domain. */
  function ToCount(wk: Worker): nat
  {
    if wk.Busy? && wk.stage.Count? then 1 else 0
  }

  /** What a step of worker w does once the flag is up. */
  ghost predicate WindsDown(s: Pool, w: nat, s': Pool)
    requires w < |s.workers|
  {
    && s'.tasks.abort && |s'.workers| == |s.workers| && s'.workers == s.workers[w := s'.workers[w]]
    && AbortRank(s'.workers[w]) < AbortRank(s.workers[w])
    && s'.progress.processed + ToCount(s'.workers[w]) <= s.progress.processed + ToCount(s.workers[w])
  }

  lemma BusyStepWindsDown(j: Job, s: Pool, w: nat)
    requires Enabled(s, w) && s.workers[w].Busy? && s.tasks.abort
    ensures WindsDown(s, w, BusyStep(j, s, w))
  {
  }

  lemma QueueStepWindsDown(s: Pool, w: nat)
    requires Enabled(s, w) && !s.workers[w].Busy? && s.tasks.abort
    ensures WindsDown(s, w, QueueStep(s, w))
  {
  }

  lemma StepAfterAbort(j: Job, s: Pool, w: nat, s': Pool)
    requires StepOf(j, s, w, s') && s.tasks.abort
    ensures WindsDown(s, w, s')
  {
    if CanThrow(s.workers[w]) && s' == Throw(s, w) {
    } else if s.workers[w].Busy? {
      BusyStepWindsDown(j, s, w);
    } else {
      QueueStepWindsDown(s, w);
    }
  }

  /** If the flag is up in state k it stays up, and both tallies shrink. */
  ghost predicate Calms(run: seq<Pool>, k: nat)
    requires k + 1 < |run|
  {
    var s, s' := run[k], run[k + 1];
    s.tasks.abort ==>
      && s'.tasks.abort && Tally(s'.workers, AbortRank) < Tally(s.workers, AbortRank)
      && s'.progress.processed + Tally(s'.workers, ToCount) <= s.progress.processed + Tally(s.workers, ToCount)
  }

  lemma RunCalms(j: Job, n: nat, run: seq<Pool>, k: nat)
    requires IsRun(j, n, run) && k + 1 < |run|
    ensures Calms(run, k)
  {
    var s, s' := run[k], run[k + 1];
    if s.tasks.abort {
      assert Next(j, s, s');
      var w: nat :| StepOf(j, s, w, s');
      StepAfterAbort(j, s, w, s');
      TallyPut(s.workers, AbortRank, w, s'.workers[w]);
      TallyPut(s.workers, ToCount, w, s'.workers[w]);
    }
  }

  lemma {:induction false} AbortedFrom(run: seq<Pool>, a: nat, k: nat)
    requires a <= k < |run| && run[a].tasks.abort && forall i | a <= i < k :: Calms(run, i)
    ensures run[k].tasks.abort
    ensures k - a + Tally(run[k].workers, AbortRank) <= Tally(run[a].workers, AbortRank)
    ensures run[k].progress.processed + Tally(run[k].workers, ToCount)
         <= run[a].progress.processed + Tally(run[a].workers, ToCount)
  {
    if a < k {
      AbortedFrom(run, a, k - 1);
      assert Calms(run, k - 1);
    }
  }

  /** An exception stops the pool at once: of n workers each takes at most nine more steps and
      counts at most one more domain, however many domains and chunks are left. */
  lemma AbortStopsSoon(j: Job, n: nat, run: seq<Pool>, a: nat, k: nat)
    requires IsRun(j, n, run) && a <= k < |run| && run[a].tasks.abort
    ensures k - a <= 9 * n
    ensures run[k].progress.processed <= run[a].progress.processed + n
  {
    forall i | a <= i < k ensures Calms(run, i) {
      RunCalms(j, n, run, i);
    }
    AbortedFrom(run, a, k);
    WorkerCount(j, n, run, a);
    TallyAtMost(run[a].workers, AbortRank, 9);
    TallyAtMost(run[a].workers, ToCount, 1);
  }

  // ---------- Splitting the domain list ----------

  /** The chunk size the pool uses. A pool of zero threads would divide by zero. */
  function ChunkSize(count: nat, numThreads: nat): (size: nat)
    requires numThreads > 0
    ensures size >= 1
  {
    var even := count / (numThreads * 4);
    if even < 1 then 1 else even
  }

  /** A chunk holds a fourth of a thread's even share, rounded down, and at least one domain. */
  lemma ChunkSizeIsFourthOfShare(count: nat, numThreads: nat)
    requires numThreads > 0
    ensures var size := ChunkSize(count, numThreads);
      size == 1 || size * (numThreads * 4) <= count
    ensures count < (ChunkSize(count, numThreads) + 1) * (numThreads * 4)
  {
    var even := count / (numThreads * 4);
    assert count == even * (numThreads * 4) + count % (numThreads * 4);
  }

  /** Chunk creation: consecutive non-empty chunks, all of the given size but the last. */
  method MakeChunks(ids: seq<DomainId>, size: nat) returns (chunks: seq<seq<DomainId>>)
    requires size >= 1
    ensures Flatten(chunks) == ids
    ensures forall c :: 0 <= c < |chunks| ==> 0 < |chunks[c]| <= size
    ensures forall c :: 0 <= c < |chunks| - 1 ==> |chunks[c]| == size
  {
    chunks := [];
    var i := 0;
    while i < |ids|
      invariant i >= 0
      invariant i < |ids| ==> Flatten(chunks) == ids[..i] && Full(chunks, size)
      invariant i >= |ids| ==> Flatten(chunks) == ids && FullButLast(chunks, size)
    {
      var end := if i + size < |ids| then i + size else |ids|;
      OneMoreChunk(chunks, ids, i, end, size);
      chunks := chunks + [ids[i..end]];
      i := i + size;
    }
  }

  ghost predicate Full(chunks: seq<seq<DomainId>>, size: nat)
  {
    forall c :: 0 <= c < |chunks| ==> |chunks[c]| == size
  }

  ghost predicate FullButLast(chunks: seq<seq<DomainId>>, size: nat)
  {
    && (forall c :: 0 <= c < |chunks| ==> 0 < |chunks[c]| <= size)
    && (forall c :: 0 <= c < |chunks| - 1 ==> |chunks[c]| == size)
  }

  lemma OneMoreChunk(chunks: seq<seq<DomainId>>, ids: seq<DomainId>, i: nat, end: nat, size: nat)
    requires i < end <= |ids| && end - i <= size && Full(chunks, size) && Flatten(chunks) == ids[..i]
    ensures Flatten(chunks + [ids[i..end]]) == ids[..end] && FullButLast(chunks + [ids[i..end]], size)
    ensures end - i == size ==> Full(chunks + [ids[i..end]], size)
    ensures end == |ids| ==> ids[..end] == ids
  {
    FlattenSnoc(chunks, ids[i..end]);
    assert ids[..i] + ids[i..end] == ids[..end];
  }

  /** The chunks list exactly the domains they were made from. */
  lemma {:induction false} FlattenLists(chunks: seq<seq<DomainId>>, id: DomainId)
    ensures id in Flatten(chunks) <==> exists c :: 0 <= c < |chunks| && id in chunks[c]
  {
    if chunks != [] {
      var init := chunks[..|chunks| - 1];
      FlattenLists(init, id);
      assert forall c :: 0 <= c < |init| ==> init[c] == chunks[c];
      if id in chunks[|chunks| - 1] {
        assert id in Flatten(chunks);
      }
    }
  }

  // ---------- The result ----------

  /** A run of at least one worker over the chunks of a domain list that ends without an
      exception leaves the old cache overridden by the fresh description of every listed
      domain that has one. */
  lemma RefreshedCache(j: Job, ids: seq<DomainId>, n: nat, run: seq<Pool>)
    requires Flatten(j.chunks) == ids
    requires n > 0 && IsRun(j, n, run) && AllLeft(run[|run| - 1]) && !run[|run| - 1].tasks.abort
    ensures run[|run| - 1].cache == j.before + (map id | id in j.current && id in ids :: j.current[id])
  {
    var s := run[|run| - 1];
    RunInv(j, n, run, |run| - 1);
    WorkerCount(j, n, run, |run| - 1);
    assert WorkerOk(j, s, s.workers[0]);
    CleanExitMeansAllPublished(j, n, run, |run| - 1, 0);
    forall id ensures id in ids <==> Listed(j, id) {
      FlattenLists(j.chunks, id);
    }
    forall id | id in j.current && Listed(j, id) ensures id in s.cache && s.cache[id] == j.current[id] {
      var c :| 0 <= c < |j.chunks| && id in j.chunks[c];
      assert Shown(j, s.cache, c);
    }
  }

  /** With an exception the cache may be partly refreshed, but every entry is still either the
      old one or the fresh one, and no entry is lost. */
  lemma AbortedCache(j: Job, n: nat, run: seq<Pool>, k: nat, id: DomainId)
    requires IsRun(j, n, run) && k < |run|
    ensures id in j.before ==> id in run[k].cache
    ensures id in run[k].cache ==>
              || (id in j.before && run[k].cache[id] == j.before[id])
              || (Listed(j, id) && id in j.current && run[k].cache[id] == j.current[id])
  {
    RunInv(j, n, run, k);
  }

  lemma {:induction false} WorkerCount(j: Job, n: nat, run: seq<Pool>, k: nat)
    requires IsRun(j, n, run) && k < |run|
    ensures |run[k].workers| == n
  {
    if k > 0 {
      WorkerCount(j, n, run, k - 1);
      assert Next(j, run[k - 1], run[k - 1 + 1]);
      var w: nat :| StepOf(j, run[k - 1], w, run[k]);
    }
  }
}
