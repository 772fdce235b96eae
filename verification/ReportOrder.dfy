/**
The order in which the metadata update shows its progress.

A worker swaps the progress mark first and calls back afterwards, under no lock, so a callback
can be overtaken by that of a later mark. This module proves exactly when that can happen.
*/
module ReportOrder {
  import opened Arithmetic
  import opened WorkPool
  import opened Wrappers

  // ---------- When the reports stay in order ----------

  predicate Marking(wk: Worker) { wk.Busy? && Counting(wk.stage) }

  /** At most one worker is at a domain that has a description. */
  ghost predicate Solo(s: Pool)
  {
    forall v, w :: 0 <= v < |s.workers| && 0 <= w < |s.workers| && Marking(s.workers[v]) && Marking(s.workers[w]) ==>
        v == w
  }

  ghost predicate AllBelow(xs: seq<nat>, m: nat) { forall i :: 0 <= i < |xs| ==> xs[i] < m }

  ghost predicate InOrder(s: Pool)
  {
    && Increasing(s.progress.reports)
    && AllBelow(s.progress.reports, s.progress.last + 1)
    && (forall w :: 0 <= w < |s.workers| && s.workers[w].Busy? && s.workers[w].stage.Tell? ==>
      IsNext(s, s.workers[w].stage.progress))
  }

  ghost predicate IsNext(s: Pool, m: nat) { m == s.progress.last && AllBelow(s.progress.reports, m) }

  lemma StepInOrder(j: Job, s: Pool, w: nat, s': Pool)
    requires StepOf(j, s, w, s') && WorkerOk(j, s, s.workers[w]) && Solo(s) && InOrder(s)
    ensures InOrder(s')
  {
    if s.workers[w].Busy? && Counting(s.workers[w].stage) {
      forall v | 0 <= v < |s.workers| && v != w ensures !Marking(s.workers[v]) { }
    }
  }

  lemma {:induction false} RunInOrder(j: Job, n: nat, run: seq<Pool>, k: nat)
    requires IsRun(j, n, run) && k < |run| && forall i :: 0 <= i < k ==> Solo(run[i])
    ensures InOrder(run[k])
  {
    if k > 0 {
      RunInOrder(j, n, run, k - 1);
      RunInv(j, n, run, k - 1);
      assert Next(j, run[k - 1], run[k - 1 + 1]);
      var w: nat :| StepOf(j, run[k - 1], w, run[k]);
      StepInOrder(j, run[k - 1], w, run[k]);
    }
  }

  /** Two chunks with a described domain each. */
  ghost predicate TwoChunks(j: Job) { exists a, b :: a < b && HasDescribed(j, a) && HasDescribed(j, b) }

  predicate HasDescribed(j: Job, c: nat) { c < |j.chunks| && DescribedIn(j, j.chunks[c]) > 0 }

  lemma {:induction false} DescribedMember(j: Job, items: seq<DomainId>, i: nat)
    requires i < |items| && items[i] in j.current
    ensures DescribedIn(j, items) > 0
  {
    if i > 0 { DescribedMember(j, items[1..], i - 1); }
  }

  lemma MarksDescribed(j: Job, s: Pool, w: nat)
    requires w < |s.workers| && WorkerOk(j, s, s.workers[w]) && Marking(s.workers[w])
    ensures s.workers[w].task.Some? && HasDescribed(j, s.workers[w].task.value)
  {
    DescribedMember(j, j.chunks[s.workers[w].task.value], s.workers[w].i);
  }

  lemma OneChunkIsSolo(j: Job, s: Pool)
    requires !TwoChunks(j) && forall w :: 0 <= w < |s.workers| ==> OwnTask(s, w) && WorkerOk(j, s, s.workers[w])
    ensures Solo(s)
  {
    forall v, w | 0 <= v < |s.workers| && 0 <= w < |s.workers| && Marking(s.workers[v]) && Marking(s.workers[w])
      ensures v == w
    {
      assert OwnTask(s, v) && OwnTask(s, w);
      MarksDescribed(j, s, v);
      MarksDescribed(j, s, w);
    }
  }

  /** One worker alone, one chunk alone, or fewer than two percents: the reports of every run
      increase. */
  lemma ReportsIncrease(j: Job, n: nat, run: seq<Pool>, k: nat)
    requires IsRun(j, n, run) && k < |run|
    requires n <= 1 || !TwoChunks(j) || Percent(j, Described(j)) < 2
    ensures Increasing(run[k].progress.reports)
  {
    if Percent(j, Described(j)) < 2 {
      MarksIncrease(j, n, run, k);
      MarksAreTold(j, n, run, k);
      FewMarks(run[k].progress.marks, run[k].progress.reports);
    } else {
      forall i | 0 <= i < k ensures Solo(run[i]) {
        RunInv(j, n, run, i);
        WorkerCount(j, n, run, i);
        if n > 1 { OneChunkIsSolo(j, run[i]); }
      }
      RunInOrder(j, n, run, k);
    }
  }

  lemma {:induction false} IncreasingIsShort(xs: seq<nat>, m: nat)
    requires Increasing(xs) && forall i :: 0 <= i < |xs| ==> 0 < xs[i] <= m
    ensures |xs| <= m
  {
    if xs != [] { IncreasingIsShort(xs[..|xs| - 1], xs[|xs| - 1] - 1); }
  }

  lemma FewMarks(marks: seq<nat>, reports: seq<nat>)
    requires Increasing(marks) && (forall i :: 0 <= i < |marks| ==> 0 < marks[i] < 2) &&
        multiset(reports) <= multiset(marks)
    ensures Increasing(reports)
  {
    IncreasingIsShort(marks, 1);
    assert multiset(marks) == multiset(reports) + (multiset(marks) - multiset(reports));
    assert |multiset(reports)| <= |multiset(marks)|;
  }

  // ---------- Runs that can be built ----------

  ghost predicate Reaches(j: Job, n: nat, s: Pool)
  {
    exists run :: IsRun(j, n, run) && run[|run| - 1] == s
  }

  lemma ReachStep(j: Job, n: nat, s: Pool, w: nat)
    requires Reaches(j, n, s) && Enabled(s, w)
    ensures Reaches(j, n, Step(j, s, w))
  {
    var run :| IsRun(j, n, run) && run[|run| - 1] == s;
    var more := run + [Step(j, s, w)];
    forall k | 0 <= k < |more| - 1 ensures Next(j, more[k], more[k + 1]) {
      if k < |run| - 1 {
        assert Next(j, run[k], run[k + 1]);
      } else {
        assert StepOf(j, s, w, more[k + 1]);
      }
    }
    assert IsRun(j, n, more) && more[|more| - 1] == Step(j, s, w);
  }

  /** A reachable state between two moves of the workers that are followed here. */
  ghost predicate Quiet(j: Job, n: nat, s: Pool)
  {
    Reaches(j, n, s) && |s.workers| == n && s.holder == None && !s.tasks.abort && Popped(j, s) >= 0 && QueueOk(j, s)
  }

  ghost predicate QueueOk(j: Job, s: Pool)
  {
    forall k :: 0 <= k < |s.tasks.queue| ==> s.tasks.queue[k] == Popped(j, s) + k
  }

  ghost predicate OthersStay(s: Pool, s': Pool, w: nat)
  {
    |s'.workers| == |s.workers| && forall v :: 0 <= v < |s.workers| && v != w ==> s'.workers[v] == s.workers[v]
  }

  /** Worker w stands at a domain of its chunk, or behind the last. */
  ghost predicate Looking(j: Job, s: Pool, w: nat)
  {
    w < |s.workers| && s.workers[w].Busy? && s.workers[w].stage == Look
    && s.workers[w].i <= |Items(j, s.workers[w].task)|
  }

  ghost predicate AtDescribed(j: Job, s: Pool, w: nat)
  {
    Looking(j, s, w) && s.workers[w].i < |Items(j, s.workers[w].task)|
    && Items(j, s.workers[w].task)[s.workers[w].i] in j.current
  }

  /** The described domains worker w alone could still count. */
  function Supply(j: Job, s: Pool, w: nat): nat
    requires w < |s.workers| && Popped(j, s) >= 0
  {
    DescribedFrom(j, Popped(j, s)) + Uncounted(j, s.workers[w])
  }

  /** The state once worker w holds the first queued chunk. */
  function AfterPop(s: Pool, w: nat): Pool
    requires w < |s.workers| && s.tasks.queue != []
  {
    var c := s.tasks.queue[0];
    var tasks := s.tasks.(queue := s.tasks.queue[1..], inHand := s.tasks.inHand[c := w]);
    s.(tasks := tasks, workers := s.workers[w := Busy(Some(c), 0, map[], Look)])
  }

  lemma ReachPop(j: Job, n: nat, s: Pool, w: nat)
    requires Reaches(j, n, s) && w < |s.workers| && s.workers[w] == Top && s.holder == None && !s.tasks.abort &&
        s.tasks.queue != []
    ensures Reaches(j, n, AfterPop(s, w))
  {
    var s1 := QueueStep(s, w);
    var s2 := QueueStep(s1, w);
    var s3 := QueueStep(s2, w);
    ReachStep(j, n, s, w);
    ReachStep(j, n, s1, w);
    ReachStep(j, n, s2, w);
    ReachStep(j, n, s3, w);
    assert QueueStep(s3, w) == AfterPop(s, w);
  }

  lemma Pop(j: Job, n: nat, s: Pool, w: nat) returns (s': Pool)
    requires Quiet(j, n, s) && w < n && s.workers[w] == Top && s.tasks.queue != []
    ensures Quiet(j, n, s') && OthersStay(s, s', w) && Looking(j, s', w) && s'.progress == s.progress
    ensures Supply(j, s', w) == Supply(j, s, w) && |s'.tasks.queue| < |s.tasks.queue|
  {
    ReachPop(j, n, s, w);
    s' := AfterPop(s, w);
    var c := s.tasks.queue[0];
    assert c == Popped(j, s);
    assert j.chunks[c][0..] == j.chunks[c];
  }

  lemma Return(j: Job, n: nat, s: Pool, w: nat) returns (s': Pool)
    requires Quiet(j, n, s) && Looking(j, s, w) && s.workers[w].i == |Items(j, s.workers[w].task)|
    ensures Quiet(j, n, s') && OthersStay(s, s', w) && s'.workers[w] == Top && s'.progress == s.progress
    ensures Supply(j, s', w) == Supply(j, s, w) && s'.tasks.queue == s.tasks.queue
  {
    var s1 := BusyStep(j, s, w);
    var s2 := BusyStep(j, s1, w);
    s' := BusyStep(j, s2, w);
    ReachStep(j, n, s, w);
    ReachStep(j, n, s1, w);
    ReachStep(j, n, s2, w);
  }

  lemma Skip(j: Job, n: nat, s: Pool, w: nat) returns (s': Pool)
    requires Quiet(j, n, s) && Looking(j, s, w) && s.workers[w].i < |Items(j, s.workers[w].task)| &&
        !AtDescribed(j, s, w)
    ensures Quiet(j, n, s') && OthersStay(s, s', w) && Looking(j, s', w) && s'.progress == s.progress &&
        s'.tasks == s.tasks
    ensures s'.workers[w].task == s.workers[w].task && s'.workers[w].i == s.workers[w].i + 1
    ensures Uncounted(j, s'.workers[w]) == Uncounted(j, s.workers[w])
  {
    s' := BusyStep(j, s, w);
    ReachStep(j, n, s, w);
    var i, items := s.workers[w].i, Items(j, s.workers[w].task);
    assert items[i..][1..] == items[i + 1..];
  }

  /** Worker w goes on, through its chunk and those still queued, to the next described domain;
      if its own chunk has one, it stays in it. */
  lemma {:induction false} Find(j: Job, n: nat, s: Pool, w: nat) returns (s': Pool)
    requires Quiet(j, n, s) && w < n && (s.workers[w] == Top || Looking(j, s, w)) && Supply(j, s, w) > 0
    ensures Quiet(j, n, s') && OthersStay(s, s', w) && AtDescribed(j, s', w) && s'.progress == s.progress
    ensures Supply(j, s', w) == Supply(j, s, w)
    ensures s.workers[w].Busy? && Uncounted(j, s.workers[w]) > 0 ==>
              s'.tasks == s.tasks && Uncounted(j, s'.workers[w]) == Uncounted(j, s.workers[w])
    decreases |s.tasks.queue|, if s.workers[w].Busy? then 1 + |Items(j, s.workers[w].task)| - s.workers[w].i else 0
  {
    if s.workers[w] == Top {
      var next := Pop(j, n, s, w);
      s' := Find(j, n, next, w);
    } else if s.workers[w].i == |Items(j, s.workers[w].task)| {
      var next := Return(j, n, s, w);
      s' := Find(j, n, next, w);
    } else if AtDescribed(j, s, w) {
      s' := s;
    } else {
      var next := Skip(j, n, s, w);
      s' := Find(j, n, next, w);
    }
  }

  /** The state once worker w has counted the described domain it is at, up to the swap. */
  function AfterCount(j: Job, s: Pool, w: nat): Pool
    requires w < |s.workers| && s.workers[w].Busy? && s.workers[w].i < |Items(j, s.workers[w].task)|
    requires Items(j, s.workers[w].task)[s.workers[w].i] in j.current
  {
    var Busy(task, i, local, _) := s.workers[w];
    var id := Items(j, task)[i];
    var counted := s.progress.(processed := s.progress.processed + 1);
    var p := Percent(j, counted.processed);
    var stored := local[id := j.current[id]];
    if p > s.progress.last then
      s.(progress := counted.(last := p, marks := counted.marks + [p]),
        workers := s.workers[w := Busy(task, i, stored, Tell(p))])
    else
      s.(progress := counted, workers := s.workers[w := Busy(task, i + 1, stored, Look)])
  }

  lemma ReachCount(j: Job, n: nat, s: Pool, w: nat)
    requires Reaches(j, n, s) && AtDescribed(j, s, w) && !s.tasks.abort
    ensures Reaches(j, n, AfterCount(j, s, w))
  {
    var s1 := BusyStep(j, s, w);
    var s2 := BusyStep(j, s1, w);
    var s3 := BusyStep(j, s2, w);
    ReachStep(j, n, s, w);
    ReachStep(j, n, s1, w);
    ReachStep(j, n, s2, w);
    if Percent(j, s.progress.processed + 1) > s.progress.last {
      ReachStep(j, n, s3, w);
      assert BusyStep(j, s3, w) == AfterCount(j, s, w);
    } else {
      assert s3 == AfterCount(j, s, w);
    }
  }

  lemma AfterCountQuiet(j: Job, n: nat, s: Pool, w: nat)
    requires Quiet(j, n, s) && AtDescribed(j, s, w)
    ensures var s' := AfterCount(j, s, w);
      && Quiet(j, n, s') && OthersStay(s, s', w) && s'.tasks == s.tasks && s'.workers[w].Busy?
      && Uncounted(j, s'.workers[w]) == Uncounted(j, s.workers[w]) - 1
  {
    ReachCount(j, n, s, w);
    var i, items := s.workers[w].i, Items(j, s.workers[w].task);
    assert items[i..][1..] == items[i + 1..];
  }

  /** Worker w counts the described domain it is at and does not move the mark. */
  lemma CountQuietly(j: Job, n: nat, s: Pool, w: nat) returns (s': Pool)
    requires Quiet(j, n, s) && AtDescribed(j, s, w)
    requires Percent(j, s.progress.processed + 1) <= s.progress.last
    ensures Quiet(j, n, s') && OthersStay(s, s', w) && s'.tasks == s.tasks && Looking(j, s', w)
    ensures Uncounted(j, s'.workers[w]) == Uncounted(j, s.workers[w]) - 1
    ensures s'.progress == s.progress.(processed := s.progress.processed + 1)
    ensures Supply(j, s', w) == Supply(j, s, w) - 1
  {
    AfterCountQuiet(j, n, s, w);
    s' := AfterCount(j, s, w);
  }

  /** Worker w counts the described domain it is at, moves the mark, and has not told it yet. */
  lemma CountAndMark(j: Job, n: nat, s: Pool, w: nat, p: nat, m: nat) returns (s': Pool)
    requires Quiet(j, n, s) && AtDescribed(j, s, w)
    requires p == s.progress.processed + 1 && m == Percent(j, p) > s.progress.last
    ensures Quiet(j, n, s') && OthersStay(s, s', w) && s'.tasks == s.tasks
    ensures HoldsMark(j, s', w, m)
    ensures s'.progress == Progress(p, m, s.progress.marks + [m], s.progress.reports)
  {
    AfterCountQuiet(j, n, s, w);
    s' := AfterCount(j, s, w);
  }

  ghost predicate HoldsMark(j: Job, s: Pool, w: nat, m: nat)
  {
    && w < |s.workers| && s.workers[w].Busy? && s.workers[w].stage == Tell(m)
    && s.workers[w].i < |Items(j, s.workers[w].task)|
  }

  lemma TellNow(j: Job, n: nat, s: Pool, w: nat, m: nat) returns (s': Pool)
    requires Quiet(j, n, s) && HoldsMark(j, s, w, m)
    ensures Quiet(j, n, s') && OthersStay(s, s', w)
    ensures s'.progress == s.progress.(reports := s.progress.reports + [m])
  {
    s' := BusyStep(j, s, w);
    ReachStep(j, n, s, w);
  }

  /** Worker w counts one more domain that does not move the mark. */
  lemma CountOne(j: Job, n: nat, s: Pool, w: nat) returns (s': Pool)
    requires Quiet(j, n, s) && w < n && (s.workers[w] == Top || Looking(j, s, w)) && Supply(j, s, w) > 0
    requires Percent(j, s.progress.processed + 1) <= s.progress.last
    ensures Quiet(j, n, s') && OthersStay(s, s', w) && Looking(j, s', w)
    ensures s'.progress == s.progress.(processed := s.progress.processed + 1)
    ensures Supply(j, s', w) == Supply(j, s, w) - 1
    ensures s.workers[w].Busy? && Uncounted(j, s.workers[w]) > 0 ==>
              s'.tasks == s.tasks && Uncounted(j, s'.workers[w]) == Uncounted(j, s.workers[w]) - 1
  {
    var found := Find(j, n, s, w);
    s' := CountQuietly(j, n, found, w);
  }

  /** Worker w counts k more domains, none of which moves the mark; if its own chunk has that
      many, it stays in it. */
  lemma {:induction false} CountMany(j: Job, n: nat, s: Pool, w: nat, k: nat, upto: nat) returns (s': Pool)
    requires Quiet(j, n, s) && w < n && (s.workers[w] == Top || Looking(j, s, w)) && Supply(j, s, w) >= k
    requires upto == s.progress.processed + k && Percent(j, upto) <= s.progress.last
    ensures Quiet(j, n, s') && OthersStay(s, s', w) && (s'.workers[w] == Top || Looking(j, s', w))
    ensures s'.progress == s.progress.(processed := upto)
    ensures Supply(j, s', w) == Supply(j, s, w) - k
    ensures s.workers[w].Busy? && Uncounted(j, s.workers[w]) >= k ==>
              s'.tasks == s.tasks && s'.workers[w].Busy? &&
                Uncounted(j, s'.workers[w]) == Uncounted(j, s.workers[w]) - k
    decreases k
  {
    if k == 0 {
      s' := s;
    } else {
      PercentMonotone(j, s.progress.processed + 1, upto);
      var next := CountOne(j, n, s, w);
      s' := CountMany(j, n, next, w, k - 1, upto);
    }
  }

  // ---------- The first two marks ----------

  lemma DivPlus(a: nat, d: nat)
    requires d > 0
    ensures (a + d) / d == a / d + 1
  {
    DivIs(a + d, d, a / d + 1, a % d);
  }

  lemma DivDouble(a: nat, d: nat)
    requires d > 0
    ensures 2 * (a / d) <= (2 * a) / d
  {
    var q := a / d;
    assert a == q * d + a % d;
    DivIs(2 * q * d, d, 2 * q, 0);
    DivMonotone(2 * q * d, 2 * a, d);
  }

  /** The first count whose percentage passes v. */
  lemma {:induction false} FirstPast(j: Job, v: nat, d: nat) returns (p: nat)
    requires Percent(j, d) > v
    ensures 0 < p <= d && Percent(j, p) > v && Percent(j, p - 1) <= v
  {
    if Percent(j, d - 1) > v {
      p := FirstPast(j, v, d - 1);
    } else {
      p := d;
    }
  }

  /** The counts at which one worker alone would set the first and the second mark. */
  ghost predicate MarkPoints(j: Job, first: nat, second: nat)
  {
    && 0 < first < second <= 2 * first
    && Percent(j, first - 1) == 0 < Percent(j, first) &&
      Percent(j, second - 1) <= Percent(j, first) < Percent(j, second)
  }

  lemma FindMarkPoints(j: Job) returns (first: nat, second: nat)
    requires Described(j) >= 2 && Percent(j, Described(j)) >= 2
    ensures MarkPoints(j, first, second) && second <= Described(j)
  {
    var d := Described(j);
    first := FirstPast(j, 0, d);
    SecondMarkInReach(j, first, d);
    second := FirstPast(j, Percent(j, first), d);
    PercentDoubles(j, first);
    if second > 2 * first { PercentMonotone(j, 2 * first, second - 1); }
    if second <= first { PercentMonotone(j, second, first); }
  }

  lemma PercentDoubles(j: Job, p: nat)
    ensures Percent(j, 2 * p) >= 2 * Percent(j, p)
  {
    if Total(j) > 0 { DivDouble(p * 100, Total(j)); }
  }

  lemma SecondMarkInReach(j: Job, first: nat, d: nat)
    requires 0 < first <= d && 2 <= d && Percent(j, first - 1) == 0 < Percent(j, first) && Percent(j, d) >= 2
    ensures Percent(j, d) > Percent(j, first)
  {
    var t := Total(j);
    if t <= 100 {
      OneIsMarked(j, first);
      DivPlus(100, t);
      DivMonotone(100 + t, 200, t);
      PercentMonotone(j, 2, d);
    } else {
      DivPlus((first - 1) * 100, t);
      DivMonotone(first * 100, (first - 1) * 100 + t, t);
    }
  }

  lemma OneIsMarked(j: Job, first: nat)
    requires 0 < first && 0 < Total(j) <= 100 && Percent(j, first - 1) == 0
    ensures first == 1
  {
    DivPlus(100 - Total(j), Total(j));
    PercentMonotone(j, 1, if first > 1 then first - 1 else 1);
  }

  // ---------- Overtaking ----------

  lemma {:induction false} ChunksSumUp(j: Job, from: nat, a: nat)
    requires from <= a < |j.chunks|
    ensures DescribedFrom(j, from) >= DescribedIn(j, j.chunks[a])
    ensures forall b :: a < b && HasDescribed(j, b) ==> DescribedFrom(j, from) > DescribedIn(j, j.chunks[a])
    ensures forall b :: from <= b < a && HasDescribed(j, b) ==> DescribedFrom(j, from) > DescribedIn(j, j.chunks[a])
    decreases |j.chunks| - from
  {
    if from < a {
      ChunksSumUp(j, from + 1, a);
    } else {
      forall b | a < b && HasDescribed(j, b) ensures DescribedFrom(j, from + 1) > 0 {
        ChunksSumUp(j, from + 1, b);
      }
    }
  }

  lemma {:induction false} RestOfChunk(j: Job, items: seq<DomainId>, i: nat)
    requires i <= |items|
    ensures DescribedIn(j, items[i..]) <= DescribedIn(j, items)
  {
    if i > 0 {
      RestOfChunk(j, items[1..], i - 1);
      assert items[1..][i - 1..] == items[i..];
    } else {
      assert items[0..] == items;
    }
  }

  /** With two such chunks no chunk has all described domains. */
  lemma NotAllInOne(j: Job, s: Pool, w: nat)
    requires TwoChunks(j) && AtDescribed(j, s, w)
    ensures Uncounted(j, s.workers[w]) < Described(j)
  {
    var c := s.workers[w].task.value;
    RestOfChunk(j, j.chunks[c], s.workers[w].i);
    var a: nat, b: nat :| a < b && HasDescribed(j, a) && HasDescribed(j, b);
    ChunksSumUp(j, 0, c);
    if a == c { assert HasDescribed(j, b); } else { assert HasDescribed(j, a); }
  }

  /** Workers 0 and 1 stand at the first described domains of two chunks. */
  lemma TwoAtDescribed(j: Job, n: nat) returns (s: Pool)
    requires n >= 2 && TwoChunks(j)
    ensures Quiet(j, n, s) && AtDescribed(j, s, 0) && AtDescribed(j, s, 1) && s.progress == Progress(0, 0, [], [])
    ensures Supply(j, s, 0) + Uncounted(j, s.workers[1]) == Described(j)
  {
    var start := Initial(j, n);
    assert IsRun(j, n, [start]) && [start][|[start]| - 1] == start;
    SomeDescribed(j);
    var one := Find(j, n, start, 0);
    NotAllInOne(j, one, 0);
    s := Find(j, n, one, 1);
  }

  lemma SomeDescribed(j: Job)
    requires TwoChunks(j)
    ensures Described(j) >= 2
  {
    var a: nat, b: nat :| a < b && HasDescribed(j, a) && HasDescribed(j, b);
    ChunksSumUp(j, 0, a);
  }

  /** Worker y, with the fewer domains left in its chunk, counts all but the last it must; then
      x counts until one before the first mark. */
  lemma CountToFirst(j: Job, n: nat, s: Pool, x: nat, y: nat, own: nat, before: nat) returns (s': Pool)
    requires Quiet(j, n, s) && x < n && y < n && x != y && AtDescribed(j, s, x) && AtDescribed(j, s, y)
    requires s.progress == Progress(0, 0, [], [])
    requires 0 < own <= Uncounted(j, s.workers[y]) && own - 1 <= before && Percent(j, before) == 0
    requires Supply(j, s, x) + own > before
    ensures Quiet(j, n, s') && Looking(j, s', y) && Uncounted(j, s'.workers[y]) > 0
    ensures s'.progress == Progress(before, 0, [], [])
    ensures (s'.workers[x] == Top || Looking(j, s', x)) && Supply(j, s', x) == Supply(j, s, x) - (before - (own - 1))
  {
    PercentMonotone(j, own - 1, before);
    var s1 := CountMany(j, n, s, y, own - 1, own - 1);
    s' := CountMany(j, n, s1, x, before - (own - 1), before);
  }

  /** y then sets the first mark and holds it. */
  lemma HoldFirstMark(j: Job, n: nat, s: Pool, x: nat, y: nat, before: nat, m: nat) returns (s': Pool)
    requires Quiet(j, n, s) && x < n && y < n && x != y && Looking(j, s, y) && Uncounted(j, s.workers[y]) > 0
    requires s.progress == Progress(before, 0, [], []) && m == Percent(j, before + 1) > 0
    ensures Quiet(j, n, s') && HoldsMark(j, s', y, m)
    ensures s'.progress == Progress(before + 1, m, [m], [])
    ensures s'.workers[x] == s.workers[x] && s'.tasks == s.tasks
  {
    var found := Find(j, n, s, y);
    s' := CountAndMark(j, n, found, y, before + 1, m);
    assert [] + [m] == [m];
  }

  lemma AtDescribedHasOne(j: Job, s: Pool, w: nat)
    requires AtDescribed(j, s, w)
    ensures Uncounted(j, s.workers[w]) > 0
  {
    var i, items := s.workers[w].i, Items(j, s.workers[w].task);
    assert items[i..][0] == items[i];
  }

  /** x sets and tells the second mark, m', while y holds the first. */
  lemma TellSecond(j: Job, n: nat, s: Pool, x: nat, y: nat, m: nat, second: nat, m': nat) returns (s': Pool)
    requires Quiet(j, n, s) && x < n && y < n && x != y && HoldsMark(j, s, y, m)
    requires s.workers[x] == Top || Looking(j, s, x)
    requires s.progress.processed < second && s.progress == Progress(s.progress.processed, m, [m], [])
    requires Supply(j, s, x) >= second - s.progress.processed
    requires Percent(j, second - 1) <= m < m' == Percent(j, second)
    ensures Quiet(j, n, s') && HoldsMark(j, s', y, m)
    ensures s'.progress.marks == [m, m'] && s'.progress.reports == [m']
  {
    var s1 := CountMany(j, n, s, x, second - 1 - s.progress.processed, second - 1);
    s' := MarkAndTell(j, n, s1, x, second, m');
  }

  lemma MarkAndTell(j: Job, n: nat, s: Pool, x: nat, p: nat, m: nat) returns (s': Pool)
    requires Quiet(j, n, s) && x < n && (s.workers[x] == Top || Looking(j, s, x)) && Supply(j, s, x) > 0
    requires p == s.progress.processed + 1 && m == Percent(j, p) > s.progress.last
    ensures Quiet(j, n, s') && OthersStay(s, s', x)
    ensures s'.progress == Progress(p, m, s.progress.marks + [m], s.progress.reports + [m])
  {
    var found := Find(j, n, s, x);
    var marked := CountAndMark(j, n, found, x, p, m);
    s' := TellNow(j, n, marked, x, m);
  }

  /** From two described domains: y, which has the fewer left in its chunk, holds the first mark
      until x has told the second. */
  lemma Race(j: Job, n: nat, start: Pool, x: nat, y: nat, first: nat, second: nat) returns (s: Pool)
    requires Quiet(j, n, start) && x < n && y < n && x != y && AtDescribed(j, start, x) && AtDescribed(j, start, y)
    requires start.progress == Progress(0, 0, [], []) && MarkPoints(j, first, second)
    requires Supply(j, start, x) + Uncounted(j, start.workers[y]) >= second
    requires Uncounted(j, start.workers[y]) <= Uncounted(j, start.workers[x])
    ensures Quiet(j, n, s)
    ensures s.progress.marks == [Percent(j, first), Percent(j, second)]
    ensures s.progress.reports == [Percent(j, second), Percent(j, first)]
  {
    AtDescribedHasOne(j, start, y);
    var own := if Uncounted(j, start.workers[y]) < first then Uncounted(j, start.workers[y]) else first;
    var counted := CountToFirst(j, n, start, x, y, own, first - 1);
    var held := HoldFirstMark(j, n, counted, x, y, first - 1, Percent(j, first));
    s := TellFirstLast(j, n, held, x, y, Percent(j, first), second, Percent(j, second));
  }

  lemma TellFirstLast(j: Job, n: nat, s: Pool, x: nat, y: nat, m: nat, second: nat, m': nat) returns (s': Pool)
    requires Quiet(j, n, s) && x < n && y < n && x != y && HoldsMark(j, s, y, m)
    requires s.workers[x] == Top || Looking(j, s, x)
    requires s.progress.processed < second && s.progress == Progress(s.progress.processed, m, [m], [])
    requires Supply(j, s, x) >= second - s.progress.processed
    requires Percent(j, second - 1) <= m < m' == Percent(j, second)
    ensures Quiet(j, n, s') && s'.progress.marks == [m, m'] && s'.progress.reports == [m', m]
  {
    var told := TellSecond(j, n, s, x, y, m, second, m');
    s' := TellNow(j, n, told, y, m);
  }

  /** Two workers and two chunks are enough: the second mark can be shown before the first. */
  lemma Overtake(j: Job, n: nat) returns (s: Pool, first: nat, second: nat)
    requires n >= 2 && TwoChunks(j) && Percent(j, Described(j)) >= 2
    ensures Quiet(j, n, s) && MarkPoints(j, first, second) && second <= Described(j)
    ensures s.progress.marks == [Percent(j, first), Percent(j, second)]
    ensures s.progress.reports == [Percent(j, second), Percent(j, first)]
  {
    SomeDescribed(j);
    first, second := FindMarkPoints(j);
    var start := TwoAtDescribed(j, n);
    var x := if Uncounted(j, start.workers[0]) <= Uncounted(j, start.workers[1]) then 1 else 0;
    var y := 1 - x;
    s := Race(j, n, start, x, y, first, second);
  }

  // ---------- Runs to the end ----------

  /** Any run without an exception can be continued, without one, until all workers have left;
      what was marked and shown stays. */
  lemma {:induction false} Complete(j: Job, n: nat, s: Pool) returns (s': Pool)
    requires Reaches(j, n, s) && !s.tasks.abort && Popped(j, s) >= 0
    ensures Reaches(j, n, s') && !s'.tasks.abort && AllLeft(s')
    ensures s.progress.marks <= s'.progress.marks && s.progress.reports <= s'.progress.reports
    decreases Measure(j, s)
  {
    if AllLeft(s) {
      s' := s;
    } else {
      var run :| IsRun(j, n, run) && run[|run| - 1] == s;
      var v: nat :| v < |s.workers| && !s.workers[v].Exited?;
      NoDeadlock(j, n, run, |run| - 1, v);
      var w: nat :| Enabled(s, w);
      RunInv(j, n, run, |run| - 1);
      assert StepOf(j, s, w, Step(j, s, w)) && WorkerOk(j, s, s.workers[w]);
      NextShrinks(j, s, w, Step(j, s, w));
      StepExtends(j, s, w);
      ReachStep(j, n, s, w);
      s' := Complete(j, n, Step(j, s, w));
    }
  }

  lemma StepExtends(j: Job, s: Pool, w: nat)
    requires Enabled(s, w)
    ensures Step(j, s, w).tasks.abort == s.tasks.abort
    ensures s.progress.marks <= Step(j, s, w).progress.marks && s.progress.reports <= Step(j, s, w).progress.reports
  { }

  /** Some update that ends without an exception shows a lower percentage after a higher one. */
  ghost predicate ReportsMayDecrease(j: Job, n: nat)
  {
    exists s :: Reaches(j, n, s) && AllLeft(s) && !s.tasks.abort && !Increasing(s.progress.reports)
  }

  /** Exactly when that can happen: with at least two workers, two chunks that have a described
      domain, and described domains that make up at least two percent. */
  lemma ReportsMayDecreaseIff(j: Job, n: nat)
    ensures ReportsMayDecrease(j, n) <==> n >= 2 && TwoChunks(j) && Percent(j, Described(j)) >= 2
  {
    if ReportsMayDecrease(j, n) {
      var s: Pool :| Reaches(j, n, s) && !Increasing(s.progress.reports);
      var run :| IsRun(j, n, run) && run[|run| - 1] == s;
      if n <= 1 || !TwoChunks(j) || Percent(j, Described(j)) < 2 { ReportsIncrease(j, n, run, |run| - 1); }
    }
    if n >= 2 && TwoChunks(j) && Percent(j, Described(j)) >= 2 {
      var s, first, second := Overtake(j, n);
      var done := Complete(j, n, s);
      assert done.progress.reports[0] > done.progress.reports[1];
    }
  }

  /** Two domains, two workers: an update that succeeds and is left showing 50 percent. */
  lemma TwoWorkersEndAtFifty(j: Job, a: DomainId, b: DomainId)
    requires j.chunks == [[a], [b]] && a in j.current && b in j.current
    ensures exists s :: Reaches(j, 2, s) && AllLeft(s) && !s.tasks.abort && s.progress.reports == [100, 50]
  {
    TwoDomains(j, a, b);
    var s, first, second := Overtake(j, 2);
    assert first == 1 && second == 2;
    var done := Complete(j, 2, s);
    EndsAtFifty(j, done);
  }

  lemma TwoDomains(j: Job, a: DomainId, b: DomainId)
    requires j.chunks == [[a], [b]] && a in j.current && b in j.current
    ensures Described(j) == 2 && TwoChunks(j) && Percent(j, 1) == 50 && Percent(j, 2) == 100
  {
    assert DescribedIn(j, [a]) == 1 && DescribedIn(j, [b]) == 1;
    assert DescribedFrom(j, 1) == 1 && ItemsFrom(j, 1) == 1;
    assert HasDescribed(j, 0) && HasDescribed(j, 1);
  }

  lemma EndsAtFifty(j: Job, done: Pool)
    requires Reaches(j, 2, done) && AllLeft(done) && !done.tasks.abort
    requires [50, 100] <= done.progress.marks && [100, 50] <= done.progress.reports
    ensures done.progress.reports == [100, 50]
  {
    var run :| IsRun(j, 2, run) && run[|run| - 1] == done;
    MarksIncrease(j, 2, run, |run| - 1);
    MarksAreTold(j, 2, run, |run| - 1);
    NothingAfter100(done.progress.marks, done.progress.reports);
  }

  lemma {:induction false} IncreasingSpreads(xs: seq<nat>, k: nat)
    requires Increasing(xs) && k < |xs|
    ensures xs[k] + |xs| - 1 - k <= xs[|xs| - 1]
  {
    if k < |xs| - 1 { IncreasingSpreads(xs[..|xs| - 1], k); }
  }

  lemma NothingAfter100(marks: seq<nat>, reports: seq<nat>)
    requires Increasing(marks) && (forall i :: 0 <= i < |marks| ==> marks[i] <= 100) && [50, 100] <= marks
    requires multiset(reports) == multiset(marks) && [100, 50] <= reports
    ensures reports == [100, 50]
  {
    assert marks[1] == 100;
    IncreasingSpreads(marks, 1);
    assert |multiset(reports)| == |multiset(marks)|;
  }
}
