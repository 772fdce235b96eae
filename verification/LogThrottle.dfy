/** The limit on reported partial proofs of work (CWorkUltimium): at most twenty lines in a
    window of a minute, each at least as good as the one before. */
module LogThrottle {

  const Span: int := 60
  const Most: nat := 20

  /** The shared counters. */
  datatype State = State(start: int, count: nat, threshold: real)

  datatype Offer = Offer(now: int, percentage: real)

  const Initial := State(0, 0, 0.0)

  predicate Resets(s: State, o: Offer) {
    o.now - s.start >= Span
  }

  /** The counters as the decision finds them. */
  function Current(s: State, o: Offer): State {
    if Resets(s, o) then State(o.now, 0, 0.0) else s
  }

  predicate Logs(s: State, o: Offer) {
    var c := Current(s, o);
    c.count < Most && o.percentage >= c.threshold
  }

  function After(s: State, o: Offer): State {
    var c := Current(s, o);
    if Logs(s, o) then State(c.start, c.count + 1, o.percentage) else c
  }

  class Throttle {
    var start: int
    var count: nat
    var threshold: real

    constructor ()
      ensures Counters() == Initial
    {
      start, count, threshold := 0, 0, 0.0;
    }

    ghost function Counters(): State
      reads this
    {
      State(start, count, threshold)
    }

    method Report(now: int, percentage: real) returns (logged: bool)
      modifies this
      ensures logged <==> Logs(old(Counters()), Offer(now, percentage))
      ensures Counters() == After(old(Counters()), Offer(now, percentage))
    {
      if now - start >= 60 {
        start := now;
        count := 0;
        threshold := 0.0;
      }
      logged := false;
      if count < 20 {
        if percentage >= threshold {
          logged := true;
          count := count + 1;
          threshold := percentage;
        }
      }
    }
  }

  // ---------------------------------------------------------------- runs

  /** The offers so far, the latest outermost. */
  datatype Run = Start | Then(before: Run, offer: Offer)

  /** A line that was written: when, what, and in which window, counted from the initial one. */
  datatype Line = Line(time: int, percentage: real, window: nat, start: int)

  datatype World = World(s: State, window: nat, lines: seq<Line>)

  ghost function Replay(run: Run): World {
    match run
    case Start => World(Initial, 0, [])
    case Then(before, o) => Advance(Replay(before), o)
  }

  ghost function Advance(w: World, o: Offer): World {
    var window := if Resets(w.s, o) then w.window + 1 else w.window;
    var line := Line(o.now, o.percentage, window, Current(w.s, o).start);
    World(After(w.s, o), window, if Logs(w.s, o) then w.lines + [line] else w.lines)
  }

  /** The clock never runs backwards and has not passed `now`. */
  ghost predicate Monotone(run: Run, now: int) {
    run.Then? ==> Monotone(run.before, run.offer.now) && run.offer.now <= now
  }

  function Count(lines: seq<Line>, keep: Line -> bool): nat {
    if lines == [] then 0
    else Count(lines[..|lines| - 1], keep) + if keep(lines[|lines| - 1]) then 1 else 0
  }

  function InWindow(j: nat): Line -> bool {
    (l: Line) => l.window == j
  }

  function InMinute(begin: int): Line -> bool {
    (l: Line) => begin <= l.time < begin + Span
  }

  lemma CountSnoc(lines: seq<Line>, l: Line, keep: Line -> bool)
    ensures Count(lines + [l], keep) == Count(lines, keep) + if keep(l) then 1 else 0
  {
    assert (lines + [l])[..|lines|] == lines;
  }

  lemma {:induction false} CountCovered(lines: seq<Line>, f: Line -> bool, g: Line -> bool, h: Line -> bool)
    requires forall i | 0 <= i < |lines| :: f(lines[i]) ==> g(lines[i]) || h(lines[i])
    ensures Count(lines, f) <= Count(lines, g) + Count(lines, h)
  {
    if lines != [] { CountCovered(lines[..|lines| - 1], f, g, h); }
  }

  /** A selection that leaves out line `k` of another one counts at least one less. */
  lemma {:induction false} CountLeavesOut(lines: seq<Line>, f: Line -> bool, g: Line -> bool, k: nat)
    requires forall i | 0 <= i < |lines| :: f(lines[i]) ==> g(lines[i])
    requires k < |lines| ==> g(lines[k]) && !f(lines[k])
    ensures Count(lines, f) + (if k < |lines| then 1 else 0) <= Count(lines, g)
  {
    if lines != [] { CountLeavesOut(lines[..|lines| - 1], f, g, k); }
  }

  lemma {:induction false} CountNone(lines: seq<Line>, f: Line -> bool)
    requires forall i | 0 <= i < |lines| :: !f(lines[i])
    ensures Count(lines, f) == 0
  {
    if lines != [] { CountNone(lines[..|lines| - 1], f); }
  }

  // ---------------------------------------------------------------- the invariant

  /** A line lies within its window, which lies within the past. */
  ghost predicate LineOk(l: Line, w: World, now: int) {
    && l.time < l.start + Span && l.time <= now
    && (l.window > 0 ==> l.start <= l.time)
    && l.window <= w.window
    && (l.window == w.window ==> l.start == w.s.start && l.percentage <= w.s.threshold)
    && (l.window < w.window ==> l.start + Span * (w.window - l.window) <= w.s.start)
  }

  /** An earlier and a later line: times and windows advance, windows start a minute apart,
      and within one window the percentages never decrease. */
  ghost predicate PairOk(l: Line, m: Line) {
    && l.time <= m.time && l.window <= m.window
    && (l.window == m.window ==> l.start == m.start && l.percentage <= m.percentage)
    && (l.window < m.window ==> l.start + Span * (m.window - l.window) <= m.start)
  }

  ghost predicate Sorted(lines: seq<Line>) {
    forall i, k | 0 <= i < k < |lines| :: PairOk(lines[i], lines[k])
  }

  ghost predicate LinesOk(w: World, now: int) {
    && (w.window > 0 ==> w.s.start <= now)
    && forall i | 0 <= i < |w.lines| :: LineOk(w.lines[i], w, now)
  }

  ghost predicate CountsOk(w: World) {
    && CountOk(w)
    && forall j: nat :: Count(w.lines, InWindow(j)) <= Most
  }

  lemma AdvanceLines(w: World, o: Offer, now: int)
    requires LinesOk(w, o.now) && Sorted(w.lines) && o.now <= now
    ensures LinesOk(Advance(w, o), now) && Sorted(Advance(w, o).lines)
  {
    var w' := Advance(w, o);
    forall i | 0 <= i < |w.lines|
      ensures LineOk(w.lines[i], w', now)
      ensures |w'.lines| > |w.lines| ==> PairOk(w.lines[i], w'.lines[|w.lines|])
    {
      AdvanceLine(w, o, now, w.lines[i]);
    }
  }

  lemma AdvanceLine(w: World, o: Offer, now: int, l: Line)
    requires LineOk(l, w, o.now) && o.now <= now
    ensures LineOk(l, Advance(w, o), now)
    ensures Logs(w.s, o) ==> PairOk(l, Line(o.now, o.percentage, Advance(w, o).window, Current(w.s, o).start))
  { }

  lemma AdvanceCounts(w: World, o: Offer, now: int)
    requires CountsOk(w) && LinesOk(w, now)
    ensures CountsOk(Advance(w, o))
  {
    var w' := Advance(w, o);
    if Resets(w.s, o) { CountNone(w.lines, InWindow(w'.window)); }
    var l := Line(o.now, o.percentage, w'.window, Current(w.s, o).start);
    CountSnoc(w.lines, l, InWindow(w'.window));
    forall j: nat ensures Count(w'.lines, InWindow(j)) <= Most {
      CountSnoc(w.lines, l, InWindow(j));
    }
  }

  lemma {:induction false} ReplayOk(run: Run, now: int)
    requires Monotone(run, now)
    ensures var w := Replay(run); LinesOk(w, now) && Sorted(w.lines) && CountsOk(w)
  {
    if run.Then? {
      ReplayOk(run.before, run.offer.now);
      AdvanceLines(Replay(run.before), run.offer, now);
      AdvanceCounts(Replay(run.before), run.offer, run.offer.now);
    } else {
      forall j: nat ensures Count([], InWindow(j)) == 0 { }
    }
  }

  // ---------------------------------------------------------------- what follows

  /** No window, past or current, holds more than twenty lines, and within one window a later
      line never shows less progress. */
  lemma WindowsAreLimited(run: Run, now: int, j: nat, i: nat, k: nat)
    requires Monotone(run, now)
    ensures Count(Replay(run).lines, InWindow(j)) <= Most
    ensures i < k < |Replay(run).lines| && Replay(run).lines[i].window == Replay(run).lines[k].window
      ==> Replay(run).lines[i].percentage <= Replay(run).lines[k].percentage
  {
    ReplayOk(run, now);
    if i < k < |Replay(run).lines| { assert PairOk(Replay(run).lines[i], Replay(run).lines[k]); }
  }

  /** The offer is at least as good as every line of window `j`, which has room. */
  ghost predicate Record(lines: seq<Line>, j: nat, percentage: real) {
    && percentage >= 0.0 && Count(lines, InWindow(j)) < 20
    && forall i | 0 <= i < |lines| && lines[i].window == j :: lines[i].percentage <= percentage
  }

  /** The threshold is the best percentage of the current window, and 0 before its first line. */
  ghost predicate ThresholdOk(w: World) {
    && w.s.threshold >= 0.0
    && (forall i | 0 <= i < |w.lines| :: w.lines[i].window <= w.window)
    && (forall i | 0 <= i < |w.lines| && w.lines[i].window == w.window :: w.lines[i].percentage <= w.s.threshold)
    && (w.s.threshold == 0.0 || exists i :: BestLine(w, i))
  }

  ghost predicate BestLine(w: World, i: nat) {
    i < |w.lines| && w.lines[i].window == w.window && w.lines[i].percentage == w.s.threshold
  }

  lemma AdvanceThreshold(w: World, o: Offer)
    requires ThresholdOk(w)
    ensures ThresholdOk(Advance(w, o))
  {
    var w' := Advance(w, o);
    if Logs(w.s, o) {
      assert BestLine(w', |w.lines|);
    } else if w'.s.threshold != 0.0 {
      var i: nat :| BestLine(w, i);
      assert BestLine(w', i);
    }
  }

  ghost predicate CountOk(w: World) {
    w.s.count == Count(w.lines, InWindow(w.window))
  }

  lemma AdvanceCount(w: World, o: Offer)
    requires ThresholdOk(w) && CountOk(w)
    ensures CountOk(Advance(w, o))
  {
    var window := Advance(w, o).window;
    if Resets(w.s, o) { CountNone(w.lines, InWindow(window)); }
    CountSnoc(w.lines, Line(o.now, o.percentage, window, Current(w.s, o).start), InWindow(window));
  }

  /** The counters of any run, whatever the clock does. */
  lemma {:induction false} CountersOk(run: Run)
    ensures ThresholdOk(Replay(run)) && CountOk(Replay(run))
  {
    if run.Then? {
      CountersOk(run.before);
      AdvanceThreshold(Replay(run.before), run.offer);
      AdvanceCount(Replay(run.before), run.offer);
    }
  }

  /** A window ends when an offer comes a minute or more after it began, and that offer begins
      the next. An offer is written exactly when it is at least as good as every line of its
      window and that window holds fewer than twenty. */
  lemma RecordsAreWritten(run: Run, o: Offer)
    ensures var w, w' := Replay(run), Replay(Then(run, o)); var next := o.now >= w.s.start + 60;
      && w'.window == (if next then w.window + 1 else w.window)
      && w'.s.start == (if next then o.now else w.s.start)
      && w'.lines == w.lines + if Record(w.lines, w'.window, o.percentage)
                               then [Line(o.now, o.percentage, w'.window, w'.s.start)] else []
  {
    CountersOk(run);
    var w := Replay(run);
    if Resets(w.s, o) {
      CountNone(w.lines, InWindow(w.window + 1));
    } else if w.s.threshold != 0.0 {
      var i: nat :| BestLine(w, i);
      assert o.percentage >= w.lines[i].percentage <==> o.percentage >= w.s.threshold;
    }
  }

  /** The first line of the minute, if there is one. */
  lemma FirstInMinute(lines: seq<Line>, begin: int) returns (i: nat)
    ensures i < |lines| ==> InMinute(begin)(lines[i])
    ensures forall k | 0 <= k < i && k < |lines| :: !InMinute(begin)(lines[k])
    ensures i <= |lines|
  {
    i := 0;
    while i < |lines| && !InMinute(begin)(lines[i])
      invariant i <= |lines|
      invariant forall k | 0 <= k < i :: !InMinute(begin)(lines[k])
    {
      i := i + 1;
    }
  }

  /** The lines of one minute come from one window or from two successive ones. */
  lemma MinuteMeetsTwoWindows(lines: seq<Line>, w: World, now: int, begin: int, i: nat, k: nat)
    requires LinesOk(w, now) && Sorted(lines) && lines == w.lines
    requires i <= k < |lines| && InMinute(begin)(lines[i]) && InMinute(begin)(lines[k])
    ensures lines[k].window == lines[i].window || lines[k].window == lines[i].window + 1
  {
    if i < k {
      assert PairOk(lines[i], lines[k]) && LineOk(lines[i], w, now) && LineOk(lines[k], w, now);
    }
  }

  /** Any sixty consecutive seconds hold at most forty lines, wherever they start. */
  lemma AnyMinuteHoldsForty(run: Run, now: int, begin: int)
    requires Monotone(run, now)
    ensures Count(Replay(run).lines, InMinute(begin)) <= 2 * Most
  {
    ReplayOk(run, now);
    var w := Replay(run);
    var i := FirstInMinute(w.lines, begin);
    if i == |w.lines| {
      CountNone(w.lines, InMinute(begin));
    } else {
      var j := w.lines[i].window;
      forall k | 0 <= k < |w.lines| && InMinute(begin)(w.lines[k])
        ensures InWindow(j)(w.lines[k]) || InWindow(j + 1)(w.lines[k])
      {
        MinuteMeetsTwoWindows(w.lines, w, now, begin, i, k);
      }
      CountCovered(w.lines, InMinute(begin), InWindow(j), InWindow(j + 1));
    }
  }

  // ---------------------------------------------------------------- the exact bound

  /** Offers as they come: a clock past the first minute of its epoch, a percentage. */
  ghost predicate Genuine(run: Run) {
    run.Then? ==> Genuine(run.before) && run.offer.now >= Span && run.offer.percentage >= 0.0
  }

  /** Line `i` is the one that first window `j`. */
  ghost predicate Opens(lines: seq<Line>, j: nat, i: nat) {
    i < |lines| && lines[i].window == j && lines[i].time == lines[i].start
  }

  /** Every window that was ever entered was entered by a line, and none of them is the
      initial one. */
  lemma {:induction false} WindowsOpenWithALine(run: Run, j: nat)
    requires Genuine(run) && 0 < j <= Replay(run).window
    ensures exists i :: Opens(Replay(run).lines, j, i)
  {
    var w, w' := Replay(run.before), Replay(run);
    if j <= w.window {
      WindowsOpenWithALine(run.before, j);
      var i :| Opens(w.lines, j, i);
      assert Opens(w'.lines, j, i);
    } else {
      assert Opens(w'.lines, j, |w.lines|);
    }
  }

  lemma {:induction false} NoLineInInitialWindow(run: Run)
    requires Genuine(run)
    ensures var w := Replay(run);
      && (run.Then? ==> w.window > 0)
      && (w.window == 0 ==> w.s == Initial)
      && forall k | 0 <= k < |w.lines| :: w.lines[k].window > 0
  {
    if run.Then? { NoLineInInitialWindow(run.before); }
  }

  /** With a genuine clock the bound is thirty-nine: a minute that reaches into a second
      window starts after the line that first the first. */
  lemma AnyMinuteHoldsThirtyNine(run: Run, now: int, begin: int)
    requires Monotone(run, now) && Genuine(run)
    ensures Count(Replay(run).lines, InMinute(begin)) <= 2 * Most - 1
  {
    ReplayOk(run, now);
    NoLineInInitialWindow(run);
    var w := Replay(run);
    var i := FirstInMinute(w.lines, begin);
    if i == |w.lines| {
      CountNone(w.lines, InMinute(begin));
    } else {
      var j := w.lines[i].window;
      assert LineOk(w.lines[i], w, now);
      WindowsOpenWithALine(run, j);
      var o: nat :| Opens(w.lines, j, o);
      ThirtyNineFrom(w, now, begin, i, o);
    }
  }

  lemma ThirtyNineFrom(w: World, now: int, begin: int, i: nat, o: nat)
    requires LinesOk(w, now) && Sorted(w.lines) && CountsOk(w)
    requires i < |w.lines| && InMinute(begin)(w.lines[i]) && forall k | 0 <= k < i :: !InMinute(begin)(w.lines[k])
    requires Opens(w.lines, w.lines[i].window, o)
    ensures Count(w.lines, InMinute(begin)) <= 2 * Most - 1
  {
    var lines, j := w.lines, w.lines[i].window;
    var rest: Line -> bool := (l: Line) => l.window == j && begin <= l.time < begin + Span;
    if InMinute(begin)(lines[o]) {
      forall k | 0 <= k < |lines| && InMinute(begin)(lines[k]) ensures InWindow(j)(lines[k]) {
        MinuteOfOpening(w, now, begin, i, o, k);
      }
      var none: Line -> bool := (l: Line) => false;
      CountNone(lines, none);
      CountCovered(lines, InMinute(begin), InWindow(j), none);
    } else {
      forall k | 0 <= k < |lines| && InMinute(begin)(lines[k]) ensures rest(lines[k]) || InWindow(j + 1)(lines[k]) {
        MinuteMeetsTwoWindows(lines, w, now, begin, i, k);
      }
      CountCovered(lines, InMinute(begin), rest, InWindow(j + 1));
      CountLeavesOut(lines, rest, InWindow(j), o);
    }
  }

  /** A minute that holds the opening line of a window holds no line of the next one. */
  lemma MinuteOfOpening(w: World, now: int, begin: int, i: nat, o: nat, k: nat)
    requires LinesOk(w, now) && Sorted(w.lines)
    requires i <= k < |w.lines| && InMinute(begin)(w.lines[i]) && InMinute(begin)(w.lines[k])
    requires Opens(w.lines, w.lines[i].window, o) && InMinute(begin)(w.lines[o])
    ensures w.lines[k].window == w.lines[i].window
  {
    MinuteMeetsTwoWindows(w.lines, w, now, begin, i, k);
    if o != k {
      assert PairOk(w.lines[if o < k then o else k], w.lines[if o < k then k else o]);
    }
    assert LineOk(w.lines[k], w, now);
  }

  // ---------------------------------------------------------------- the bound is reached

  /** `n` offers of the same percentage at the same second. */
  ghost function Burst(run: Run, now: int, n: nat): Run {
    if n == 0 then run else Then(Burst(run, now, n - 1), Offer(now, 50.0))
  }

  /** While the window lasts and has room, every offer of a burst is written. */
  lemma {:induction false} BurstIsWritten(run: Run, now: int, n: nat, b: int)
    requires var s := Replay(run).s; now - s.start < Span && s.count + n <= Most && s.threshold <= 50.0
    ensures var s, s' := Replay(run).s, Replay(Burst(run, now, n)).s;
      s'.start == s.start && s'.count == s.count + n && s'.threshold <= 50.0
    ensures Count(Replay(Burst(run, now, n)).lines, InMinute(b))
         == Count(Replay(run).lines, InMinute(b)) + if b <= now < b + Span then n else 0
  {
    if n > 0 {
      BurstIsWritten(run, now, n - 1, b);
      OneMoreIsWritten(Replay(Burst(run, now, n - 1)), now, b);
    }
  }

  lemma OneMoreIsWritten(w: World, now: int, b: int)
    requires now - w.s.start < Span && w.s.count < Most && w.s.threshold <= 50.0
    ensures var w' := Advance(w, Offer(now, 50.0));
      && w'.s == State(w.s.start, w.s.count + 1, 50.0)
      && Count(w'.lines, InMinute(b)) == Count(w.lines, InMinute(b)) + if b <= now < b + Span then 1 else 0
  {
    CountSnoc(w.lines, Line(now, 50.0, w.window, w.s.start), InMinute(b));
  }

  /** One line opens a window, nineteen follow in its last second, and twenty open the next:
      thirty-nine lines within two seconds. */
  ghost function Crowded(): Run {
    Burst(Then(Burst(Then(Start, Offer(60, 50.0)), 119, 19), Offer(120, 50.0)), 120, 19)
  }

  /** An offer a minute or more after the window opened opens the next one with a line. */
  lemma NextWindowOpens(run: Run, now: int, b: int)
    requires now - Replay(run).s.start >= Span
    ensures var w, w' := Replay(run), Replay(Then(run, Offer(now, 50.0)));
      && w'.s == State(now, 1, 50.0)
      && Count(w'.lines, InMinute(b)) == Count(w.lines, InMinute(b)) + if b <= now < b + Span then 1 else 0
  {
    var w := Replay(run);
    CountSnoc(w.lines, Line(now, 50.0, w.window + 1, now), InMinute(b));
  }

  /** The bound of thirty-nine is reached, by a genuine run with a clock that never runs backwards. */
  lemma ThirtyNineIsReached()
    ensures Genuine(Crowded()) && Monotone(Crowded(), 120)
    ensures Count(Replay(Crowded()).lines, InMinute(119)) == 2 * Most - 1
  {
    CrowdedIsGenuine();
    CrowdedCounts();
  }

  lemma CrowdedCounts()
    ensures Count(Replay(Crowded()).lines, InMinute(119)) == 2 * Most - 1
  {
    var first := Then(Start, Offer(60, 50.0));
    NextWindowOpens(Start, 60, 119);
    FillWindow(first, 119, 119);
    var filled := Burst(first, 119, 19);
    NextWindowOpens(filled, 120, 119);
    FillWindow(Then(filled, Offer(120, 50.0)), 120, 119);
  }

  lemma CrowdedIsGenuine()
    ensures Genuine(Crowded()) && Monotone(Crowded(), 120)
  {
    var first := Then(Start, Offer(60, 50.0));
    BurstIsGenuine(first, 119, 19);
    BurstIsGenuine(Then(Burst(first, 119, 19), Offer(120, 50.0)), 120, 19);
  }

  lemma {:induction false} BurstIsGenuine(run: Run, now: int, n: nat)
    requires Genuine(run) && now >= Span && forall later | later >= now :: Monotone(run, later)
    ensures Genuine(Burst(run, now, n))
    ensures forall later | later >= now :: Monotone(Burst(run, now, n), later)
  {
    if n > 0 { BurstIsGenuine(run, now, n - 1); }
  }

  lemma FillWindow(run: Run, now: int, b: int)
    requires Replay(run).s.count == 1 && Replay(run).s.threshold == 50.0 && now - Replay(run).s.start < Span
    ensures var w, w' := Replay(run), Replay(Burst(run, now, 19));
      && w'.s.start == w.s.start
      && Count(w'.lines, InMinute(b)) == Count(w.lines, InMinute(b)) + if b <= now < b + Span then 19 else 0
  {
    BurstIsWritten(run, now, 19, b);
  }
}
