/**
Connection accounting: a log of state changes and a store of connection intervals for each
address, and the number of seconds an address was connected within a sliding window.

Times are whole seconds. `now` is what the system clock would return; it is passed in.
Addresses are represented by the hash the tracker files them under.
*/
module ConnTracker {
  import opened Bytes
  import opened Wrappers

  type Key(!new, ==)

  datatype ConversationState =
    | Initial | Initializing | Hello | DataExchange | Ending | Ended
    | Running | UnableToConnect | Idle | Bye | Connecting

  datatype Event = Event(state: ConversationState, time: int)

  /** endTime is absent while the connection is open. */
  datatype Interval = Interval(startTime: int, endTime: Option<int>)

  type Span = (int, int)

  const U63: nat := 0x8000_0000_0000_0000

  // ---------- One address ----------

  /** Ends the most recently opened interval that is still open, if there is one. */
  function CloseLatest(ivs: seq<Interval>, now: int): seq<Interval>
  {
    if ivs == [] then []
    else
      var last := |ivs| - 1;
      if ivs[last].endTime.None? then ivs[last := Interval(ivs[last].startTime, Some(now))]
      else CloseLatest(ivs[..last], now) + [ivs[last]]
  }

  function AfterPing(ivs: seq<Interval>, state: ConversationState, now: int): seq<Interval>
  {
    match state
    case Running => ivs + [Interval(now, None)]
    case Ended => CloseLatest(ivs, now)
    case _ => ivs
  }

  function EndOr(iv: Interval, now: int): int { if iv.endTime.Some? then iv.endTime.value else now }

  /** Drops the intervals that ended before the cut-off; an open one counts as ending now. */
  function AfterCleanup(ivs: seq<Interval>, olderThan: int, now: int): seq<Interval>
  {
    if ivs == [] then []
    else
      var rest := AfterCleanup(ivs[..|ivs| - 1], olderThan, now);
      var iv := ivs[|ivs| - 1];
      if EndOr(iv, now) < olderThan then rest else rest + [iv]
  }

  function RecentEvents(events: seq<Event>, olderThan: int): seq<Event>
  {
    if events == [] then []
    else
      var rest := RecentEvents(events[..|events| - 1], olderThan);
      var e := events[|events| - 1];
      if e.time < olderThan then rest else rest + [e]
  }

  // ---------- What the answers mean ----------

  /** Some connection was open during second t, as far as is known at `now`. */
  predicate Connected(ivs: seq<Interval>, now: int, t: int)
  {
    exists i :: 0 <= i < |ivs| && ivs[i].startTime <= t < EndOr(ivs[i], now)
  }

  /** The connected seconds of [lo, now). */
  ghost function ConnectedSeconds(ivs: seq<Interval>, lo: int, now: int): set<int>
  {
    set t: int | lo <= t < now && Connected(ivs, now, t)
  }

  /** The start of the window as the code computes it: an unsigned 64-bit subtraction read back
      as a signed 64-bit time. */
  function WindowStart(now: int, timeWindow: int): int
  {
    var u := (now - timeWindow) % U64;
    if u >= U63 then u - U64 else u
  }

  predicate InSpan(s: Span, t: int) { s.0 <= t < s.1 }

  predicate InSome(spans: seq<Span>, t: int)
  {
    exists i :: 0 <= i < |spans| && InSpan(spans[i], t)
  }

  // ---------- Clip, sort, merge, add up ----------

  /** The intervals cut to the window; empty ones are dropped. */
  method ClipIntervals(ivs: seq<Interval>, windowStart: int, now: int) returns (spans: seq<Span>)
    ensures forall t :: InSome(spans, t) <==> windowStart <= t < now && Connected(ivs, now, t)
    ensures forall i :: 0 <= i < |spans| ==> windowStart <= spans[i].0 < spans[i].1 <= now
  {
    spans := [];
    for i := 0 to |ivs|
      invariant forall t :: InSome(spans, t) <==> windowStart <= t < now && Connected(ivs[..i], now, t)
      invariant forall k :: 0 <= k < |spans| ==> windowStart <= spans[k].0 < spans[k].1 <= now
    {
      var start := if ivs[i].startTime < windowStart then windowStart else ivs[i].startTime;
      var end := EndOr(ivs[i], now);
      if now < end {
        end := now;
      }
      ghost var had := spans;
      if start < end {
        spans := spans + [(start, end)];
      }
      ClipStep(ivs, i, windowStart, now, had, spans, start, end);
    }
    assert ivs[..|ivs|] == ivs;
  }

  lemma ClipStep(ivs: seq<Interval>, i: nat, windowStart: int, now: int, had: seq<Span>, spans: seq<Span>,
    start: int, end: int)
    requires i < |ivs|
    requires start == if ivs[i].startTime < windowStart then windowStart else ivs[i].startTime
    requires end == if now < EndOr(ivs[i], now) then now else EndOr(ivs[i], now)
    requires spans == if start < end then had + [(start, end)] else had
    requires forall t :: InSome(had, t) <==> windowStart <= t < now && Connected(ivs[..i], now, t)
    ensures forall t :: InSome(spans, t) <==> windowStart <= t < now && Connected(ivs[..i + 1], now, t)
  {
    forall t ensures InSome(spans, t) <==> windowStart <= t < now && Connected(ivs[..i + 1], now, t) {
      ConnectedMore(ivs, i, now, t);
      if start < end {
        InSomeMore(had, (start, end), t);
      }
      assert InSome(had, t) <==> windowStart <= t < now && Connected(ivs[..i], now, t);
    }
  }

  lemma ConnectedMore(ivs: seq<Interval>, i: nat, now: int, t: int)
    requires i < |ivs|
    ensures Connected(ivs[..i + 1], now, t) <==>
        Connected(ivs[..i], now, t) || ivs[i].startTime <= t < EndOr(ivs[i], now)
  {
    var longer, shorter := ivs[..i + 1], ivs[..i];
    if Connected(shorter, now, t) {
      var k :| 0 <= k < |shorter| && shorter[k].startTime <= t < EndOr(shorter[k], now);
      assert longer[k] == shorter[k];
    }
    if Connected(longer, now, t) {
      var k :| 0 <= k < |longer| && longer[k].startTime <= t < EndOr(longer[k], now);
      assert k < i ==> shorter[k] == longer[k];
    }
    assert longer[i] == ivs[i];
  }

  lemma InSomeMore(spans: seq<Span>, s: Span, t: int)
    ensures InSome(spans + [s], t) <==> InSome(spans, t) || InSpan(s, t)
  {
    var longer := spans + [s];
    assert longer[|spans|] == s;
    if InSome(spans, t) {
      var k :| 0 <= k < |spans| && InSpan(spans[k], t);
      assert longer[k] == spans[k];
    }
  }

  /** Lexicographic order of the pairs, as the standard sort uses it. */
  predicate SpanLeq(a: Span, b: Span) { a.0 < b.0 || (a.0 == b.0 && a.1 <= b.1) }

  predicate Sorted(spans: seq<Span>)
  {
    forall i, j :: 0 <= i < j < |spans| ==> SpanLeq(spans[i], spans[j])
  }

  function InsertSpan(s: Span, spans: seq<Span>): (r: seq<Span>)
    ensures multiset(r) == multiset(spans) + multiset{s}
  {
    if spans == [] || SpanLeq(s, spans[0]) then [s] + spans
    else
      assert spans == [spans[0]] + spans[1..];
      [spans[0]] + InsertSpan(s, spans[1..])
  }

  lemma {:induction false} InsertSpanSorted(s: Span, spans: seq<Span>)
    requires Sorted(spans)
    ensures Sorted(InsertSpan(s, spans))
  {
    if spans != [] && !SpanLeq(s, spans[0]) {
      InsertSpanSorted(s, spans[1..]);
      var rest := InsertSpan(s, spans[1..]);
      forall i | 0 <= i < |rest| ensures SpanLeq(spans[0], rest[i]) {
        assert rest[i] in multiset(spans[1..]) + multiset{s};
      }
    }
  }

  /** The library sort: a sorted permutation. */
  function SortSpans(spans: seq<Span>): (r: seq<Span>)
    ensures Sorted(r) && multiset(r) == multiset(spans)
  {
    if spans == [] then []
    else
      assert spans == [spans[0]] + spans[1..];
      InsertSpanSorted(spans[0], SortSpans(spans[1..]));
      InsertSpan(spans[0], SortSpans(spans[1..]))
  }

  lemma SameCover(a: seq<Span>, b: seq<Span>, t: int)
    requires multiset(a) == multiset(b)
    ensures InSome(a, t) <==> InSome(b, t)
  {
    if InSome(a, t) {
      var i :| 0 <= i < |a| && InSpan(a[i], t);
      assert a[i] in multiset(b);
    }
    if InSome(b, t) {
      var i :| 0 <= i < |b| && InSpan(b[i], t);
      assert b[i] in multiset(a);
    }
  }

  /** Non-empty spans in order, with a gap between any two neighbours. */
  predicate Separated(spans: seq<Span>)
  {
    && (forall i :: 0 <= i < |spans| ==> spans[i].0 < spans[i].1)
    && (forall i, j :: 0 <= i < j < |spans| ==> spans[i].1 < spans[j].0)
  }

  lemma SeparatedMore(spans: seq<Span>, last: Span, next: Span)
    requires Separated(spans + [last]) && next.0 < next.1
    ensures next.0 == last.0 ==> Separated(spans + [next])
    ensures last.1 < next.0 ==> Separated(spans + [last] + [next])
  {
    var had := spans + [last];
    assert had[|spans|] == last;
    assert forall i :: 0 <= i < |spans| ==> had[i] == spans[i];
  }

  /** Merges sorted spans: the result covers the same seconds without overlap. */
  method MergeSpans(sorted: seq<Span>) returns (merged: seq<Span>)
    requires sorted != [] && Sorted(sorted)
    requires forall i :: 0 <= i < |sorted| ==> sorted[i].0 < sorted[i].1
    ensures merged != [] && Separated(merged)
    ensures forall t :: InSome(merged, t) <==> InSome(sorted, t)
  {
    merged := [];
    var current := sorted[0];
    assert merged + [current] == sorted[..1];
    for i := 1 to |sorted|
      invariant current.0 < current.1
      invariant Separated(merged + [current])
      invariant forall k :: i <= k < |sorted| ==> current.0 <= sorted[k].0
      invariant forall t :: InSome(merged + [current], t) <==> InSome(sorted[..i], t)
    {
      var next := sorted[i];
      ghost var had := merged + [current];
      ghost var kept := merged;
      ghost var was := current;
      if next.0 <= current.1 {
        current := (current.0, if current.1 < next.1 then next.1 else current.1);
      } else {
        merged := merged + [current];
        current := next;
      }
      SeparatedMore(kept, was, current);
      forall t ensures InSome(merged + [current], t) <==> InSome(sorted[..i + 1], t) {
        assert sorted[..i + 1] == sorted[..i] + [next];
        InSomeMore(sorted[..i], next, t);
        InSomeMore(kept, was, t);
        InSomeMore(merged, current, t);
        assert InSome(had, t) <==> InSome(sorted[..i], t);
      }
    }
    assert sorted[..|sorted|] == sorted;
    merged := merged + [current];
  }

  function SpanSum(spans: seq<Span>): int
  {
    if spans == [] then 0
    else SpanSum(spans[..|spans| - 1]) + (spans[|spans| - 1].1 - spans[|spans| - 1].0)
  }

  function Seconds(lo: int, hi: int): set<int> { set t: int | lo <= t < hi && InSpan((lo, hi), t) }

  function SpanSeconds(spans: seq<Span>): set<int>
  {
    if spans == [] then {}
    else SpanSeconds(spans[..|spans| - 1]) + Seconds(spans[|spans| - 1].0, spans[|spans| - 1].1)
  }

  lemma {:induction false} SpanSecondsMembers(spans: seq<Span>, t: int)
    ensures t in SpanSeconds(spans) <==> InSome(spans, t)
  {
    if spans != [] {
      var init, last := spans[..|spans| - 1], spans[|spans| - 1];
      SpanSecondsMembers(init, t);
      InSomeMore(init, last, t);
      assert init + [last] == spans;
    }
  }

  lemma {:induction false} SecondsCount(lo: int, hi: int)
    requires lo <= hi
    ensures |Seconds(lo, hi)| == hi - lo
    decreases hi - lo
  {
    if lo < hi {
      SecondsCount(lo, hi - 1);
      assert Seconds(lo, hi) == Seconds(lo, hi - 1) + {hi - 1};
    }
  }

  /** The lengths of separated spans add up to the number of seconds they cover. */
  lemma {:induction false} SpanSumCounts(spans: seq<Span>)
    requires Separated(spans)
    ensures SpanSum(spans) == |SpanSeconds(spans)|
  {
    if spans != [] {
      var init, last := spans[..|spans| - 1], spans[|spans| - 1];
      SpanSumCounts(init);
      SecondsCount(last.0, last.1);
      assert SpanSeconds(init) !! Seconds(last.0, last.1) by {
        forall t | t in SpanSeconds(init) ensures t < last.0 {
          SpanSecondsMembers(init, t);
          var i :| 0 <= i < |init| && InSpan(init[i], t);
          assert spans[i].1 < spans[|spans| - 1].0;
        }
      }
    }
  }

  // ---------- The tracker ----------

  class Tracker {
    var connectionEvents: map<Key, seq<Event>>
    var activeConnections: map<Key, seq<Interval>>

    constructor ()
      ensures connectionEvents == map[] && activeConnections == map[]
    {
      connectionEvents, activeConnections := map[], map[];
    }

    function Intervals(key: Key): seq<Interval>
      reads this
    {
      Lookup(activeConnections, key)
    }

    function Log(key: Key): seq<Event>
      reads this
    {
      Lookup(connectionEvents, key)
    }

    method PingState(key: Key, state: ConversationState, now: int)
      modifies this
      ensures Log(key) == old(Log(key)) + [Event(state, now)]
      ensures Intervals(key) == AfterPing(old(Intervals(key)), state, now)
      ensures forall k :: k != key ==> Log(k) == old(Log(k)) && Intervals(k) == old(Intervals(k))
    {
      connectionEvents := connectionEvents[key := Log(key) + [Event(state, now)]];
      match state {
        case Running =>
          activeConnections := activeConnections[key := Intervals(key) + [Interval(now, None)]];
        case Ended =>
          var closed := CloseLatestInterval(Intervals(key), now);
          activeConnections := activeConnections[key := closed];
        case _ =>
      }
    }

    /** Connected seconds inside the window that ends now. */
    method GetTime(key: Key, timeWindow: int, now: int) returns (total: int)
      ensures total == |ConnectedSeconds(Intervals(key), WindowStart(now, timeWindow), now)|
    {
      var lo := WindowStart(now, timeWindow);
      ghost var want := ConnectedSeconds(Intervals(key), lo, now);
      var spans := ClipIntervals(Intervals(key), lo, now);
      if spans == [] {
        assert want == {} by {
          assert forall t :: t in want ==> InSome(spans, t);
        }
        return 0;
      }
      var merged := SortAndMerge(spans);
      total := Total(merged);
      CoverIsConnected(Intervals(key), lo, now, spans, merged);
    }

    /** When a new connection would be allowed: now while the quota is not used up, otherwise
        the end of the last connected second of the window. The documentation promises a future
        time here; every event lies at or before now, so the forward simulation never runs. */
    method GetRenewalTime(key: Key, timeWindow: int, maxDuration: int, now: int) returns (renewal: int)
      ensures var used := ConnectedSeconds(Intervals(key), WindowStart(now, timeWindow), now);
        if used == {} || |used| < maxDuration then renewal == now
        else renewal - 1 in used && forall t :: t in used ==> t < renewal
      ensures renewal <= now
    {
      var lo := WindowStart(now, timeWindow);
      ghost var want := ConnectedSeconds(Intervals(key), lo, now);
      var spans := ClipIntervals(Intervals(key), lo, now);
      if spans == [] {
        assert want == {} by {
          assert forall t :: t in want ==> InSome(spans, t);
        }
        return now;
      }
      var merged := SortAndMerge(spans);
      var total := Total(merged);
      CoverIsConnected(Intervals(key), lo, now, spans, merged);
      LastCovered(merged, want);
      if total < maxDuration {
        return now;
      }
      renewal := LastEventTime(merged, now);
    }

    /** Drops log entries and intervals older than the cut-off, and addresses left with none. */
    method CleanupOldConnections(olderThan: int, now: int)
      modifies this
      ensures forall k :: Log(k) == RecentEvents(old(Log(k)), olderThan)
      ensures forall k :: Intervals(k) == AfterCleanup(old(Intervals(k)), olderThan, now)
      ensures forall k :: k in activeConnections ==> activeConnections[k] != []
    {
      connectionEvents := PurgeEvents(connectionEvents, olderThan);
      activeConnections := PurgeIntervals(activeConnections, olderThan, now);
    }
  }

  function Lookup<T>(m: map<Key, seq<T>>, key: Key): seq<T> { if key in m then m[key] else [] }

  /** The reverse scan for the most recent open interval. */
  method CloseLatestInterval(ivs: seq<Interval>, now: int) returns (closed: seq<Interval>)
    ensures closed == CloseLatest(ivs, now)
  {
    closed := ivs;
    var i := |ivs|;
    assert ivs[..i] == ivs && CloseLatest(ivs, now) + [] == CloseLatest(ivs, now);
    while i > 0
      invariant 0 <= i <= |ivs|
      invariant closed == ivs && CloseLatest(ivs, now) == CloseLatest(ivs[..i], now) + ivs[i..]
    {
      i := i - 1;
      assert ivs[..i + 1][..i] == ivs[..i] && ivs[i..] == [ivs[i]] + ivs[i + 1..];
      if ivs[i].endTime.None? {
        closed := ivs[i := Interval(ivs[i].startTime, Some(now))];
        assert closed == ivs[..i + 1][i := Interval(ivs[i].startTime, Some(now))] + ivs[i + 1..];
        return;
      }
    }
    assert closed == [] + ivs;
  }

  method PurgeEvents(m: map<Key, seq<Event>>, olderThan: int) returns (kept: map<Key, seq<Event>>)
    ensures forall k :: Lookup(kept, k) == RecentEvents(Lookup(m, k), olderThan)
  {
    kept := m;
    var keys := m.Keys;
    while keys != {}
      invariant keys <= kept.Keys
      invariant forall k :: Lookup(kept, k) == if k in keys then Lookup(m, k) else RecentEvents(Lookup(m, k), olderThan)
    {
      var k :| k in keys;
      keys := keys - {k};
      var recent := RecentEvents(kept[k], olderThan);
      assert Lookup(kept, k) == Lookup(m, k);
      kept := if recent == [] then kept - {k} else kept[k := recent];
    }
  }

  method PurgeIntervals(m: map<Key, seq<Interval>>, olderThan: int, now: int) returns (kept: map<Key, seq<Interval>>)
    ensures forall k :: Lookup(kept, k) == AfterCleanup(Lookup(m, k), olderThan, now)
    ensures forall k :: k in kept ==> kept[k] != []
  {
    kept := m;
    var keys := m.Keys;
    while keys != {}
      invariant keys <= kept.Keys <= m.Keys
      invariant forall k ::
        Lookup(kept, k) == if k in keys then Lookup(m, k) else AfterCleanup(Lookup(m, k), olderThan, now)
      invariant forall k :: k in kept && k !in keys ==> kept[k] != []
    {
      var k :| k in keys;
      keys := keys - {k};
      var recent := AfterCleanup(kept[k], olderThan, now);
      assert Lookup(kept, k) == Lookup(m, k);
      kept := if recent == [] then kept - {k} else kept[k := recent];
    }
  }

  method SortAndMerge(spans: seq<Span>) returns (merged: seq<Span>)
    requires spans != [] && forall i :: 0 <= i < |spans| ==> spans[i].0 < spans[i].1
    ensures merged != [] && Separated(merged)
    ensures forall t :: InSome(merged, t) <==> InSome(spans, t)
  {
    var sorted := SortSpans(spans);
    assert |sorted| == |multiset(sorted)| == |multiset(spans)| == |spans|;
    forall i | 0 <= i < |sorted| ensures sorted[i].0 < sorted[i].1 {
      assert sorted[i] in multiset(spans);
    }
    merged := MergeSpans(sorted);
    forall t ensures InSome(merged, t) <==> InSome(spans, t) {
      SameCover(sorted, spans, t);
    }
  }

  method Total(spans: seq<Span>) returns (total: int)
    ensures total == SpanSum(spans)
  {
    total := 0;
    for i := 0 to |spans|
      invariant total == SpanSum(spans[..i])
    {
      assert spans[..i + 1][..i] == spans[..i];
      total := total + (spans[i].1 - spans[i].0);
    }
    assert spans[..|spans|] == spans;
  }

  lemma CoverIsConnected(ivs: seq<Interval>, lo: int, now: int, spans: seq<Span>, merged: seq<Span>)
    requires Separated(merged)
    requires forall t :: InSome(spans, t) <==> lo <= t < now && Connected(ivs, now, t)
    requires forall t :: InSome(merged, t) <==> InSome(spans, t)
    ensures SpanSum(merged) == |ConnectedSeconds(ivs, lo, now)|
    ensures SpanSeconds(merged) == ConnectedSeconds(ivs, lo, now)
  {
    forall t ensures t in SpanSeconds(merged) <==> t in ConnectedSeconds(ivs, lo, now) {
      SpanSecondsMembers(merged, t);
      assert InSome(merged, t) <==> InSome(spans, t);
    }
    assert SpanSeconds(merged) == ConnectedSeconds(ivs, lo, now);
    SpanSumCounts(merged);
  }

  /** The end of the last separated span is one past the last covered second. */
  lemma LastCovered(merged: seq<Span>, covered: set<int>)
    requires merged != [] && Separated(merged) && covered == SpanSeconds(merged)
    ensures var end := merged[|merged| - 1].1; end - 1 in covered && forall t :: t in covered ==> t < end
  {
    var last := |merged| - 1;
    assert InSpan(merged[last], merged[last].1 - 1);
    SpanSecondsMembers(merged, merged[last].1 - 1);
    forall t | t in covered ensures t < merged[last].1 {
      SpanSecondsMembers(merged, t);
      var i :| 0 <= i < |merged| && InSpan(merged[i], t);
      assert i < last ==> merged[i].1 < merged[last].0;
    }
  }

  /** The replay of start and end events: their sorted times, walked to the last one. */
  method LastEventTime(merged: seq<Span>, now: int) returns (lastEventTime: int)
    requires merged != [] && Separated(merged) && forall i :: 0 <= i < |merged| ==> merged[i].1 <= now
    ensures lastEventTime == merged[|merged| - 1].1
  {
    ghost var end := merged[|merged| - 1];
    var events: seq<Span> := [];
    for i := 0 to |merged|
      invariant forall k :: 0 <= k < |events| ==> events[k].0 <= end.1
      invariant i > 0 ==> |events| > 0 && events[|events| - 1] == (merged[i - 1].1, -1)
    {
      assert i < |merged| - 1 ==> merged[i].1 < end.0;
      events := events + [(merged[i].0, 1), (merged[i].1, -1)];
    }
    var sorted := SortSpans(events);
    LastOfSorted(events, sorted, (end.1, -1));
    var activeIntervals := 0;
    lastEventTime := now;
    for i := 0 to |sorted|
      invariant i > 0 ==> lastEventTime == sorted[i - 1].0
    {
      if sorted[i].0 <= now {
        activeIntervals := activeIntervals + sorted[i].1;
        lastEventTime := sorted[i].0;
      } else {
        assert false;
      }
    }
  }

  lemma LastOfSorted(events: seq<Span>, sorted: seq<Span>, top: Span)
    requires Sorted(sorted) && multiset(sorted) == multiset(events)
    requires events != [] && events[|events| - 1] == top && forall k :: 0 <= k < |events| ==> events[k].0 <= top.0
    ensures sorted != [] && sorted[|sorted| - 1].0 == top.0
    ensures forall k :: 0 <= k < |sorted| ==> sorted[k].0 <= top.0
  {
    forall k | 0 <= k < |sorted| ensures sorted[k].0 <= top.0 {
      assert sorted[k] in multiset(events);
    }
    assert top in multiset(sorted);
    var i :| 0 <= i < |sorted| && sorted[i] == top;
    assert SpanLeq(sorted[i], sorted[|sorted| - 1]);
  }

  // ---------- Whole runs ----------

  /** A call that changes the store of one address. */
  datatype Op = Ping(state: ConversationState, time: int) | Cleanup(olderThan: int, time: int)

  /** The interval store after a run; the tracker's methods are its single steps. */
  function Replay(ops: seq<Op>): seq<Interval>
  {
    if ops == [] then []
    else
      var ivs := Replay(ops[..|ops| - 1]);
      match ops[|ops| - 1]
      case Ping(state, time) => AfterPing(ivs, state, time)
      case Cleanup(olderThan, time) => AfterCleanup(ivs, olderThan, time)
  }

  /** Every state change ever reported, cleaned up or not. */
  function History(ops: seq<Op>): seq<Event>
  {
    if ops == [] then []
    else
      var events := History(ops[..|ops| - 1]);
      match ops[|ops| - 1]
      case Ping(state, time) => events + [Event(state, time)]
      case Cleanup(_, _) => events
  }

  /** The clock never runs backwards, and no time lies after `now`. */
  predicate ClockedBy(ops: seq<Op>, now: int)
  {
    && (forall i, j :: 0 <= i < j < |ops| ==> ops[i].time <= ops[j].time)
    && (forall i :: 0 <= i < |ops| ==> ops[i].time <= now)
  }

  /** No cleanup reached past second t, and none used a cut-off in its own future. */
  predicate KeptSince(ops: seq<Op>, t: int)
  {
    forall i :: 0 <= i < |ops| && ops[i].Cleanup? ==> ops[i].olderThan <= t && ops[i].olderThan <= ops[i].time
  }

  function Bump(count: nat, state: ConversationState): nat
  {
    match state
    case Running => count + 1
    case Ended => if count == 0 then 0 else count - 1
    case _ => count
  }

  /** Open connections at second t by the event log: started less ended, never below zero. */
  function Counter(events: seq<Event>, t: int): nat
  {
    if events == [] then 0
    else
      var before := Counter(events[..|events| - 1], t);
      var last := events[|events| - 1];
      if last.time <= t then Bump(before, last.state) else before
  }

  function Covers(iv: Interval, t: int): bool
  {
    iv.startTime <= t && (iv.endTime.None? || t < iv.endTime.value)
  }

  /** How many intervals cover second t. */
  function Cover(ivs: seq<Interval>, t: int): nat
  {
    if ivs == [] then 0
    else Cover(ivs[..|ivs| - 1], t) + if Covers(ivs[|ivs| - 1], t) then 1 else 0
  }

  function Open(ivs: seq<Interval>): nat
  {
    if ivs == [] then 0
    else Open(ivs[..|ivs| - 1]) + if ivs[|ivs| - 1].endTime.None? then 1 else 0
  }

  predicate UpTo(ivs: seq<Interval>, now: int)
  {
    forall i :: 0 <= i < |ivs| ==> ivs[i].startTime <= now && (ivs[i].endTime.Some? ==> ivs[i].endTime.value <= now)
  }

  lemma {:induction false} CloseLatestEffect(ivs: seq<Interval>, now: int, t: int)
    requires t < now
    ensures Cover(CloseLatest(ivs, now), t) == Cover(ivs, t)
    ensures Open(CloseLatest(ivs, now)) == if Open(ivs) == 0 then 0 else Open(ivs) - 1
    ensures |CloseLatest(ivs, now)| == |ivs|
    ensures UpTo(ivs, now) ==> UpTo(CloseLatest(ivs, now), now)
  {
    if ivs != [] {
      var init, last := ivs[..|ivs| - 1], ivs[|ivs| - 1];
      var closed := CloseLatest(ivs, now);
      CloseLatestEffect(init, now, t);
      if last.endTime.None? {
        assert closed[..|closed| - 1] == init;
      } else {
        assert closed[..|closed| - 1] == CloseLatest(init, now);
      }
    }
  }

  lemma {:induction false} CleanupEffect(ivs: seq<Interval>, olderThan: int, now: int, t: int)
    requires olderThan <= t && olderThan <= now
    ensures Cover(AfterCleanup(ivs, olderThan, now), t) == Cover(ivs, t)
    ensures Open(AfterCleanup(ivs, olderThan, now)) == Open(ivs)
    ensures UpTo(ivs, now) ==> UpTo(AfterCleanup(ivs, olderThan, now), now)
  {
    if ivs != [] {
      var init, last := ivs[..|ivs| - 1], ivs[|ivs| - 1];
      CleanupEffect(init, olderThan, now, t);
      var kept := AfterCleanup(ivs, olderThan, now);
      if EndOr(last, now) >= olderThan {
        assert kept[..|kept| - 1] == AfterCleanup(init, olderThan, now);
      }
    }
  }

  lemma {:induction false} CoverWhenAllPast(ivs: seq<Interval>, now: int, t: int)
    requires UpTo(ivs, now) && now <= t
    ensures Cover(ivs, t) == Open(ivs)
  {
    if ivs != [] {
      CoverWhenAllPast(ivs[..|ivs| - 1], now, t);
    }
  }

  lemma {:induction false} CounterWhenAllPast(events: seq<Event>, t: int, u: int)
    requires forall i :: 0 <= i < |events| ==> events[i].time <= t && events[i].time <= u
    ensures Counter(events, t) == Counter(events, u)
  {
    if events != [] {
      CounterWhenAllPast(events[..|events| - 1], t, u);
    }
  }

  lemma {:induction false} HistoryUpTo(ops: seq<Op>, now: int)
    requires ClockedBy(ops, now)
    ensures forall i :: 0 <= i < |History(ops)| ==> History(ops)[i].time <= now
  {
    if ops != [] {
      HistoryUpTo(ops[..|ops| - 1], now);
    }
  }

  /** After every run, the number of intervals that cover a second no cleanup has reached is
      the event counter of the complete log at that second; and the open intervals are the
      counter's final value. Which interval an end event closes does not matter. */
  lemma {:induction false} CoverIsCounter(ops: seq<Op>, now: int, t: int)
    requires ClockedBy(ops, now) && KeptSince(ops, t)
    ensures Cover(Replay(ops), t) == Counter(History(ops), t)
    ensures Open(Replay(ops)) == Counter(History(ops), now)
    ensures UpTo(Replay(ops), now)
  {
    if ops != [] {
      var init, last := ops[..|ops| - 1], ops[|ops| - 1];
      var ivs := Replay(init);
      CoverIsCounter(init, last.time, t);
      HistoryUpTo(init, last.time);
      CounterWhenAllPast(History(init), last.time, now);
      match last {
        case Cleanup(olderThan, time) =>
          CleanupEffect(ivs, olderThan, time, t);
        case Ping(state, time) =>
          var events := History(ops);
          assert events[..|events| - 1] == History(init);
          PingEffect(ivs, state, time, t);
          if time <= t {
            CoverWhenAllPast(Replay(ops), time, t);
            CounterWhenAllPast(History(init), time, t);
          }
      }
    }
  }

  lemma PingEffect(ivs: seq<Interval>, state: ConversationState, now: int, t: int)
    requires UpTo(ivs, now)
    ensures UpTo(AfterPing(ivs, state, now), now)
    ensures Open(AfterPing(ivs, state, now)) == Bump(Open(ivs), state)
    ensures t < now ==> Cover(AfterPing(ivs, state, now), t) == Cover(ivs, t)
  {
    CloseLatestEffect(ivs, now, if t < now then t else now - 1);
    var started := ivs + [Interval(now, None)];
    assert started[..|started| - 1] == ivs;
  }

  lemma {:induction false} ConnectedIsCovered(ivs: seq<Interval>, now: int, t: int)
    requires t < now
    ensures Connected(ivs, now, t) <==> Cover(ivs, t) > 0
  {
    if ivs != [] {
      ConnectedIsCovered(ivs[..|ivs| - 1], now, t);
      ConnectedMore(ivs, |ivs| - 1, now, t);
      assert ivs[..|ivs| - 1 + 1] == ivs;
    }
  }

  /** The seconds of [lo, now) at which the log says a connection was open. */
  ghost function LoggedSeconds(events: seq<Event>, lo: int, now: int): set<int>
  {
    set t: int | lo <= t < now && Counter(events, t) > 0
  }

  /** Main result. For any run of state changes and cleanups with a clock that does not run
      backwards, the answer of GetTime is the number of seconds of the window at which the
      counter of the complete event log is positive, provided the window is one a signed 64-bit
      subtraction can express and no cleanup reached into it. */
  lemma TimeIsLoggedTime(ops: seq<Op>, now: int, timeWindow: int)
    requires 0 <= now < U63 && 0 <= timeWindow <= now + U63
    requires ClockedBy(ops, now) && KeptSince(ops, now - timeWindow)
    ensures ConnectedSeconds(Replay(ops), WindowStart(now, timeWindow), now)
        == LoggedSeconds(History(ops), now - timeWindow, now)
  {
    WindowStartExact(now, timeWindow);
    forall t | now - timeWindow <= t < now ensures Connected(Replay(ops), now, t) <==> Counter(History(ops), t) > 0 {
      CoverIsCounter(ops, now, t);
      ConnectedIsCovered(Replay(ops), now, t);
    }
  }

  lemma WindowStartExact(now: int, timeWindow: int)
    requires 0 <= now < U63 && 0 <= timeWindow < U64
    ensures timeWindow <= now + U63 <==> WindowStart(now, timeWindow) == now - timeWindow
    ensures timeWindow > now + U63 <==> WindowStart(now, timeWindow) == now - timeWindow + U64
  {
    if now - timeWindow < 0 {
      assert (now - timeWindow) % U64 == now - timeWindow + U64;
    } else {
      assert (now - timeWindow) % U64 == now - timeWindow;
    }
  }

  /** What the 64-bit window start does to every other window: one too long for the signed time
      wraps to a start after now, and the answer is 0 whatever the log says. */
  lemma TimeForEveryWindow(ops: seq<Op>, now: int, timeWindow: int)
    requires 0 <= now < U63 && 0 <= timeWindow < U64
    requires ClockedBy(ops, now) && KeptSince(ops, now - timeWindow)
    ensures ConnectedSeconds(Replay(ops), WindowStart(now, timeWindow), now) ==
            if timeWindow <= now + U63 then LoggedSeconds(History(ops), now - timeWindow, now) else {}
  {
    WindowStartExact(now, timeWindow);
    if timeWindow <= now + U63 {
      TimeIsLoggedTime(ops, now, timeWindow);
    }
  }

  /** One such window: an address connected since time 0, asked at time 10, gets the answer 0. */
  lemma WrappedWindowForgets()
    ensures var ops := [Ping(Running, 0)]; var timeWindow := U63 + 11;
      && ClockedBy(ops, 10) && KeptSince(ops, 10 - timeWindow)
      && ConnectedSeconds(Replay(ops), WindowStart(10, timeWindow), 10) == {}
      && 5 in LoggedSeconds(History(ops), 10 - timeWindow, 10)
  {
    var ops := [Ping(Running, 0)];
    TimeForEveryWindow(ops, 10, U63 + 11);
    assert ops[..0] == [];
    assert History(ops) == [Event(Running, 0)];
    assert [Event(Running, 0)][..0] == [];
    assert Counter([Event(Running, 0)], 5) == 1;
  }

  /** The answer never exceeds the window. */
  lemma TimeWithinWindow(ivs: seq<Interval>, now: int, timeWindow: int)
    requires 0 <= now < U63 && 0 <= timeWindow < U64
    ensures |ConnectedSeconds(ivs, WindowStart(now, timeWindow), now)| <= timeWindow
  {
    WindowStartExact(now, timeWindow);
    var lo := WindowStart(now, timeWindow);
    var used := ConnectedSeconds(ivs, lo, now);
    if lo <= now {
      SecondsCount(lo, now);
      assert used <= Seconds(lo, now);
      SubsetSize(used, Seconds(lo, now));
    } else {
      assert used == {};
    }
  }

  lemma {:induction false} SubsetSize<T>(xs: set<T>, ys: set<T>)
    requires xs <= ys
    ensures |xs| <= |ys|
  {
    if xs != {} {
      var x :| x in xs;
      SubsetSize(xs - {x}, ys - {x});
    }
  }

  /** A cleanup whose cut-off is not after the window start never changes the answer, now or
      at any later time. */
  lemma CleanupKeepsTime(ivs: seq<Interval>, olderThan: int, now: int, lo: int, later: int)
    requires olderThan <= lo && olderThan <= now <= later
    ensures ConnectedSeconds(AfterCleanup(ivs, olderThan, now), lo, later) == ConnectedSeconds(ivs, lo, later)
  {
    forall t | lo <= t < later ensures Connected(AfterCleanup(ivs, olderThan, now), later, t) <==>
        Connected(ivs, later, t) {
      CleanupEffect(ivs, olderThan, now, t);
      ConnectedIsCovered(ivs, later, t);
      ConnectedIsCovered(AfterCleanup(ivs, olderThan, now), later, t);
    }
  }

  /** Exactly when a cleanup keeps every open connection: unless its cut-off is in the future. */
  lemma {:induction false} CleanupKeepsOpen(ivs: seq<Interval>, olderThan: int, now: int)
    ensures Open(AfterCleanup(ivs, olderThan, now)) == if olderThan <= now then Open(ivs) else 0
  {
    if ivs != [] {
      var init, last := ivs[..|ivs| - 1], ivs[|ivs| - 1];
      CleanupKeepsOpen(init, olderThan, now);
      var kept := AfterCleanup(ivs, olderThan, now);
      if EndOr(last, now) >= olderThan {
        assert kept[..|kept| - 1] == AfterCleanup(init, olderThan, now);
      }
    }
  }

  // ---------- Which intervals and entries ----------

  /** Ending a connection ends the last interval that is still open, and no other. */
  lemma {:induction false} LastOpenIsClosed(before: seq<Interval>, start: int, after: seq<Interval>, now: int)
    requires forall i | 0 <= i < |after| :: after[i].endTime.Some?
    ensures AfterPing(before + [Interval(start, None)] + after, Ended, now)
         == before + [Interval(start, Some(now))] + after
    decreases |after|
  {
    var ivs := before + [Interval(start, None)] + after;
    if after == [] {
      assert ivs == before + [Interval(start, None)];
    } else {
      var init, last := after[..|after| - 1], after[|after| - 1];
      LastOpenIsClosed(before, start, init, now);
      assert ivs[..|ivs| - 1] == before + [Interval(start, None)] + init && ivs[|ivs| - 1] == last;
      assert before + [Interval(start, Some(now))] + init + [last] == before + [Interval(start, Some(now))] + after;
    }
  }

  /** With no open interval, an end changes nothing. */
  lemma {:induction false} NothingToClose(ivs: seq<Interval>, now: int)
    requires forall i | 0 <= i < |ivs| :: ivs[i].endTime.Some?
    ensures AfterPing(ivs, Ended, now) == ivs
  {
    if ivs != [] { NothingToClose(ivs[..|ivs| - 1], now); }
  }

  /** A cleanup goes through the intervals in order, and drops one exactly when it ended, or would
      end now, before the cut-off. */
  lemma {:induction false} CleanupIsFilter(a: seq<Interval>, b: seq<Interval>, olderThan: int, now: int)
    ensures AfterCleanup(a + b, olderThan, now) == AfterCleanup(a, olderThan, now) + AfterCleanup(b, olderThan, now)
    ensures |b| == 1 ==>
              var ended := if b[0].endTime.None? then now else b[0].endTime.value;
              AfterCleanup(b, olderThan, now) == if ended < olderThan then [] else b
  {
    if b == [] {
      assert a + b == a;
    } else {
      CleanupIsFilter(a, b[..|b| - 1], olderThan, now);
      assert (a + b)[..|a + b| - 1] == a + b[..|b| - 1];
    }
  }

  /** The same for the log and the times of its entries. */
  lemma {:induction false} RecentIsFilter(a: seq<Event>, b: seq<Event>, olderThan: int)
    ensures RecentEvents(a + b, olderThan) == RecentEvents(a, olderThan) + RecentEvents(b, olderThan)
    ensures |b| == 1 ==> RecentEvents(b, olderThan) == if b[0].time < olderThan then [] else b
  {
    if b == [] {
      assert a + b == a;
    } else {
      RecentIsFilter(a, b[..|b| - 1], olderThan);
      assert (a + b)[..|a + b| - 1] == a + b[..|b| - 1];
    }
  }
}
