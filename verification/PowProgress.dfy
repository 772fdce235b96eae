/** How close a hash came to the target (CWorkUltimium): 256-bit numbers held as 32 bytes,
    least significant first, and read through four 64-bit windows. Ratios are exact reals. */
module PowProgress {
  import opened Arithmetic
  import opened Bytes

  type Hash = b: seq<byte> | |b| == 32 witness seq(32, _ => 0)

  /** The number whose little-endian bytes these are. */
  function Value(b: seq<byte>): nat {
    if b == [] then 0 else b[0] as nat + 256 * Value(b[1..])
  }

  lemma {:induction false} ValueSplits(b: seq<byte>, n: nat)
    requires n <= |b|
    ensures Value(b) == Value(b[..n]) + Value(b[n..]) * Power(n)
    ensures Value(b[..n]) < Power(n)
  {
    if n > 0 {
      ValueSplits(b[1..], n - 1);
      assert b[..n][1..] == b[1..][..n - 1] && b[1..][n - 1..] == b[n..];
      assert b[..n][0] == b[0];
      Regroup(Power(n - 1), Value(b[n..]));
    } else {
      assert b[n..] == b;
    }
  }

  lemma Regroup(p: nat, v: nat)
    ensures 256 * (v * p) == v * (256 * p)
  { }

  /** The 64-bit window `i`, window 3 being the most significant. */
  function Window(h: Hash, i: nat): nat
    requires i < 4
  {
    Value(h[8 * i..8 * i + 8])
  }

  /** The number left when the windows below `i` are dropped. */
  function High(h: Hash, i: nat): nat
    requires i <= 4
  {
    Value(h[8 * i..])
  }

  lemma HighStep(h: Hash, i: nat)
    requires i < 4
    ensures High(h, i) == Window(h, i) + U64 * High(h, i + 1) && Window(h, i) < U64
  {
    ValueSplits(h[8 * i..], 8);
    assert h[8 * i..][..8] == h[8 * i..8 * i + 8] && h[8 * i..][8..] == h[8 * (i + 1)..];
    EightBytes();
  }

  /** Dropping windows is dividing by a power of 2^64. */
  lemma HighIsQuotient(h: Hash, i: nat)
    requires i <= 4
    ensures High(h, i) == Value(h) / Power(8 * i)
  {
    ValueSplits(h, 8 * i);
    DivIs(Value(h), Power(8 * i), High(h, i), Value(h[..8 * i]));
  }

  lemma {:induction false} HighOrdered(a: Hash, b: Hash, i: nat)
    requires i <= 4 && Value(a) <= Value(b)
    ensures High(a, i) <= High(b, i)
  {
    if i == 0 {
      assert a[0..] == a && b[0..] == b;
    } else {
      HighOrdered(a, b, i - 1);
      HighStep(a, i - 1);
      HighStep(b, i - 1);
    }
  }

  lemma {:induction false} HighShrinks(h: Hash, i: nat, j: nat)
    requires i <= j <= 4
    ensures High(h, j) <= High(h, i)
    ensures High(h, i) == 0 ==> High(h, j) == 0
    decreases j
  {
    if i < j {
      HighShrinks(h, i, j - 1);
      HighStep(h, j - 1);
    }
  }

  // ---------------------------------------------------------------- the target's window

  /** `w` is the target's most significant non-zero window, or 0 for the zero target. */
  predicate TopWindow(target: Hash, w: nat) {
    w < 4 && High(target, w + 1) == 0 && (w > 0 ==> Window(target, w) != 0)
  }

  lemma TopWindowUnique(target: Hash, v: nat, w: nat)
    requires TopWindow(target, v) && TopWindow(target, w)
    ensures v == w
  {
    if v < w { HighShrinks(target, v + 1, w); HighStep(target, w); }
    if w < v { HighShrinks(target, w + 1, v); HighStep(target, v); }
  }

  method DetectTargetWindowOffset(target: Hash) returns (w: nat)
    ensures TopWindow(target, w)
  {
    var i: int := 3;
    while i >= 0
      invariant -1 <= i <= 3
      invariant High(target, i + 1) == 0
    {
      HighStep(target, i);
      if Window(target, i) != 0 { return i; }
      i := i - 1;
    }
    HighShrinks(target, 0, 1);
    return 0;
  }

  // ---------------------------------------------------------------- progress

  /** What the percentage means: compare hash and target with the windows below the target's
      top window dropped. */
  ghost predicate IsProgress(hash: Hash, target: Hash, p: real) {
    exists w :: TopWindow(target, w) && p == ProgressAt(hash, target, w)
  }

  function ProgressAt(hash: Hash, target: Hash, w: nat): real
    requires w < 4
  {
    if High(hash, w + 1) != 0 then 0.0
    else if High(hash, w) <= High(target, w) then 100.0
    else Capped(High(target, w), High(hash, w))
  }

  function Capped(t: nat, h: nat): real
    requires h > 0
  {
    var ratio := t as real / h as real;
    if ratio * 100.0 < 99.99 then ratio * 100.0 else 99.99
  }

  method CalculatePartialProgress(hash: Hash, target: Hash) returns (p: real)
    ensures forall q :: IsProgress(hash, target, q) <==> q == p
  {
    p := WindowedProgress(hash, target);
    forall q ensures IsProgress(hash, target, q) <==> q == p {
      if IsProgress(hash, target, q) { ProgressUnique(hash, target, p, q); }
    }
  }

  /** The comparison, window by window. */
  method WindowedProgress(hash: Hash, target: Hash) returns (p: real)
    ensures IsProgress(hash, target, p)
  {
    var w := DetectTargetWindowOffset(target);
    var t, h := Window(target, w), Window(hash, w);
    HighStep(target, w);
    HighStep(hash, w);
    var i := 3;
    while i > w
      invariant w <= i <= 3
      invariant High(hash, i + 1) == 0
    {
      HighStep(hash, i);
      HighShrinks(hash, w + 1, i);
      if Window(hash, i) != 0 { return 0.0; }
      i := i - 1;
    }
    if h <= t { return 100.0; }
    var percentage := t as real / h as real * 100.0;
    if percentage < 99.99 { return percentage; }
    return 99.99;
  }

  lemma ProgressUnique(hash: Hash, target: Hash, p: real, q: real)
    requires IsProgress(hash, target, p) && IsProgress(hash, target, q)
    ensures p == q
  {
    var v: nat :| TopWindow(target, v) && p == ProgressAt(hash, target, v);
    var w: nat :| TopWindow(target, w) && q == ProgressAt(hash, target, w);
    TopWindowUnique(target, v, w);
  }

  lemma RatioOrdered(t: nat, t': nat, h: nat, h': nat)
    requires t <= t' && 0 < h' <= h
    ensures 0.0 <= t as real / h as real <= t' as real / h' as real
  {
    Rational(t as real, h as real);
    Rational(t' as real, h' as real);
    DivOrdered(t as real, t' as real, h as real, h' as real);
  }

  lemma Rational(x: real, y: real)
    requires x >= 0.0 && y > 0.0
    ensures x / y >= 0.0 && (x / y) * y == x
  { }

  /** Cross-multiplied: `t / h > t' / h'` would make `t * h' > t' * h`. */
  lemma DivOrdered(t: real, t': real, h: real, h': real)
    requires 0.0 <= t <= t' && 0.0 < h' <= h
    ensures t / h <= t' / h'
  {
    MulOrdered(h', h, t');
    MulOrdered(t, t', h');
    CrossDiv(t, t', h, h');
  }

  lemma CrossDiv(t: real, t': real, h: real, h': real)
    requires h > 0.0 && h' > 0.0 && t * h' <= t' * h
    ensures t / h <= t' / h'
  { }

  lemma MulOrdered(x: real, y: real, c: real)
    requires c >= 0.0 && x <= y
    ensures x * c <= y * c
  { }

  lemma CappedOrdered(t: nat, t': nat, h: nat, h': nat)
    requires t <= t' && 0 < h' <= h
    ensures 0.0 <= Capped(t, h) <= Capped(t', h') <= 99.99
  {
    RatioOrdered(t, t', h, h');
    RatioOrdered(t', t', h', h');
  }

  /** The percentage lies between 0 and 100, and nothing lies between 99.99 and 100. */
  lemma ProgressInRange(hash: Hash, target: Hash, p: real)
    requires IsProgress(hash, target, p)
    ensures 0.0 <= p <= 99.99 || p == 100.0
  {
    var w: nat :| TopWindow(target, w) && p == ProgressAt(hash, target, w);
    if High(hash, w) > High(target, w) {
      CappedOrdered(High(target, w), High(target, w), High(hash, w), High(hash, w));
    }
  }

  /** A smaller hash never shows less progress. */
  lemma ProgressAntitone(a: Hash, b: Hash, target: Hash, p: real, q: real)
    requires Value(a) <= Value(b) && IsProgress(a, target, p) && IsProgress(b, target, q)
    ensures p >= q
  {
    ProgressInRange(a, target, p);
    ProgressInRange(b, target, q);
    var w: nat :| TopWindow(target, w) && p == ProgressAt(a, target, w);
    var v: nat :| TopWindow(target, v) && q == ProgressAt(b, target, v);
    TopWindowUnique(target, v, w);
    HighOrdered(a, b, w);
    HighOrdered(a, b, w + 1);
    if High(b, w + 1) == 0 && High(a, w) > High(target, w) {
      CappedOrdered(High(target, w), High(target, w), High(b, w), High(a, w));
    }
  }

  /** An easier target never shows less progress for the same hash. */
  lemma ProgressMonotoneInTarget(hash: Hash, hard: Hash, easy: Hash, p: real, q: real)
    requires Value(hard) <= Value(easy) && IsProgress(hash, hard, p) && IsProgress(hash, easy, q)
    ensures p <= q
  {
    ProgressInRange(hash, hard, p);
    ProgressInRange(hash, easy, q);
    var v: nat :| TopWindow(hard, v) && p == ProgressAt(hash, hard, v);
    var w: nat :| TopWindow(easy, w) && q == ProgressAt(hash, easy, w);
    EasierTargetNoLowerWindow(hard, easy, v, w);
    if v == w {
      SameWindowMonotone(hash, hard, easy, w);
    } else {
      HigherWindow(hash, hard, easy, v, w);
    }
  }

  lemma SameWindowMonotone(hash: Hash, hard: Hash, easy: Hash, w: nat)
    requires Value(hard) <= Value(easy) && w < 4
    ensures ProgressAt(hash, hard, w) <= ProgressAt(hash, easy, w)
  {
    HighOrdered(hard, easy, w);
    if High(hash, w) > High(hard, w) {
      CappedOrdered(High(hard, w), High(easy, w), High(hash, w), High(hash, w));
    }
  }

  lemma HigherWindow(hash: Hash, hard: Hash, easy: Hash, v: nat, w: nat)
    requires v < w < 4
    ensures ProgressAt(hash, hard, v) == 0.0 || ProgressAt(hash, easy, w) == 100.0
  {
    HighShrinks(hash, v + 1, w);
    HighShrinks(hash, v + 1, w + 1);
  }

  lemma EasierTargetNoLowerWindow(hard: Hash, easy: Hash, v: nat, w: nat)
    requires Value(hard) <= Value(easy) && TopWindow(hard, v) && TopWindow(easy, w)
    ensures v <= w
  {
    if w < v {
      HighShrinks(easy, w + 1, v);
      HighOrdered(hard, easy, v);
      HighStep(hard, v);
    }
  }

  /** 100 exactly when the hash does not exceed the target once both are divided by the
      weight of the target's top window; in particular for every hash that meets the target. */
  lemma HundredExactly(hash: Hash, target: Hash, w: nat, p: real)
    requires IsProgress(hash, target, p) && TopWindow(target, w)
    ensures p == 100.0 <==> Value(hash) / Power(8 * w) <= Value(target) / Power(8 * w)
    ensures Value(hash) <= Value(target) ==> p == 100.0
  {
    var v: nat :| TopWindow(target, v) && p == ProgressAt(hash, target, v);
    TopWindowUnique(target, v, w);
    HighIsQuotient(hash, w);
    HighIsQuotient(target, w);
    HighStep(hash, w);
    HighStep(target, w);
    if Value(hash) <= Value(target) { HighOrdered(hash, target, w); }
    if High(hash, w) > High(target, w) && High(hash, w + 1) == 0 {
      CappedOrdered(High(target, w), High(target, w), High(hash, w), High(hash, w));
    }
  }

  /** Between 0 and 100 the percentage is a hundred times the quotient of the two, cut off at
      99.99; it is 0 exactly when the hash reaches above the target's top window or the
      target is zero and the hash is not. */
  lemma PartialIsRatio(hash: Hash, target: Hash, w: nat, p: real)
    requires IsProgress(hash, target, p) && TopWindow(target, w)
    ensures 0.0 < p < 100.0 ==> IsCutOffRatio(p, High(target, w), High(hash, w))
    ensures p == 0.0 <==> High(hash, w + 1) != 0 || (Value(target) == 0 && High(hash, 0) > 0)
  {
    var v: nat :| TopWindow(target, v) && p == ProgressAt(hash, target, v);
    TopWindowUnique(target, v, w);
    PartialAtWindow(hash, target, w);
    ZeroTarget(target, w);
    HighShrinks(hash, 0, w + 1);
  }

  ghost predicate IsCutOffRatio(p: real, t: nat, h: nat) {
    && (p < 99.99 ==> p * h as real == 100.0 * t as real)
    && (p >= 99.99 ==> p == 99.99 && 99.99 * h as real <= 100.0 * t as real)
  }

  lemma PartialAtWindow(hash: Hash, target: Hash, w: nat)
    requires w < 4
    ensures var p := ProgressAt(hash, target, w);
      && (0.0 < p < 100.0 ==> IsCutOffRatio(p, High(target, w), High(hash, w)))
      && (p == 0.0 <==> High(hash, w + 1) != 0 || (High(target, w) == 0 && High(hash, w) > 0))
  {
    if High(hash, w + 1) == 0 && High(hash, w) > High(target, w) {
      CappedIsRatio(High(target, w), High(hash, w));
    }
  }

  lemma ZeroTarget(target: Hash, w: nat)
    requires TopWindow(target, w)
    ensures High(target, w) == 0 <==> Value(target) == 0
    ensures Value(target) == 0 ==> w == 0
  {
    assert target[0..] == target;
    HighShrinks(target, 0, w);
    HighStep(target, w);
  }

  lemma CappedIsRatio(t: nat, h: nat)
    requires h > 0
    ensures IsCutOffRatio(Capped(t, h), t, h)
    ensures Capped(t, h) == 0.0 <==> t == 0
  {
    Rational(t as real, h as real);
    var ratio := t as real / h as real;
    assert (ratio * 100.0) * h as real == 100.0 * (ratio * h as real);
    MulOrdered(99.99, if ratio * 100.0 < 99.99 then 99.99 else ratio * 100.0, h as real);
  }

  /** The converse of the last clause of HundredExactly fails: a hash above the target whose top window equals
      the target's still shows 100. */
  lemma HundredAboveTarget()
    ensures exists hash: Hash, target: Hash :: Value(hash) > Value(target) && IsProgress(hash, target, 100.0)
  {
    var target: Hash := seq(32, i => if i == 8 then 1 else 0);
    var hash: Hash := target[0 := 1];
    ValueSplits(target, 1);
    ValueSplits(hash, 1);
    assert target[1..] == hash[1..];
    assert Value(target[..1]) == 0 && Value(hash[..1]) == 1 by { assert target[..1] == [0] && hash[..1] == [1]; }
    assert target[8..] == hash[8..] && target[16..] == hash[16..];
    Zeros(target[16..]);
    assert target[8..16][0] == 1;
    assert TopWindow(target, 1);
    assert IsProgress(hash, target, ProgressAt(hash, target, 1));
  }

  lemma {:induction false} Zeros(b: seq<byte>)
    requires forall i | 0 <= i < |b| :: b[i] == 0
    ensures Value(b) == 0
  {
    if b != [] { Zeros(b[1..]); }
  }
}
