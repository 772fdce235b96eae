/** The byte buffer that signatures and cache keys are computed over (CDataConcatenator),
    with its fixed operations and the legacy ones kept for old transactions. */
module DataConcatenator {
  import opened Bytes

  type Octets = seq<byte>

  /** An operation with the bytes its value was encoded to. The last three write without
      advancing the offset. */
  datatype Op =
    | Word(b: Octets)           // a native value as eight bytes
    | Vector(b: Octets)
    | Text(b: Octets)
    | VectorOrWord(b: Octets)   // an empty vector adds eight zero bytes
    | Big(b: Octets)
    | Raw(b: Octets)            // a native value in its own width, out of compatibility mode
    | LegacyVectorOrWord(b: Octets)
    | LegacyBig(b: Octets)

  datatype State = State(data: Octets, offset: nat)

  const Empty := State([], 0)

  const WordSize: nat := 8

  function Zeros(n: nat): Octets { seq(n, _ => 0) }

  /** Copies `b` over what stands at `at`. */
  function Overwrite(data: Octets, at: nat, b: Octets): (r: Octets)
    requires at + |b| <= |data|
    ensures |r| == |data|
  {
    data[..at] + b + data[at + |b|..]
  }

  predicate WellFormed(s: State) { s.offset <= |s.data| }

  predicate Fits(s: State, limit: nat, n: nat) {
    limit == 0 || |s.data| + n <= limit
  }

  /** Grows the buffer by the length of `b` and writes `b` at the offset. */
  function Appended(s: State, b: Octets): State
    requires WellFormed(s)
  {
    State(Overwrite(s.data + Zeros(|b|), s.offset, b), s.offset + |b|)
  }

  /** Grows the buffer by `n`, writes `b` at the offset, and leaves the offset. */
  function Lagging(s: State, b: Octets): State
    requires WellFormed(s)
  {
    State(Overwrite(s.data + Zeros(|b|), s.offset, b), s.offset)
  }

  /** From `s` to `t` the buffer grew by the length of `b`, which now stands where the offset
      stood; the rest is as it was, or zero. */
  ghost predicate Wrote(s: State, t: State, b: Octets, advance: nat) {
    && |t.data| == |s.data| + |b| && t.offset == s.offset + advance
    && (forall i | 0 <= i < |t.data| :: t.data[i] ==
          if s.offset <= i < s.offset + |b| then b[i - s.offset] else if i < |s.data| then s.data[i] else 0)
  }

  /** Copying the start of the buffer to the offset must not overlap. */
  predicate Allowed(s: State, op: Op) {
    && (op.LegacyBig? ==> |op.b| <= s.offset)
    && (op.Word? ==> |op.b| == WordSize)
  }

  predicate Accepts(s: State, limit: nat, op: Op) {
    match op
    case Word(b) => Fits(s, limit, |b|)
    case Text(b) => Fits(s, limit, |b|)
    case Vector(b) => b == [] || Fits(s, limit, |b|)
    case VectorOrWord(b) => b == [] || Fits(s, limit, |b|)
    case LegacyVectorOrWord(b) => b == [] || Fits(s, limit, |b|)
    case Big(_) => true
    case Raw(_) => true
    case LegacyBig(_) => true
  }

  function Step(s: State, limit: nat, op: Op): State
    requires WellFormed(s) && Allowed(s, op)
  {
    if !Accepts(s, limit, op) then s else
      match op
      case Word(b) => Appended(s, b)
      case Text(b) => Appended(s, b)
      case Vector(b) => Appended(s, b)
      case Big(b) => Appended(s, b)
      case VectorOrWord(b) => Appended(s, if b == [] then Zeros(WordSize) else b)
      case LegacyVectorOrWord(b) => if b == [] then Lagging(s, Zeros(WordSize)) else Appended(s, b)
      case Raw(b) => Lagging(s, b)
      case LegacyBig(b) => Lagging(s, (s.data + Zeros(|b|))[..|b|])
  }

  /** What an operation adds at the offset, and how far it leaves the offset behind. */
  function Encoding(op: Op): Octets {
    if op.LegacyBig? || op.Raw? || (op.LegacyVectorOrWord? && op.b == []) then []
    else if op.VectorOrWord? && op.b == [] then Zeros(WordSize)
    else op.b
  }

  function Lag(op: Op): nat {
    if op.LegacyBig? || op.Raw? then |op.b| else if op.LegacyVectorOrWord? && op.b == [] then WordSize else 0
  }

  // ---------------------------------------------------------------- runs

  /** The operations so far, the latest outermost. */
  datatype Run = Start | Then(before: Run, op: Op)

  ghost predicate Possible(run: Run, limit: nat) {
    run.Then? ==>
      && Possible(run.before, limit)
      && WellFormed(After(run.before, limit)) && Allowed(After(run.before, limit), run.op)
  }

  ghost function After(run: Run, limit: nat): State {
    match run
    case Start => Empty
    case Then(before, op) =>
      var s := After(before, limit);
      if WellFormed(s) && Allowed(s, op) then Step(s, limit, op) else s
  }

  /** The encodings of the accepted operations, in order. */
  ghost function Written(run: Run, limit: nat): Octets {
    match run
    case Start => []
    case Then(before, op) =>
      Written(before, limit) + if Accepts(After(before, limit), limit, op) then Encoding(op) else []
  }

  ghost function TotalLag(run: Run, limit: nat): nat {
    match run
    case Start => 0
    case Then(before, op) =>
      TotalLag(before, limit) + if Accepts(After(before, limit), limit, op) then Lag(op) else 0
  }

  lemma AppendedExtends(s: State, b: Octets)
    requires WellFormed(s)
    ensures var t := Appended(s, b); WellFormed(t) && t.data[..t.offset] == s.data[..s.offset] + b
    ensures |Appended(s, b).data| == |s.data| + |b|
  { }

  lemma LaggingKeeps(s: State, b: Octets)
    requires WellFormed(s)
    ensures var t := Lagging(s, b); WellFormed(t) && t.data[..t.offset] == s.data[..s.offset]
    ensures |Lagging(s, b).data| == |s.data| + |b|
  { }

  lemma StepWrites(s: State, limit: nat, op: Op)
    requires WellFormed(s) && Allowed(s, op) && Accepts(s, limit, op)
    ensures var t := Step(s, limit, op);
      && WellFormed(t) && t.data[..t.offset] == s.data[..s.offset] + Encoding(op)
      && t.offset == s.offset + |Encoding(op)| && |t.data| == |s.data| + |Encoding(op)| + Lag(op)
  {
    AppendedExtends(s, Encoding(op));
    if op.Raw? {
      LaggingKeeps(s, op.b);
      assert s.data[..s.offset] + [] == s.data[..s.offset];
    } else if op.LegacyBig? {
      LaggingKeeps(s, (s.data + Zeros(|op.b|))[..|op.b|]);
      assert s.data[..s.offset] + [] == s.data[..s.offset];
    } else if op.LegacyVectorOrWord? && op.b == [] {
      LaggingKeeps(s, Zeros(WordSize));
      assert s.data[..s.offset] + [] == s.data[..s.offset];
    }
  }

  /** Over any run the bytes before the offset are the encodings in order, and the buffer is
      longer than the offset by exactly what the legacy operations left behind. */
  lemma {:induction false} RunWrites(run: Run, limit: nat)
    requires Possible(run, limit)
    ensures var s := After(run, limit);
      && WellFormed(s) && s.data[..s.offset] == Written(run, limit)
      && s.offset == |Written(run, limit)| && |s.data| == s.offset + TotalLag(run, limit)
  {
    if run.Then? {
      RunWrites(run.before, limit);
      if Accepts(After(run.before, limit), limit, run.op) { StepWrites(After(run.before, limit), limit, run.op); }
    }
  }

  ghost predicate OnlyFixed(run: Run) {
    run.Then? ==> OnlyFixed(run.before) && !run.op.LegacyBig? && !run.op.Raw? && !run.op.LegacyVectorOrWord?
  }

  lemma {:induction false} FixedNeverLags(run: Run, limit: nat)
    requires OnlyFixed(run)
    ensures TotalLag(run, limit) == 0
  {
    if run.Then? { FixedNeverLags(run.before, limit); }
  }

  /** With fixed operations only, the buffer is the concatenation of their encodings. */
  lemma FixedIsConcatenation(run: Run, limit: nat)
    requires Possible(run, limit) && OnlyFixed(run)
    ensures After(run, limit).data == Written(run, limit)
  {
    RunWrites(run, limit);
    FixedNeverLags(run, limit);
    var s := After(run, limit);
    assert s.data[..s.offset] == s.data;
  }

  /** Two runs that differ only in the bytes of legacy big numbers, not in their lengths. */
  ghost predicate SameButLegacy(a: Run, b: Run) {
    match a
    case Start => b == Start
    case Then(before, op) =>
      && b.Then? && SameButLegacy(before, b.before)
      && (op == b.op || (op.LegacyBig? && b.op.LegacyBig? && |op.b| == |b.op.b|))
  }

  /** The buffer depends on a legacy big number only through its length: signatures computed
      over it do not cover the value. */
  lemma {:induction false} LegacyValuesDoNotCount(a: Run, b: Run, limit: nat)
    requires SameButLegacy(a, b)
    ensures After(a, limit) == After(b, limit)
  {
    if a.Then? { LegacyValuesDoNotCount(a.before, b.before, limit); }
  }

  /** Two runs that differ in one fixed big number, of the same length. */
  ghost predicate DifferInOneFixed(a: Run, b: Run) {
    && a.Then? && b.Then?
    && if a.before == b.before
       then a.op.Big? && b.op.Big? && |a.op.b| == |b.op.b| && a.op.b != b.op.b
       else a.op == b.op && DifferInOneFixed(a.before, b.before)
  }

  /** They take the same course, and write something else. */
  lemma {:induction false} DifferentWrites(a: Run, b: Run, limit: nat)
    requires DifferInOneFixed(a, b) && Possible(a, limit) && Possible(b, limit)
    ensures |After(a, limit).data| == |After(b, limit).data| && After(a, limit).offset == After(b, limit).offset
    ensures |Written(a, limit)| == |Written(b, limit)| && Written(a, limit) != Written(b, limit)
  {
    if a.before == b.before {
      DifferentLast(a.before, a.op.b, b.op.b, limit);
    } else {
      DifferentWrites(a.before, b.before, limit);
      SameLast(a.before, b.before, a.op, limit);
    }
  }

  lemma DifferentLast(run: Run, x: Octets, y: Octets, limit: nat)
    requires Possible(Then(run, Big(x)), limit) && |x| == |y| && x != y
    ensures var a, b := Then(run, Big(x)), Then(run, Big(y));
      && |After(a, limit).data| == |After(b, limit).data| && After(a, limit).offset == After(b, limit).offset
      && |Written(a, limit)| == |Written(b, limit)| && Written(a, limit) != Written(b, limit)
  {
    StepWrites(After(run, limit), limit, Big(x));
    StepWrites(After(run, limit), limit, Big(y));
    if Written(run, limit) + x == Written(run, limit) + y { SamePrefix(Written(run, limit), x, y); }
  }

  lemma SameLast(a: Run, b: Run, op: Op, limit: nat)
    requires Possible(Then(a, op), limit) && Possible(Then(b, op), limit)
    requires |After(a, limit).data| == |After(b, limit).data| && After(a, limit).offset == After(b, limit).offset
    requires |Written(a, limit)| == |Written(b, limit)| && Written(a, limit) != Written(b, limit)
    ensures var c, d := Then(a, op), Then(b, op);
      && |After(c, limit).data| == |After(d, limit).data| && After(c, limit).offset == After(d, limit).offset
      && |Written(c, limit)| == |Written(d, limit)| && Written(c, limit) != Written(d, limit)
  {
    SameSuffix(Written(a, limit), Written(b, limit), Encoding(op));
    SameSuffix(Written(a, limit), Written(b, limit), []);
    if Accepts(After(a, limit), limit, op) {
      StepWrites(After(a, limit), limit, op);
      StepWrites(After(b, limit), limit, op);
    }
  }

  /** A fixed big number is covered, wherever in a run it stands and whatever follows: another
      value of the same length gives another buffer. */
  lemma FixedValuesCount(a: Run, b: Run, limit: nat)
    requires DifferInOneFixed(a, b) && Possible(a, limit) && Possible(b, limit)
    ensures After(a, limit).data != After(b, limit).data
  {
    DifferentWrites(a, b, limit);
    RunWrites(a, limit);
    RunWrites(b, limit);
  }

  lemma SameSuffix(x: Octets, y: Octets, suffix: Octets)
    requires |x| == |y|
    ensures x + suffix == y + suffix ==> x == y
  {
    assert (x + suffix)[..|x|] == x && (y + suffix)[..|y|] == y;
  }

  lemma SamePrefix(p: Octets, x: Octets, y: Octets)
    requires p + x == p + y
    ensures x == y
  {
    assert (p + x)[|p|..] == x && (p + y)[|p|..] == y;
  }

  // ---------------------------------------------------------------- the buffer

  class Concatenator {
    const limit: nat
    var data: Octets
    var offset: nat

    constructor (limit: nat)
      ensures this.limit == limit && Abstract() == Empty
    {
      this.limit, data, offset := limit, [], 0;
    }

    ghost function Abstract(): State
      reads this
    {
      State(data, offset)
    }

    method Reset()
      modifies this
      ensures Abstract() == Empty
    {
      data, offset := [], 0;
    }

    /** Grow, copy at the offset, advance. */
    method Append(b: Octets)
      requires WellFormed(Abstract())
      modifies this
      ensures Abstract() == Appended(old(Abstract()), b)
      ensures Wrote(old(Abstract()), Abstract(), b, |b|)
    {
      data := data + Zeros(|b|);
      data := data[..offset] + b + data[offset + |b|..];
      offset := offset + |b|;
    }

    method AddWord(b: Octets) returns (ok: bool)
      requires WellFormed(Abstract()) && |b| == WordSize
      modifies this
      ensures ok <==> Accepts(old(Abstract()), limit, Word(b))
      ensures Abstract() == Step(old(Abstract()), limit, Word(b))
      ensures ok <==> limit == 0 || |old(data)| + |b| <= limit
      ensures if ok then Wrote(old(Abstract()), Abstract(), b, |b|) else Abstract() == old(Abstract())
    {
      if limit != 0 && |data| + |b| > limit { return false; }
      Append(b);
      return true;
    }

    /** Out of compatibility mode the value keeps its own width, and the offset stays. */
    method AddRaw(b: Octets) returns (ok: bool)
      requires WellFormed(Abstract())
      modifies this
      ensures ok && Abstract() == Step(old(Abstract()), limit, Raw(b))
      ensures Wrote(old(Abstract()), Abstract(), b, 0)
    {
      data := data + Zeros(|b|);
      data := data[..offset] + b + data[offset + |b|..];
      return true;
    }

    method AddText(b: Octets) returns (ok: bool)
      requires WellFormed(Abstract())
      modifies this
      ensures ok <==> Accepts(old(Abstract()), limit, Text(b))
      ensures Abstract() == Step(old(Abstract()), limit, Text(b))
      ensures ok <==> limit == 0 || |old(data)| + |b| <= limit
      ensures if ok then Wrote(old(Abstract()), Abstract(), b, |b|) else Abstract() == old(Abstract())
    {
      if limit != 0 && |data| + |b| > limit { return false; }
      Append(b);
      return true;
    }

    method AddVector(b: Octets) returns (ok: bool)
      requires WellFormed(Abstract())
      modifies this
      ensures ok <==> Accepts(old(Abstract()), limit, Vector(b))
      ensures Abstract() == Step(old(Abstract()), limit, Vector(b))
      ensures ok <==> b == [] || limit == 0 || |old(data)| + |b| <= limit
      ensures if ok then Wrote(old(Abstract()), Abstract(), b, |b|) else Abstract() == old(Abstract())
    {
      NothingAppended(Abstract());
      if |b| == 0 { return true; }
      if limit != 0 && |data| + |b| > limit { return false; }
      Append(b);
      return true;
    }

    method AddVectorOrWord(b: Octets) returns (ok: bool)
      requires WellFormed(Abstract())
      modifies this
      ensures ok <==> Accepts(old(Abstract()), limit, VectorOrWord(b))
      ensures Abstract() == Step(old(Abstract()), limit, VectorOrWord(b))
      ensures ok <==> b == [] || limit == 0 || |old(data)| + |b| <= limit
      ensures b == [] ==> Wrote(old(Abstract()), Abstract(), [0, 0, 0, 0, 0, 0, 0, 0], 8)
      ensures b != [] && ok ==> Wrote(old(Abstract()), Abstract(), b, |b|)
      ensures !ok ==> Abstract() == old(Abstract())
    {
      if |b| == 0 {
        Append(Zeros(WordSize));
        return true;
      }
      ok := AddVector(b);
    }

    method AddVectorOrWordLegacy(b: Octets) returns (ok: bool)
      requires WellFormed(Abstract())
      modifies this
      ensures ok <==> Accepts(old(Abstract()), limit, LegacyVectorOrWord(b))
      ensures Abstract() == Step(old(Abstract()), limit, LegacyVectorOrWord(b))
      ensures ok <==> b == [] || limit == 0 || |old(data)| + |b| <= limit
      ensures b == [] ==> Wrote(old(Abstract()), Abstract(), [0, 0, 0, 0, 0, 0, 0, 0], 0)
      ensures b != [] && ok ==> Wrote(old(Abstract()), Abstract(), b, |b|)
      ensures !ok ==> Abstract() == old(Abstract())
    {
      if |b| == 0 {
        data := data + Zeros(WordSize);
        data := data[..offset] + Zeros(WordSize) + data[offset + WordSize..];
        return true;
      }
      ok := AddVector(b);
    }

    method AddBig(b: Octets) returns (ok: bool)
      requires WellFormed(Abstract())
      modifies this
      ensures ok && Abstract() == Step(old(Abstract()), limit, Big(b))
      ensures Wrote(old(Abstract()), Abstract(), b, |b|)
    {
      Append(b);
      return true;
    }

    /** Copies the start of the buffer instead of the value, and leaves the offset. */
    method AddBigLegacy(b: Octets) returns (ok: bool)
      requires WellFormed(Abstract()) && |b| <= offset
      modifies this
      ensures ok && Abstract() == Step(old(Abstract()), limit, LegacyBig(b))
      ensures Wrote(old(Abstract()), Abstract(), old(data)[..|b|], 0)
    {
      data := data + Zeros(|b|);
      data := data[..offset] + data[..|b|] + data[offset + |b|..];
      return true;
    }
  }

  lemma NothingAppended(s: State)
    requires WellFormed(s)
    ensures Appended(s, []) == s
  {
    assert s.data + Zeros(0) == s.data;
    assert s.data[..s.offset] + [] + s.data[s.offset..] == s.data;
  }
}
