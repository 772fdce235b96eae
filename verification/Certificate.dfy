/** Cutting a data asset into authenticated chunks, and putting it together again
    (CCertificate). The keyed hash is a parameter: nothing is assumed of it unless
    a lemma says so. */
module Certificate {
  import opened Arithmetic
  import opened Bytes
  import opened Sequences

  /** What the keyed hash returns. */
  type Tag(==, !new)

  type Mac = seq<byte> -> Tag

  datatype Chunk = Chunk(begin: nat, end: nat, tag: Tag)

  datatype Outcome = Returned(ok: bool) | DividesByZero

  /** A file as the operating system shows it: the size it reports and the bytes that can
      really be read, which may be fewer. */
  datatype File = Missing | Opened(size: nat, contents: seq<byte>)

  // ---------------------------------------------------------------- partition arithmetic

  /** The source's chunk size: the minimum unless size over maximum is at least that. */
  function ChunkSize(size: nat, most: nat, least: nat): nat
    requires most > 0
  {
    if size / most < least then least else size / most
  }

  /** The source's number of chunks: one more when the step leaves a remainder. */
  function ChunkCount(size: nat, step: nat): nat
    requires step > 0
  {
    size / step + if size % step != 0 then 1 else 0
  }

  /** `n` pieces of `step` units reach `size`, and one piece fewer does not. */
  lemma CountIsCeiling(size: nat, step: nat, n: nat)
    requires step > 0
    ensures ChunkCount(size, step) <= n <==> size <= n * step
  {
    var q := size / step;
    assert size == q * step + size % step;
    if n < q { MulMono(n + 1, q, step); }
    if n > q { MulMono(q + 1, n, step); }
  }

  /** The documented maximum is met exactly when the minimum size decides or the maximum
      divides the size. */
  lemma MaximumIsMet(size: nat, most: nat, least: nat)
    requires most > 0 && ChunkSize(size, most, least) > 0
    ensures ChunkCount(size, ChunkSize(size, most, least)) <= most
       <==> least > size / most || size % most == 0
  {
    var q, step := size / most, ChunkSize(size, most, least);
    assert size == q * most + size % most;
    CountIsCeiling(size, step, most);
    assert q * most == most * q;
    if least > q {
      MulMono(q + 1, step, most);
      assert step * most == most * step && (q + 1) * most == q * most + most;
    }
  }

  /** When size over maximum decides, the count is the maximum plus the leftover, cut in
      pieces of the same size; so it is the maximum itself when the division is exact. */
  lemma CountWhenQuotientDecides(size: nat, most: nat, least: nat)
    requires most > 0 && 0 < size / most && least <= size / most
    ensures ChunkCount(size, ChunkSize(size, most, least)) == most + ChunkCount(size % most, size / most)
    ensures size % most == 0 ==> ChunkCount(size, ChunkSize(size, most, least)) == most
  {
    var q, r := size / most, size % most;
    assert size == q * most + r;
    assert r == (r / q) * q + r % q;
    assert (most + r / q) * q == q * most + (r / q) * q;
    DivIs(size, q, most + r / q, r % q);
  }

  /** Whatever decides, the count stays below twice the maximum. */
  lemma CountBelowTwiceMaximum(size: nat, most: nat, least: nat)
    requires most > 0 && ChunkSize(size, most, least) > 0
    ensures ChunkCount(size, ChunkSize(size, most, least)) <= 2 * most - 1
  {
    var q, r := size / most, size % most;
    if least > q {
      MaximumIsMet(size, most, least);
    } else {
      CountWhenQuotientDecides(size, most, least);
      CountIsCeiling(r, q, most - 1);
      MulMono(1, q, most - 1);
      assert q * (most - 1) == (most - 1) * q;
    }
  }

  /** and that bound is reached for every maximum. */
  lemma TwiceMaximumIsReached(most: nat)
    requires most > 0
    ensures ChunkCount(2 * most - 1, ChunkSize(2 * most - 1, most, 1)) == 2 * most - 1
  {
    assert 2 * most - 1 == 1 * most + (most - 1);
    assert (2 * most - 1) / most == 1 by { DivIs(2 * most - 1, most, 1, most - 1); }
  }

  /** What a step is for a size, a maximum and a minimum: no smaller than the minimum, large enough
      that the maximum of steps falls short of the size by less than one more unit each, and no
      larger than it need be. */
  ghost predicate IsStep(size: nat, most: nat, least: nat, step: nat) {
    && 0 < step && least <= step && size < (step + 1) * most
    && (step == least || step * most <= size)
  }

  /** Chunks of `step` bytes each but the last, which has at least one and at most that. */
  ghost predicate CutEvenly(chunks: seq<Chunk>, size: nat, step: nat) {
    && (forall i | 0 <= i < |chunks| - 1 :: chunks[i].end - chunks[i].begin == step)
    && (|chunks| - 1) * step < size <= |chunks| * step
  }

  lemma ChunkSizeIsStep(size: nat, most: nat, least: nat)
    requires most > 0 && ChunkSize(size, most, least) > 0
    ensures IsStep(size, most, least, ChunkSize(size, most, least))
  {
    var q, step := size / most, ChunkSize(size, most, least);
    assert size == q * most + size % most;
    MulMono(q, step, most);
    assert (step + 1) * most == step * most + most;
  }

  /** Only one step meets that description. */
  lemma StepIsDetermined(size: nat, most: nat, least: nat, one: nat, two: nat)
    requires most > 0 && IsStep(size, most, least, one) && IsStep(size, most, least, two)
    ensures one == two
  {
    if one < two { MulMono(one + 1, two, most); }
    if two < one { MulMono(two + 1, one, most); }
  }

  // ---------------------------------------------------------------- what a chunk list is

  /** The chunks follow one another, none is empty, and together they cover `[0, size)`. */
  ghost predicate Covers(chunks: seq<Chunk>, size: nat) {
    && (chunks == [] ==> size == 0)
    && (chunks != [] ==> chunks[0].begin == 0)
    && forall i | 0 <= i < |chunks| :: Follows(chunks, i, size)
  }

  /** Chunk `i` is not empty and ends where the next one begins, the last one at `size`. */
  ghost predicate Follows(chunks: seq<Chunk>, i: nat, size: nat)
    requires i < |chunks|
  {
    chunks[i].begin < chunks[i].end == if i == |chunks| - 1 then size else chunks[i + 1].begin
  }

  /** The chunk list of `data`: it covers it, and every tag is that of its slice. */
  ghost predicate Describes(mac: Mac, chunks: seq<Chunk>, data: seq<byte>) {
    && Covers(chunks, |data|)
    && forall i | 0 <= i < |chunks| :: Tagged(mac, chunks[i], data)
  }

  ghost predicate Tagged(mac: Mac, c: Chunk, data: seq<byte>) {
    c.begin <= c.end <= |data| && c.tag == mac(Slice(data, c))
  }

  function Slice(data: seq<byte>, c: Chunk): seq<byte>
    requires c.begin <= c.end <= |data|
  {
    data[c.begin..c.end]
  }

  lemma {:induction false} Ordered(chunks: seq<Chunk>, size: nat, i: nat, j: nat)
    requires Covers(chunks, size) && i < j < |chunks|
    ensures chunks[i].end <= chunks[j].begin
    decreases j - i
  {
    assert Follows(chunks, i, size);
    if i + 1 < j {
      Ordered(chunks, size, i + 1, j);
      assert Follows(chunks, i + 1, size);
    }
  }

  /** Covering is a partition: every position lies in exactly one chunk. */
  lemma EachPositionInOneChunk(chunks: seq<Chunk>, size: nat, p: nat)
    requires Covers(chunks, size) && p < size
    ensures exists i | 0 <= i < |chunks| ::
              && Holds(chunks[i], p)
              && forall j | 0 <= j < |chunks| :: Holds(chunks[j], p) ==> j == i
  {
    var i := Locate(chunks, size, p, 0);
    forall j | 0 <= j < |chunks| && Holds(chunks[j], p) ensures j == i {
      if i < j { Ordered(chunks, size, i, j); }
      if j < i { Ordered(chunks, size, j, i); }
    }
  }

  ghost predicate Holds(c: Chunk, p: nat) {
    c.begin <= p < c.end
  }

  ghost function Locate(chunks: seq<Chunk>, size: nat, p: nat, from: nat): (i: nat)
    requires Covers(chunks, size) && p < size && from < |chunks| && chunks[from].begin <= p
    ensures i < |chunks| && Holds(chunks[i], p)
    decreases |chunks| - from
  {
    assert Follows(chunks, from, size);
    if p < chunks[from].end then from else Locate(chunks, size, p, from + 1)
  }

  ghost predicate HoldsSlices(chunks: seq<Chunk>, data: seq<byte>, pieces: seq<seq<byte>>) {
    |chunks| <= |pieces| && forall i | 0 <= i < |chunks| :: HoldsSlice(chunks[i], data, pieces[i])
  }

  ghost predicate HoldsSlice(c: Chunk, data: seq<byte>, piece: seq<byte>) {
    c.begin <= c.end <= |data| && piece == Slice(data, c)
  }

  /** Pieces that equal the slices concatenate to the data. */
  lemma {:induction false} SlicesConcatenate(mac: Mac, chunks: seq<Chunk>, data: seq<byte>, pieces: seq<seq<byte>>,
    k: nat)
    requires Describes(mac, chunks, data) && k <= |chunks| <= |pieces|
    requires HoldsSlices(chunks, data, pieces)
    ensures k > 0 ==> Flatten(pieces[..k]) == data[..chunks[k - 1].end]
  {
    if k > 0 {
      SlicesConcatenate(mac, chunks, data, pieces, k - 1);
      assert pieces[..k][..k - 1] == pieces[..k - 1];
      if k > 1 { assert Follows(chunks, k - 2, |data|); }
    }
  }

  lemma PiecesConcatenate(mac: Mac, chunks: seq<Chunk>, data: seq<byte>, pieces: seq<seq<byte>>)
    requires Describes(mac, chunks, data) && HoldsSlices(chunks, data, pieces)
    ensures Flatten(pieces[..|chunks|]) == data
  {
    var n := |chunks|;
    SlicesConcatenate(mac, chunks, data, pieces, n);
    if n > 0 { assert Follows(chunks, n - 1, |data|); }
  }

  // ---------------------------------------------------------------- verification

  ghost predicate Injective(mac: Mac) {
    forall x, y :: mac(x) == mac(y) ==> x == y
  }

  /** verifySingleChunk on a declared chunk. */
  predicate Accepts(mac: Mac, c: Chunk, buffer: seq<byte>) {
    c.begin <= c.end <= |buffer| && mac(buffer[c.begin..c.end]) == c.tag
  }

  /** An answer, or the copy of a range that runs backwards. */
  datatype Verdict = Answer(ok: bool) | Undefined

  function Judged(mac: Mac, c: Chunk, buffer: seq<byte>): (r: Verdict)
    ensures r == Answer(true) <==> Accepts(mac, c, buffer)
    ensures r == Undefined <==> c.end < c.begin && c.end <= |buffer|
  {
    if c.end > |buffer| then Answer(false)
    else if c.begin > c.end then Undefined
    else Answer(mac(buffer[c.begin..c.end]) == c.tag)
  }

  predicate AcceptsAll(mac: Mac, chunks: seq<Chunk>, buffer: seq<byte>) {
    forall i | 0 <= i < |chunks| :: Accepts(mac, chunks[i], buffer)
  }

  /** Trailing bytes are never looked at: any extension of the data verifies. */
  lemma ExtensionsVerify(mac: Mac, chunks: seq<Chunk>, data: seq<byte>, buffer: seq<byte>)
    requires Describes(mac, chunks, data)
    requires data <= buffer
    ensures AcceptsAll(mac, chunks, buffer)
  {
    forall i | 0 <= i < |chunks| ensures Accepts(mac, chunks[i], buffer) {
      assert buffer[chunks[i].begin..chunks[i].end] == Slice(data, chunks[i]);
    }
  }

  /** With an injective keyed hash, exactly the extensions of the data verify. */
  lemma VerifiedBuffersStartWithData(mac: Mac, chunks: seq<Chunk>, data: seq<byte>, buffer: seq<byte>)
    requires Injective(mac) && Describes(mac, chunks, data)
    ensures AcceptsAll(mac, chunks, buffer) <==> data <= buffer
  {
    if data <= buffer { ExtensionsVerify(mac, chunks, data, buffer); }
    if AcceptsAll(mac, chunks, buffer) {
      BufferIsLongEnough(mac, chunks, data, buffer);
      forall p: nat | p < |data| ensures data[p] == buffer[p] {
        var i := Locate(chunks, |data|, p, 0);
        AcceptedByte(mac, chunks[i], data, buffer, p);
      }
    }
  }

  lemma BufferIsLongEnough(mac: Mac, chunks: seq<Chunk>, data: seq<byte>, buffer: seq<byte>)
    requires Describes(mac, chunks, data) && AcceptsAll(mac, chunks, buffer)
    ensures |data| <= |buffer|
  {
    var last := |chunks| - 1;
    if last >= 0 { assert Follows(chunks, last, |data|) && Accepts(mac, chunks[last], buffer); }
  }

  lemma AcceptedByte(mac: Mac, c: Chunk, data: seq<byte>, buffer: seq<byte>, p: nat)
    requires Injective(mac) && Accepts(mac, c, buffer)
    requires c.begin <= p < c.end <= |data| && c.tag == mac(Slice(data, c))
    ensures buffer[p] == data[p]
  {
    assert buffer[c.begin..c.end] == Slice(data, c);
    assert buffer[c.begin..c.end][p - c.begin] == Slice(data, c)[p - c.begin];
  }

  // ---------------------------------------------------------------- received pieces

  /** One call of storeChunk. */
  datatype Store = Store(begin: nat, end: nat, bytes: seq<byte>)

  /** The index storeChunk's search finds, or the number of chunks. */
  function Match(chunks: seq<Chunk>, begin: nat, end: nat): (i: nat)
    ensures i <= |chunks|
    ensures i < |chunks| ==> chunks[i].begin == begin && chunks[i].end == end
    ensures forall j | 0 <= j < i :: !(chunks[j].begin == begin && chunks[j].end == end)
  {
    MatchFrom(chunks, begin, end, 0)
  }

  function MatchFrom(chunks: seq<Chunk>, begin: nat, end: nat, from: nat): (i: nat)
    requires from <= |chunks|
    ensures from <= i <= |chunks|
    ensures i < |chunks| ==> chunks[i].begin == begin && chunks[i].end == end
    ensures forall j | from <= j < i :: !(chunks[j].begin == begin && chunks[j].end == end)
    decreases |chunks| - from
  {
    if from == |chunks| || (chunks[from].begin == begin && chunks[from].end == end) then from
    else MatchFrom(chunks, begin, end, from + 1)
  }

  /** Chunk `i` is the first declared with that range. */
  ghost predicate FirstWithRange(chunks: seq<Chunk>, i: nat, begin: nat, end: nat) {
    && i < |chunks| && chunks[i].begin == begin && chunks[i].end == end
    && forall j | 0 <= j < i :: !(chunks[j].begin == begin && chunks[j].end == end)
  }

  lemma MatchIsFirst(chunks: seq<Chunk>, begin: nat, end: nat)
    ensures forall i: nat :: FirstWithRange(chunks, i, begin, end) <==> i < |chunks| && i == Match(chunks, begin, end)
  { }

  predicate Stores(chunks: seq<Chunk>, s: Store) {
    s.begin < s.end && s.end - s.begin == |s.bytes| && Match(chunks, s.begin, s.end) < |chunks|
  }

  /** The piece list after a resize to at least `i + 1` and a write at `i`. */
  function Placed(pieces: seq<seq<byte>>, i: nat, bytes: seq<byte>): (r: seq<seq<byte>>)
    ensures |r| > i && |r| >= |pieces|
    ensures forall j | 0 <= j < |r| :: r[j] == if j == i then bytes else if j < |pieces| then pieces[j] else []
  {
    if i < |pieces| then pieces[i := bytes]
    else pieces + seq(i - |pieces|, _ => []) + [bytes]
  }

  function AfterStore(chunks: seq<Chunk>, pieces: seq<seq<byte>>, s: Store): seq<seq<byte>> {
    if Stores(chunks, s) then Placed(pieces, Match(chunks, s.begin, s.end), s.bytes) else pieces
  }

  /** The piece list after a whole series of calls, accepted or not. */
  function AfterStores(chunks: seq<Chunk>, pieces: seq<seq<byte>>, calls: seq<Store>): seq<seq<byte>> {
    if calls == [] then pieces
    else AfterStore(chunks, AfterStores(chunks, pieces, calls[..|calls| - 1]), calls[|calls| - 1])
  }

  /** verifyHotStorageChunk. */
  predicate HotVerifies(mac: Mac, chunks: seq<Chunk>, pieces: seq<seq<byte>>, i: nat) {
    i < |chunks| && i < |pieces| && mac(pieces[i]) == chunks[i].tag
  }

  ghost predicate AllHotVerify(mac: Mac, chunks: seq<Chunk>, pieces: seq<seq<byte>>) {
    |chunks| <= |pieces| && forall i | 0 <= i < |chunks| :: HotVerifies(mac, chunks, pieces, i)
  }

  function SliceCall(data: seq<byte>, c: Chunk): Store
    requires c.begin <= c.end <= |data|
  {
    Store(c.begin, c.end, Slice(data, c))
  }

  ghost predicate Delivered(c: Chunk, data: seq<byte>, calls: seq<Store>) {
    c.begin <= c.end <= |data| && SliceCall(data, c) in calls
  }

  /** The call is refused, or it carries what the data holds at its range. */
  ghost predicate StoresTrueBytes(chunks: seq<Chunk>, data: seq<byte>, s: Store) {
    Stores(chunks, s) ==> s.end <= |data| && s.bytes == data[s.begin..s.end]
  }

  /** In a covering list a range names one chunk, so the search finds that chunk. */
  lemma MatchFindsIt(chunks: seq<Chunk>, size: nat, i: nat)
    requires Covers(chunks, size) && i < |chunks|
    ensures Match(chunks, chunks[i].begin, chunks[i].end) == i
  {
    var m := Match(chunks, chunks[i].begin, chunks[i].end);
    assert Follows(chunks, i, size);
    if m < i { Ordered(chunks, size, m, i); }
  }

  /** Every slice delivered at least once, in any order, with repeats and with calls the
      certificate refuses in between: all chunks verify and the pieces are the data.
      Whatever an earlier chunk list left in the piece list does not matter. */
  lemma AnyOrderReassembles(mac: Mac, chunks: seq<Chunk>, data: seq<byte>, pieces: seq<seq<byte>>, calls: seq<Store>)
    requires Describes(mac, chunks, data)
    requires forall i | 0 <= i < |chunks| :: Delivered(chunks[i], data, calls)
    requires forall k | 0 <= k < |calls| :: StoresTrueBytes(chunks, data, calls[k])
    ensures var after := AfterStores(chunks, pieces, calls);
      AllHotVerify(mac, chunks, after) && Flatten(after[..|chunks|]) == data
  {
    EverySliceIsHeld(mac, chunks, data, pieces, calls);
    HeldSlicesVerify(mac, chunks, data, AfterStores(chunks, pieces, calls));
    PiecesConcatenate(mac, chunks, data, AfterStores(chunks, pieces, calls));
  }

  lemma EverySliceIsHeld(mac: Mac, chunks: seq<Chunk>, data: seq<byte>, pieces: seq<seq<byte>>, calls: seq<Store>)
    requires Describes(mac, chunks, data)
    requires forall i | 0 <= i < |chunks| :: Delivered(chunks[i], data, calls)
    requires forall k | 0 <= k < |calls| :: StoresTrueBytes(chunks, data, calls[k])
    ensures HoldsSlices(chunks, data, AfterStores(chunks, pieces, calls))
  {
    var after := AfterStores(chunks, pieces, calls);
    forall i | 0 <= i < |chunks| ensures i < |after| && HoldsSlice(chunks[i], data, after[i]) {
      LastStoreWins(mac, chunks, data, pieces, calls, i);
    }
    if |chunks| > 0 { LastStoreWins(mac, chunks, data, pieces, calls, |chunks| - 1); }
  }

  lemma HeldSlicesVerify(mac: Mac, chunks: seq<Chunk>, data: seq<byte>, pieces: seq<seq<byte>>)
    requires Describes(mac, chunks, data) && HoldsSlices(chunks, data, pieces)
    ensures AllHotVerify(mac, chunks, pieces)
  {
    forall i | 0 <= i < |chunks| ensures HotVerifies(mac, chunks, pieces, i) {
      assert HoldsSlice(chunks[i], data, pieces[i]);
    }
  }

  /** The last accepted call for a range decides what is held for it. */
  lemma {:induction false} LastStoreWins(mac: Mac, chunks: seq<Chunk>, data: seq<byte>, pieces: seq<seq<byte>>,
    calls: seq<Store>, i: nat)
    requires Describes(mac, chunks, data) && i < |chunks| && Delivered(chunks[i], data, calls)
    requires forall k | 0 <= k < |calls| :: StoresTrueBytes(chunks, data, calls[k])
    ensures var after := AfterStores(chunks, pieces, calls); i < |after| && HoldsSlice(chunks[i], data, after[i])
  {
    MatchFindsIt(chunks, |data|, i);
    var init, s := calls[..|calls| - 1], calls[|calls| - 1];
    assert calls == init + [s];
    assert StoresTrueBytes(chunks, data, s);
    assert Follows(chunks, i, |data|);
    assert Tagged(mac, chunks[i], data);
    if Delivered(chunks[i], data, init) {
      LastStoreWins(mac, chunks, data, pieces, init, i);
    }
  }

  /** With an injective keyed hash, after any calls whatever: all chunks verify exactly when
      every piece is the right slice, and then the pieces are the data. */
  lemma VerifiedPiecesAreTheData(mac: Mac, chunks: seq<Chunk>, data: seq<byte>, pieces: seq<seq<byte>>,
    calls: seq<Store>)
    requires Injective(mac) && Describes(mac, chunks, data)
    ensures var after := AfterStores(chunks, pieces, calls);
      AllHotVerify(mac, chunks, after) <==> HoldsSlices(chunks, data, after)
    ensures var after := AfterStores(chunks, pieces, calls);
      AllHotVerify(mac, chunks, after) ==> Flatten(after[..|chunks|]) == data
  {
    var after := AfterStores(chunks, pieces, calls);
    if HoldsSlices(chunks, data, after) { HeldSlicesVerify(mac, chunks, data, after); }
    if AllHotVerify(mac, chunks, after) {
      forall i | 0 <= i < |chunks| ensures HoldsSlice(chunks[i], data, after[i]) {
        assert HotVerifies(mac, chunks, after, i);
      }
      PiecesConcatenate(mac, chunks, data, after);
    }
  }

  // ---------------------------------------------------------------- the certificate

  /** Chunk `i` of `data` cut every `step` bytes. */
  function ChunkAt(mac: Mac, data: seq<byte>, step: nat, i: nat): (c: Chunk)
    requires step > 0 && i < ChunkCount(|data|, step)
    ensures i * step == c.begin < c.end <= |data|
  {
    CutPoints(|data|, step, i);
    var end := if i == ChunkCount(|data|, step) - 1 then |data| else i * step + step;
    Chunk(i * step, end, mac(data[i * step..end]))
  }

  lemma CutPoints(size: nat, step: nat, i: nat)
    requires step > 0 && i < ChunkCount(size, step)
    ensures i * step < size
    ensures i < ChunkCount(size, step) - 1 ==> i * step + step < size
  {
    CountIsCeiling(size, step, i);
    CountIsCeiling(size, step, i + 1);
    assert (i + 1) * step == i * step + step;
  }

  function CutUpTo(mac: Mac, data: seq<byte>, step: nat, k: nat): (r: seq<Chunk>)
    requires step > 0 && k <= ChunkCount(|data|, step)
    ensures |r| == k && forall i | 0 <= i < k :: r[i] == ChunkAt(mac, data, step, i)
  {
    if k == 0 then [] else CutUpTo(mac, data, step, k - 1) + [ChunkAt(mac, data, step, k - 1)]
  }

  /** The whole chunk list. */
  function Cut(mac: Mac, data: seq<byte>, step: nat): seq<Chunk>
    requires step > 0
  {
    CutUpTo(mac, data, step, ChunkCount(|data|, step))
  }

  /** Cutting describes the data, and every chunk but the last has the full step. */
  lemma CutDescribes(mac: Mac, data: seq<byte>, step: nat)
    requires step > 0
    ensures Describes(mac, Cut(mac, data, step), data)
    ensures data != [] ==> CutEvenly(Cut(mac, data, step), |data|, step)
  {
    var chunks := Cut(mac, data, step);
    CountIsCeiling(|data|, step, |chunks|);
    if chunks != [] { CountIsCeiling(|data|, step, |chunks| - 1); }
    forall i | 0 <= i < |chunks|
      ensures Follows(chunks, i, |data|) && Tagged(mac, chunks[i], data)
      ensures i < |chunks| - 1 ==> chunks[i].end - chunks[i].begin == step
    {
      assert chunks[i] == ChunkAt(mac, data, step, i);
      if i + 1 < |chunks| { assert chunks[i + 1].begin == (i + 1) * step == i * step + step; }
    }
  }

  /** Reading stopped short: the chunks that could still be read whole. */
  ghost predicate ReadableChunks(mac: Mac, file: File, step: nat, chunks: seq<Chunk>)
    requires file.Opened? && |file.contents| < file.size && step > 0
  {
    && |chunks| == |file.contents| / step < ChunkCount(file.size, step)
    && forall i | 0 <= i < |chunks| ::
         && chunks[i].begin == i * step && chunks[i].end == i * step + step <= |file.contents|
         && chunks[i].tag == mac(Slice(file.contents, chunks[i]))
  }

  /** Reads and tags chunk after chunk, until the file ends or stops short. */
  method ReadChunks(mac: Mac, file: File, step: nat) returns (ok: bool, chunks: seq<Chunk>)
    requires file.Opened? && |file.contents| <= file.size && 0 < file.size && step > 0
    ensures ok <==> |file.contents| == file.size
    ensures ok ==> chunks == Cut(mac, file.contents, step)
    ensures !ok ==> ReadableChunks(mac, file, step, chunks)
  {
    var n := ChunkCount(file.size, step);
    chunks := [];
    for i := 0 to n
      invariant i * step <= |file.contents| || i == n
      invariant i == n ==> |file.contents| == file.size
      invariant |chunks| == i
      invariant forall k | 0 <= k < i :: FileChunk(mac, file, step, n, k, chunks[k])
    {
      CutPoints(file.size, step, i);
      var begin := i * step;
      var end := if i == n - 1 then file.size else begin + step;
      if end > |file.contents| {
        ReadStops(|file.contents|, file.size, step, i);
        WholeChunksWereRead(mac, file, step, n, chunks);
        return false, chunks;
      }
      chunks := chunks + [Chunk(begin, end, mac(file.contents[begin..end]))];
      NextCut(i, step);
    }
    AllChunksWereRead(mac, file, step, n, chunks);
    return true, chunks;
  }

  lemma NextCut(i: nat, step: nat)
    ensures (i + 1) * step == i * step + step
  { }

  class Certificate {
    /** The keyed hash under the issuer's public key. */
    const mac: Mac
    var chunks: seq<Chunk>
    var pieces: seq<seq<byte>>
    var signature: seq<byte>

    constructor (mac: Mac)
      ensures this.mac == mac && chunks == [] && pieces == [] && signature == []
    {
      this.mac := mac;
      chunks, pieces, signature := [], [], [];
    }

    /** Cuts a byte vector. Pieces received earlier stay where they are. */
    method GenerateChunks(data: seq<byte>, most: nat, least: nat) returns (r: Outcome)
      requires |data| < U64 && most < U64 && least < U64
      modifies this`chunks, this`signature
      ensures most == 0 ==> r == Returned(true) && chunks == old(chunks) && signature == old(signature)
      ensures most > 0 ==> signature == []
      ensures r.DividesByZero? <==> 0 < |data| < most && least == 0
      ensures most > 0 && !r.DividesByZero? ==> (r.ok <==> 0 < |data| && least <= |data|)
      ensures most > 0 ==>
        if r.Returned? && r.ok then
          && Describes(mac, chunks, data)
          && exists step :: IsStep(|data|, most, least, step) && CutEvenly(chunks, |data|, step)
        else chunks == []
    {
      if most == 0 { return Returned(true); }
      chunks := [];
      signature := [];
      if |data| == 0 || least > |data| { return Returned(false); }
      var step := ChunkSize(|data|, most, least);
      ZeroStep(|data|, most, least);
      if step == 0 { return DividesByZero; }
      var n := ChunkCount(|data|, step);
      for i := 0 to n
        invariant signature == []
        invariant chunks == CutUpTo(mac, data, step, i)
      {
        CutPoints(|data|, step, i);
        var begin := i * step;
        var end := if i == n - 1 then |data| else begin + step;
        chunks := chunks + [Chunk(begin, end, mac(data[begin..end]))];
      }
      CutDescribes(mac, data, step);
      ChunkSizeIsStep(|data|, most, least);
      return Returned(true);
    }

    /** Cuts a file, reading it chunk by chunk. */
    method GenerateFileChunks(file: File, most: nat, least: nat) returns (r: Outcome)
      requires file.Opened? ==> |file.contents| <= file.size < U64
      requires most < U64 && least < U64
      modifies this`chunks, this`signature
      ensures most == 0 ==> r == Returned(true) && chunks == old(chunks) && signature == old(signature)
      ensures most > 0 ==> signature == []
      ensures r.DividesByZero? <==> file.Opened? && 0 < file.size < most && least == 0
      ensures most > 0 && !r.DividesByZero? ==>
        (r.ok <==> file.Opened? && 0 < file.size && least <= file.size && |file.contents| == file.size)
      ensures most > 0 && r == Returned(true) ==>
        && Describes(mac, chunks, file.contents)
        && exists step :: IsStep(file.size, most, least, step) && CutEvenly(chunks, file.size, step)
      ensures most > 0 && r != Returned(true) ==>
        if r == Returned(false) && file.Opened? && 0 < file.size && least <= file.size
        then exists step :: IsStep(file.size, most, least, step) && ReadableChunks(mac, file, step, chunks)
        else chunks == []
    {
      if most == 0 { return Returned(true); }
      chunks := [];
      signature := [];
      if file.Missing? { return Returned(false); }
      var size := file.size;
      if size == 0 || least > size { return Returned(false); }
      var step := ChunkSize(size, most, least);
      ZeroStep(size, most, least);
      if step == 0 { return DividesByZero; }
      var ok;
      ok, chunks := ReadChunks(mac, file, step);
      ChunkSizeIsStep(size, most, least);
      if ok { CutDescribes(mac, file.contents, step); }
      return Returned(ok);
    }

    /** Verifies one chunk. Offsets are 64-bit, so a range that runs backwards passes the size
        check when its end does, and copying it is undefined. */
    method VerifySingleChunk(data: seq<byte>, index: nat) returns (r: Verdict)
      requires index < |chunks| ==> chunks[index].begin < U64 && chunks[index].end < U64
      ensures r == if index < |chunks| then Judged(mac, chunks[index], data) else Answer(false)
    {
      if index >= |chunks| { return Answer(false); }
      var c := chunks[index];
      var size := (c.end - c.begin) % U64;
      RangeWraps(c.begin, c.end);
      if (c.begin + size) % U64 > |data| { return Answer(false); }
      if c.begin > c.end { return Undefined; }
      return Answer(mac(data[c.begin..c.end]) == c.tag);
    }

    /** Verifies all chunks, up to the first that fails or cannot be copied. */
    method VerifyChunks(data: seq<byte>) returns (r: Verdict)
      requires forall c | c in chunks :: c.begin < U64 && c.end < U64
      ensures r == Answer(true) <==> AcceptsAll(mac, chunks, data)
      ensures r == Undefined ==> exists i | 0 <= i < |chunks| :: Judged(mac, chunks[i], data) == Undefined
      ensures r == Answer(false) ==> exists i | 0 <= i < |chunks| :: Judged(mac, chunks[i], data) == Answer(false)
    {
      for i := 0 to |chunks|
        invariant forall j | 0 <= j < i :: Accepts(mac, chunks[j], data)
      {
        var one := VerifySingleChunk(data, i);
        if one != Answer(true) {
          assert Judged(mac, chunks[i], data) == one && !Accepts(mac, chunks[i], data);
          return one;
        }
      }
      return Answer(true);
    }

    method StoreChunk(begin: nat, end: nat, bytes: seq<byte>) returns (ok: bool)
      modifies this`pieces
      ensures ok <==> begin < end && |bytes| == end - begin && exists i: nat :: FirstWithRange(chunks, i, begin, end)
      ensures !ok ==> pieces == old(pieces)
      ensures ok ==> forall i: nat | FirstWithRange(chunks, i, begin, end) ::
                && |pieces| == (if i < |old(pieces)| then |old(pieces)| else i + 1)
                && pieces[i] == bytes
                && forall j | 0 <= j < |pieces| && j != i ::
                     pieces[j] == if j < |old(pieces)| then old(pieces)[j] else []
      ensures pieces == AfterStore(chunks, old(pieces), Store(begin, end, bytes))
    {
      if begin >= end { return false; }
      if end - begin != |bytes| { return false; }
      MatchIsFirst(chunks, begin, end);
      for i := 0 to |chunks|
        invariant Match(chunks, begin, end) >= i && pieces == old(pieces)
      {
        if chunks[i].begin == begin && chunks[i].end == end {
          if |pieces| <= i {
            pieces := pieces + seq(i + 1 - |pieces|, _ => []);
          }
          pieces := pieces[i := bytes];
          assert pieces == Placed(old(pieces), i, bytes) && FirstWithRange(chunks, i, begin, end);
          return true;
        }
      }
      return false;
    }

    method VerifyHotStorageChunk(index: nat) returns (ok: bool)
      ensures ok <==> index < |chunks| && index < |pieces| && mac(pieces[index]) == chunks[index].tag
    {
      if index >= |chunks| || index >= |pieces| { return false; }
      return mac(pieces[index]) == chunks[index].tag;
    }
  }

  lemma RangeWraps(begin: nat, end: nat)
    requires begin < U64 && end < U64
    ensures (begin + (end - begin) % U64) % U64 == end
  {
    if begin <= end {
      assert (end - begin) % U64 == end - begin;
    } else {
      assert (end - begin) % U64 == end - begin + U64;
    }
  }

  lemma ZeroStep(size: nat, most: nat, least: nat)
    requires most > 0
    ensures ChunkSize(size, most, least) == 0 <==> size < most && least == 0
  {
    assert size == (size / most) * most + size % most;
    if size / most > 0 { MulMono(1, size / most, most); }
  }

  ghost predicate FileChunk(mac: Mac, file: File, step: nat, n: nat, k: nat, c: Chunk)
    requires file.Opened? && k < n
  {
    && c.begin == k * step < c.end <= |file.contents|
    && c.end == (if k == n - 1 then file.size else k * step + step)
    && c.tag == mac(Slice(file.contents, c))
  }

  lemma AllChunksWereRead(mac: Mac, file: File, step: nat, n: nat, chunks: seq<Chunk>)
    requires file.Opened? && step > 0 && |file.contents| == file.size && n == ChunkCount(file.size, step) == |chunks|
    requires forall k | 0 <= k < |chunks| :: FileChunk(mac, file, step, n, k, chunks[k])
    ensures chunks == Cut(mac, file.contents, step)
  {
    forall k | 0 <= k < n ensures chunks[k] == ChunkAt(mac, file.contents, step, k) {
      assert FileChunk(mac, file, step, n, k, chunks[k]);
    }
  }

  lemma WholeChunksWereRead(mac: Mac, file: File, step: nat, n: nat, chunks: seq<Chunk>)
    requires file.Opened? && step > 0 && |file.contents| < file.size
    requires n == ChunkCount(file.size, step) && |file.contents| / step == |chunks| < n
    requires forall k | 0 <= k < |chunks| :: FileChunk(mac, file, step, n, k, chunks[k])
    ensures ReadableChunks(mac, file, step, chunks)
  {
    forall k | 0 <= k < |chunks|
      ensures chunks[k].begin == k * step && chunks[k].end == k * step + step <= |file.contents| &&
          chunks[k].tag == mac(Slice(file.contents, chunks[k]))
    {
      assert FileChunk(mac, file, step, n, k, chunks[k]);
    }
  }

  /** The first chunk that reaches past the readable bytes follows all the whole ones. */
  lemma ReadStops(readable: nat, size: nat, step: nat, i: nat)
    requires step > 0 && readable <= size && i < ChunkCount(size, step)
    requires i * step <= readable
    requires readable < if i == ChunkCount(size, step) - 1 then size else i * step + step
    ensures i == readable / step
  {
    var n := ChunkCount(size, step);
    CountIsCeiling(size, step, n);
    if i == n - 1 { assert n * step == i * step + step; }
    DivIs(readable, step, i, readable - i * step);
  }
}
