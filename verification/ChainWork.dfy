/**
Cumulative proof of work, memoised in the block headers.

`GetTotalWorkDone` walks the parent links towards the genesis block until it meets a block
whose total is known, threading a temporary next pointer through the blocks on the way, then
follows those pointers back and fills in the totals. A header is part of its block here; a
total of zero means "not known".

A block names one parent, by hash, and that never changes. What a walk fetches is another
matter: the in-memory parent pointer if it is set, else whatever block the verified chain
holds at the height below, else the named parent from storage. For a block of a fork the
second of these need not be the named parent.
*/
module ChainWork {
  import opened Bytes

  const MAX_DIFFICULTY: real := 100000000000.0

  type Amount = r: real | 0.0 <= r

  datatype Verdict = Valid | UnknownBlockOnPath

  /** Where parents come from during a call: the verified chain, by height, and storage. */
  datatype Sources = Sources(cached: map<nat, Block>, stored: set<Block>)

  /** Difficulties above the cap count for nothing. */
  function CappedDifficulty(raw: Amount): Amount { if raw > MAX_DIFFICULTY then 0.0 else raw }

  class Block {
    const height: nat
    const isKeyBlock: bool
    const rawDifficulty: Amount
    const parent: Block?

    var total: nat
    var tempNext: Block?
    var next: Block?
    var parentPtr: Block?
    var mainCacheMember: bool

    constructor (height: nat, isKeyBlock: bool, rawDifficulty: Amount, parent: Block?)
      ensures this.height == height && this.isKeyBlock == isKeyBlock
      ensures this.rawDifficulty == rawDifficulty && this.parent == parent
      ensures total == 0 && tempNext == null && next == null && parentPtr == null && !mainCacheMember
    {
      this.height, this.isKeyBlock, this.rawDifficulty, this.parent := height, isKeyBlock, rawDifficulty, parent;
      total, tempNext, next, parentPtr, mainCacheMember := 0, null, null, null, false;
    }

    function Difficulty(): Amount { CappedDifficulty(rawDifficulty) }

    /** What the block adds to a total. */
    function Weight(): nat { Difficulty().Floor }

    /** The first key block only. */
    predicate IsGenesis() { isKeyBlock && height == 0 }

    predicate HasParent() { height > 0 && parent != null && parent.height < height }

    /** The sum of the (truncated) difficulties from this block back to the genesis block. */
    ghost function TotalWork(): nat
      decreases height
    {
      Weight() + if HasParent() then parent.TotalWork() else 0
    }

    /** The fetched parent, or null. */
    function GetParent(src: Sources): Block?
      reads this`parentPtr
    {
      if height == 0 || parent == null then null
      else if parentPtr != null then parentPtr
      else if height - 1 in src.cached then src.cached[height - 1]
      else if parent in src.stored then parent
      else null
    }

    /** The temporary pointer; the permanent one is set by SetNext. */
    method SetTempNext(b: Block?)
      modifies this`tempNext
      ensures tempNext == b
    {
      tempNext := b;
    }

    method SetNext(b: Block?)
      modifies this`next
      ensures next == b
    {
      next := b;
    }

    method PrepareForRemoval()
      modifies this`parentPtr, this`next, this`mainCacheMember
      ensures parentPtr == null && next == null && !mainCacheMember
    {
      parentPtr := null;
      mainCacheMember := false;
      SetNext(null);
    }

    /** The backward walk. It threads the temporary pointers and changes nothing else. */
    method WalkBack(ghost chain: set<Block>, src: Sources, ghost path: seq<Block>)
      returns (current: Block?, previous: Block?)
      requires this in chain && total == 0
      requires path != [] && path[0] == this && Descending(path) && forall k :: 0 <= k < |path| ==> path[k] in chain
      requires forall k :: 0 <= k < |path| ==> StepsFrom(src, path, k)
      modifies chain`tempNext
      ensures forall b :: b in chain && (b !in path || b == this) ==> b.tempNext == old(b.tempNext)
      ensures forall k :: 0 < k < |path| ==> Threaded(path, k)
      ensures if current != null then current == path[|path| - 1] && current.total != 0
              else previous == path[|path| - 1] && previous.total == 0
    {
      current := this;
      previous := null;
      ghost var i := 0;
      while current != null
        invariant 0 <= i <= |path|
        invariant current == if i < |path| then path[i] else null
        invariant if i == 0 then previous == null else previous == path[i - 1] && previous.total == 0
        invariant forall k :: 0 < k < i ==> Threaded(path, k)
        invariant forall b :: b in chain && (b !in path || b == this) ==> b.tempNext == old(b.tempNext)
        decreases |path| - i
      {
        assert StepsFrom(src, path, i);
        if previous != null {
          Thread(path, i, current, previous);
        }
        if current.total != 0 {
          return;
        }
        previous := current;
        current := current.GetParent(src);
        i := i + 1;
      }
    }

    /** The two walks, for any sums `work` that are right where totals are known and add up along
        the walk. The sums may be those of all blocks or of the walked ones alone. */
    method GetTotalWorkDoneInt(ghost chain: set<Block>, src: Sources, ghost work: map<Block, nat>)
      returns (verdict: Verdict, totalDiff: nat)
      requires this in chain && CacheOk(chain, src) && BooksOk(chain, work)
      requires AddsUp(work, WalkFrom(chain, src, this)) && Closed(chain, work, this)
      modifies chain
      ensures BooksOk(chain, work)
      ensures verdict.Valid? <==> old(Answerable(chain, src, this))
      ensures verdict.Valid? ==> this in work && totalDiff == total == work[this]
      ensures verdict.Valid? && old(total) == 0 ==>
                forall b :: b in old(WalkFrom(chain, src, this)) ==> Settled(work, b)
      ensures verdict.Valid? ==> forall b :: b in chain ==> b.tempNext == old(b.tempNext) || b.tempNext == null
      ensures !verdict.Valid? ==> totalDiff == 0 && IsThreaded(chain, old(WalkFrom(chain, src, this)))
      ensures !verdict.Valid? ==> forall b :: b in chain && (b !in old(WalkFrom(chain, src, this)) || b == this) ==>
                b.tempNext == old(b.tempNext)
      ensures !verdict.Valid? ==> forall b :: b in chain ==>
                b.total == old(b.total) && b.parentPtr == old(b.parentPtr) && b.next == old(b.next)
      ensures forall b :: b in chain && b in work && old(b.total) != 0 ==> b.total == old(b.total)
      ensures forall b :: b in chain ==> b.mainCacheMember == old(b.mainCacheMember)
      ensures forall b :: b in chain && b.mainCacheMember ==> b.parentPtr == old(b.parentPtr) && b.next == old(b.next)
    {
      WalkFacts(chain, src, this);
      assert TotalOk(work, this);
      if total > 0 {
        return Valid, total;
      }
      var current, previous, path := WalkAndThread(chain, src, work);
      if current == null && !previous.IsGenesis() {
        return UnknownBlockOnPath, 0;
      }
      if current == null {
        current := previous;
      }
      FillForward(chain, work, path, current);
      assert Settled(work, this);
      verdict, totalDiff := Valid, total;
    }

    /** The backward walk and what it leaves behind: a threaded walk and intact books. */
    method WalkAndThread(ghost chain: set<Block>, src: Sources, ghost work: map<Block, nat>)
      returns (current: Block?, previous: Block?, ghost path: seq<Block>)
      requires this in chain && CacheOk(chain, src) && BooksOk(chain, work) && total == 0
      requires AddsUp(work, WalkFrom(chain, src, this))
      modifies chain`tempNext
      ensures BooksOk(chain, work) && path == old(WalkFrom(chain, src, this)) && IsThreaded(chain, path) &&
          path[0] == this
      ensures forall b :: b in chain && (b !in path || b == this) ==> b.tempNext == old(b.tempNext)
      ensures if current != null then current == path[|path| - 1] && current.total != 0
              else previous == path[|path| - 1] && previous.total == 0
      ensures old(Answerable(chain, src, this)) <==> current != null || previous.IsGenesis()
    {
      path := WalkFrom(chain, src, this);
      WalkFacts(chain, src, this);
      current, previous := WalkBack(chain, src, path);
      assert forall b :: b in chain && (b !in path || b == path[0]) ==> TempOk(chain, work, b);
      ThreadedTempsOk(chain, work, path);
    }

    /** The total work of the chain that ends with this block. */
    method GetTotalWorkDone(ghost chain: set<Block>, src: Sources) returns (verdict: Verdict, totalDiff: nat)
      requires this in chain && CacheOk(chain, src) && ShapeOk(chain)
      modifies chain
      ensures ShapeOk(chain)
      // The answer is given exactly when the walk meets a known total or the genesis block, ...
      ensures verdict.Valid? <==> old(Answerable(chain, src, this))
      // ... and it is the sum along the blocks that were fetched.
      ensures verdict.Valid? ==> totalDiff == total == old(FetchedWork(chain, src, this))
      // Where known totals are right, it is off by the drift, ...
      ensures verdict.Valid? && old(MemoOk(chain)) ==> totalDiff == TotalWork() + old(Drift(chain, src, this))
      // ... and where only named parents are fetched, it is the total work, and the memo stays right.
      ensures old(MemoOk(chain) && Faithful(chain, src, this)) ==>
                && MemoOk(chain)
                && (verdict.Valid? ==> totalDiff == TotalWork())
                && (forall b :: b in chain && old(b.total) != 0 ==> b.total == old(b.total))
      // So an ancestry that can be reached, named parent by named parent, gets its sum, ...
      ensures old(MemoOk(chain) && AncestryReachable(src, this)) && FromKeyBlock(this) ==>
                verdict.Valid? && totalDiff == SumDifficulties(Ancestry(this))
      // ... and a block none of whose sources holds a parent gets no answer.
      ensures old(total) == 0 && height > 0 && old(parentPtr) == null ==>
                height - 1 !in src.cached && parent !in src.stored ==> verdict == UnknownBlockOnPath
      ensures old(total) == 0 && height == 0 && !isKeyBlock ==> verdict == UnknownBlockOnPath
      // The whole walk is then memoised and unthreaded.
      ensures verdict.Valid? && old(total) == 0 ==>
                forall b :: b in old(FetchedTotals(chain, src, this)) ==>
                  b.total == old(FetchedTotals(chain, src, this))[b] && b.tempNext == null && CutLoose(b)
      ensures verdict.Valid? ==> forall b :: b in chain ==> b.tempNext == old(b.tempNext) || b.tempNext == null
      // Without an answer nothing but temporary pointers has changed.
      ensures !verdict.Valid? ==> totalDiff == 0
      ensures !verdict.Valid? ==> forall b :: b in chain ==>
                b.total == old(b.total) && b.parentPtr == old(b.parentPtr) && b.next == old(b.next)
      // Members of the main cache keep their permanent links.
      ensures forall b :: b in chain ==> b.mainCacheMember == old(b.mainCacheMember)
      ensures forall b :: b in chain && b.mainCacheMember ==> b.parentPtr == old(b.parentPtr) && b.next == old(b.next)
    {
      ghost var good := MemoOk(chain) && Faithful(chain, src, this);
      ghost var path, sums := WalkFrom(chain, src, this), FetchedTotals(chain, src, this);
      ghost var work := if good then Totals(chain) else sums;
      WalkFacts(chain, src, this);
      FetchedAddsUp(chain, src, this);
      FetchedHasBooks(chain, src, this);
      if good {
        MemoHasBooks(chain);
        FaithfulNames(chain, src, this);
      }
      if MemoOk(chain) { WhatTheWalkSums(chain, src, this); }
      verdict, totalDiff := GetTotalWorkDoneInt(chain, src, work);
      BooksHaveShape(chain, work);
      if good {
        forall b | b in chain && (verdict.Valid? || b !in path || b == this) ensures ChildOk(chain, b) {
          assert old(ChildOk(chain, b));
        }
        if !verdict.Valid? { ChildrenAfterWalk(chain, path); }
      }
    }
  }

  lemma {:induction false} HighestBlock(chain: set<Block>) returns (top: nat)
    ensures forall b :: b in chain ==> b.height <= top
  {
    if chain == {} {
      top := 0;
    } else {
      var b :| b in chain;
      top := HighestBlock(chain - {b});
      top := if b.height > top then b.height else top;
    }
  }

  /** One step of the backward walk: block i of the walk gets its temporary pointer. */
  method Thread(ghost path: seq<Block>, ghost i: nat, current: Block, previous: Block)
    requires Descending(path)
    requires 0 < i < |path| && current == path[i] && previous == path[i - 1]
    requires forall k :: 0 < k < i ==> Threaded(path, k)
    modifies current`tempNext
    ensures forall k :: 0 < k <= i ==> Threaded(path, k)
  {
    current.SetTempNext(previous);
    forall k | 0 < k <= i ensures Threaded(path, k) {
      assert k < i ==> old(Threaded(path, k)) && path[k].height != path[i].height;
    }
  }

  /** One step of the forward walk: the next block's total is filled in, the pointer to it
      cleared, and a block outside the main cache is cut loose. */
  method FillNext(ghost chain: set<Block>, ghost work: map<Block, nat>, current: Block) returns (next: Block?)
    requires BooksOk(chain, work) && current in chain && (current in work ==> current.total == work[current])
    requires current.tempNext != null && current.tempNext in work ==> current in work
    modifies chain`total, current
    ensures BooksOk(chain, work)
    ensures next == old(current.tempNext) && current.tempNext == null && CutLoose(current)
    ensures next != null ==> next in chain && next.height == current.height + 1
    ensures next != null && next in work ==> next.total == work[next]
    ensures forall b :: b in chain && (b != next || (b in work && old(b.total) != 0)) ==> b.total == old(b.total)
    ensures current.mainCacheMember == old(current.mainCacheMember)
    ensures current.mainCacheMember ==> current.parentPtr == old(current.parentPtr) && current.next == old(current.next)
  {
    next := current.tempNext;
    assert TempOk(chain, work, current);
    if next != null {
      assert TotalOk(work, next);
      next.total := (current.total as real + next.Difficulty()).Floor;
    }
    current.SetTempNext(null);
    if !current.mainCacheMember {
      current.PrepareForRemoval();
    }
    forall b | b in chain ensures LinkOk(chain, b) {
      assert old(LinkOk(chain, b));
    }
  }

  /** The same step, seen from the walk: its block k is settled, the rest of it untouched. */
  method FillStep(ghost chain: set<Block>, ghost work: map<Block, nat>, ghost path: seq<Block>, ghost k: int,
    current: Block)
    returns (next: Block?)
    requires BooksOk(chain, work) && current in chain && (current in work ==> current.total == work[current])
    requires current.tempNext != null && current.tempNext in work ==> current in work
    requires -1 <= k < |path| && Descending(path) && (k >= 0 ==> current == path[k] && current in work)
    requires forall i :: 0 < i <= k ==> Threaded(path, i)
    requires forall i :: k < i < |path| ==> Settled(work, path[i])
    modifies chain`total, current
    ensures BooksOk(chain, work)
    ensures next == old(current.tempNext) && current.tempNext == null && (k > 0 ==> next == path[k - 1])
    ensures next != null ==> next in chain && next.height == current.height + 1
    ensures next != null && next in work ==> next.total == work[next]
    ensures forall b :: b in chain && b in work && old(b.total) != 0 ==> b.total == old(b.total)
    ensures current.mainCacheMember == old(current.mainCacheMember)
    ensures current.mainCacheMember ==> current.parentPtr == old(current.parentPtr) && current.next == old(current.next)
    ensures forall i :: 0 < i < k ==> Threaded(path, i)
    ensures forall i :: k <= i < |path| && i >= 0 ==> Settled(work, path[i])
  {
    assert k > 0 ==> Threaded(path, k);
    next := FillNext(chain, work, current);
    forall i | 0 < i < k ensures Threaded(path, i) {
      assert old(Threaded(path, i)) && path[i].height != current.height;
    }
    forall i | k <= i < |path| && i >= 0 ensures Settled(work, path[i]) {
      assert i > k ==> old(Settled(work, path[i]));
    }
  }

  /** The genesis block's total is its own difficulty. */
  method StartTotal(ghost chain: set<Block>, ghost work: map<Block, nat>, start: Block)
    requires BooksOk(chain, work) && start in chain && start in work && (start.total != 0 || start.IsGenesis())
    modifies start`total
    ensures BooksOk(chain, work) && start.total == work[start]
    ensures old(start.total) != 0 ==> start.total == old(start.total)
  {
    assert TotalOk(work, start);
    if start.total == 0 && start.IsGenesis() {
      start.total := start.Difficulty().Floor;
    }
  }

  /** The forward walk: fills in totals along the temporary pointers and clears them. The
      pointers may lead past the block that asked, along an older, aborted walk. */
  method FillForward(ghost chain: set<Block>, ghost work: map<Block, nat>, ghost path: seq<Block>, start: Block)
    requires BooksOk(chain, work) && IsThreaded(chain, path) && path[|path| - 1] == start
    requires (start.total != 0 || start.IsGenesis()) && AddsUp(work, path) && Closed(chain, work, path[0])
    modifies chain
    ensures BooksOk(chain, work)
    ensures forall b :: b in path ==> Settled(work, b)
    ensures forall b :: b in chain ==> b.tempNext == old(b.tempNext) || b.tempNext == null
    ensures forall b :: b in chain && b in work && old(b.total) != 0 ==> b.total == old(b.total)
    ensures forall b :: b in chain ==> b.mainCacheMember == old(b.mainCacheMember)
    ensures forall b :: b in chain && b.mainCacheMember ==> b.parentPtr == old(b.parentPtr) && b.next == old(b.next)
  {
    StartTotal(chain, work, start);
    var current: Block? := start;
    ghost var top := HighestBlock(chain);
    ghost var k := |path| - 1;
    while current != null
      invariant current != null ==> current in chain && (current in work ==> current.total == work[current])
      invariant -1 <= k < |path|
      invariant k >= 0 ==> current == path[k]
      invariant k < 0 && current != null ==> current.height > path[0].height
      invariant forall i :: 0 < i <= k ==> Threaded(path, i)
      invariant forall i :: k < i < |path| ==> Settled(work, path[i])
      invariant BooksOk(chain, work)
      invariant forall b :: b in chain ==> b.tempNext == old(b.tempNext) || b.tempNext == null
      invariant forall b :: b in chain && b in work && old(b.total) != 0 ==> b.total == old(b.total)
      invariant forall b :: b in chain ==> b.mainCacheMember == old(b.mainCacheMember)
      invariant forall b :: b in chain && b.mainCacheMember ==> b.parentPtr == old(b.parentPtr) && b.next == old(b.next)
      decreases if current == null then 0 else 1 + top - current.height
    {
      StaysInBooks(chain, work, path[0], current);
      current := FillStep(chain, work, path, k, current);
      k := if k >= 0 then k - 1 else k;
    }
  }

  /** Beyond the block that asked, the pointers never lead from an unaccounted block to an
      accounted one. */
  lemma StaysInBooks(chain: set<Block>, work: map<Block, nat>, asked: Block, current: Block)
    requires Closed(chain, work, asked) && current in chain && TempOk(chain, work, current)
    requires current in work || current.height > asked.height
    ensures current.tempNext != null && current.tempNext in work ==> current in work
  {
  }

  // ---------- The invariant ----------

  /** A block knows its place: its parent is one lower and in the set, and an in-memory parent
      pointer, if set, points to it. */
  predicate LinkOk(chain: set<Block>, b: Block)
    reads b`parentPtr
  {
    && (b.height > 0 ==> b.parent != null && b.parent in chain && b.parent.height + 1 == b.height)
    && (b.parentPtr != null ==> b.height > 0 && b.parentPtr == b.parent)
  }

  ghost predicate Linked(chain: set<Block>)
    reads chain`parentPtr
  {
    forall b {:trigger b.parent} {:trigger b.parentPtr} :: b in chain ==> LinkOk(chain, b)
  }

  /** The verified chain holds blocks at their own heights. */
  ghost predicate CacheOk(chain: set<Block>, src: Sources)
  {
    forall h :: h in src.cached ==> src.cached[h] in chain && src.cached[h].height == h
  }

  /** A temporary pointer, however old, leads one block up; between two blocks with known sums
      it adds the upper one's difficulty. */
  predicate TempOk(chain: set<Block>, work: map<Block, nat>, b: Block)
    reads b`tempNext
  {
    b.tempNext != null ==>
      && b.tempNext in chain && b.tempNext.height == b.height + 1
      && (b in work && b.tempNext in work ==> work[b.tempNext] == work[b] + b.tempNext.Weight())
  }

  ghost predicate TempsOk(chain: set<Block>, work: map<Block, nat>)
    reads chain`tempNext
  {
    forall b {:trigger TempOk(chain, work, b)} :: b in chain ==> TempOk(chain, work, b)
  }

  /** A known total is the block's sum, and the genesis block's sum is its own difficulty. */
  ghost predicate TotalOk(work: map<Block, nat>, b: Block)
    reads b`total
  {
    b in work ==> if b.total != 0 then b.total == work[b] else b.IsGenesis() ==> work[b] == b.Weight()
  }

  ghost predicate TotalsOk(chain: set<Block>, work: map<Block, nat>)
    reads chain`total
  {
    forall b {:trigger TotalOk(work, b)} :: b in chain ==> TotalOk(work, b)
  }

  /** The total is known for good, no temporary pointer is left, and a block outside the main cache
      is cut loose. */
  ghost predicate Settled(work: map<Block, nat>, b: Block)
    reads b`total, b`tempNext, b`parentPtr, b`next, b`mainCacheMember
  {
    b in work && b.total == work[b] && b.tempNext == null && CutLoose(b)
  }

  predicate CutLoose(b: Block)
    reads b`parentPtr, b`next, b`mainCacheMember
  {
    b.mainCacheMember || (b.parentPtr == null && b.next == null)
  }

  ghost predicate BooksOk(chain: set<Block>, work: map<Block, nat>)
    reads chain`parentPtr, chain`tempNext, chain`total
  {
    Linked(chain) && TempsOk(chain, work) && TotalsOk(chain, work)
  }

  ghost predicate ShapeOk(chain: set<Block>)
    reads chain`parentPtr, chain`tempNext, chain`total
  {
    BooksOk(chain, map[])
  }

  /** The sums of all blocks. */
  ghost function Totals(chain: set<Block>): map<Block, nat>
  {
    map b | b in chain :: b.TotalWork()
  }

  /** A temporary pointer, however old, points to a child. */
  predicate ChildOk(chain: set<Block>, b: Block)
    reads b`tempNext
  {
    b.tempNext != null ==> b.tempNext in chain && b.tempNext.height > 0 && b.tempNext.parent == b
  }

  ghost predicate ChildrenOk(chain: set<Block>)
    reads chain`tempNext
  {
    forall b {:trigger ChildOk(chain, b)} :: b in chain ==> ChildOk(chain, b)
  }

  /** Temporary pointers point to children and every known total is right. */
  ghost predicate MemoOk(chain: set<Block>)
    reads chain`parentPtr, chain`tempNext, chain`total
  {
    Linked(chain) && ChildrenOk(chain) && TotalsOk(chain, Totals(chain))
  }

  lemma MemoHasBooks(chain: set<Block>)
    requires MemoOk(chain)
    ensures BooksOk(chain, Totals(chain)) && ShapeOk(chain)
  {
    forall b | b in chain ensures TempOk(chain, Totals(chain), b) && TempOk(chain, map[], b) {
      assert ChildOk(chain, b);
      if b.tempNext != null {
        assert LinkOk(chain, b.tempNext);
        assert b.tempNext.HasParent() && b.tempNext.TotalWork() == b.tempNext.Weight() + b.TotalWork();
      }
    }
    forall b | b in chain ensures TotalOk(map[], b) { }
  }

  // ---------- The walk ----------

  /** The blocks the backward walk visits, from b to the first one with a known total or
      without a fetchable parent. */
  ghost function WalkFrom(chain: set<Block>, src: Sources, b: Block): seq<Block>
    requires b in chain && Linked(chain) && CacheOk(chain, src)
    reads chain`total, chain`parentPtr
    decreases b.height
  {
    if b.total != 0 || b.GetParent(src) == null then [b]
    else [b] + WalkFrom(chain, src, b.GetParent(src))
  }

  /** The walk from b ends at a known total or at the genesis block. */
  ghost predicate Answerable(chain: set<Block>, src: Sources, b: Block)
    requires b in chain && Linked(chain) && CacheOk(chain, src)
    reads chain`total, chain`parentPtr
    decreases b.height
  {
    if b.total != 0 then true
    else if b.GetParent(src) == null then b.IsGenesis()
    else Answerable(chain, src, b.GetParent(src))
  }

  /** The sums along the walk: what is known at its end, and the difficulties from there on. */
  ghost function FetchedTotals(chain: set<Block>, src: Sources, b: Block): (sums: map<Block, nat>)
    requires b in chain && Linked(chain) && CacheOk(chain, src)
    reads chain`total, chain`parentPtr
    ensures b in sums && forall c :: c in sums ==> c in chain && c.height <= b.height
    decreases b.height
  {
    if b.total != 0 then map[b := b.total]
    else if b.GetParent(src) == null then map[b := b.Weight()]
    else
      var sums := FetchedTotals(chain, src, b.GetParent(src));
      sums[b := sums[b.GetParent(src)] + b.Weight()]
  }

  ghost function FetchedWork(chain: set<Block>, src: Sources, b: Block): nat
    requires b in chain && Linked(chain) && CacheOk(chain, src)
    reads chain`total, chain`parentPtr
  {
    FetchedTotals(chain, src, b)[b]
  }

  /** The block's parent is fetched as named: it is in memory, or the verified chain holds
      nothing or the named parent at its height. */
  predicate FetchesNamed(src: Sources, b: Block)
    reads b`parentPtr
  {
    b.height > 0 && b.parentPtr == null && b.height - 1 in src.cached ==> src.cached[b.height - 1] == b.parent
  }

  /** Every parent the walk asks for is fetched as named. */
  ghost predicate Faithful(chain: set<Block>, src: Sources, b: Block)
    requires b in chain && Linked(chain) && CacheOk(chain, src)
    reads chain`total, chain`parentPtr
    decreases b.height
  {
    b.total == 0 ==> FetchesNamed(src, b) && (b.GetParent(src) != null ==> Faithful(chain, src, b.GetParent(src)))
  }

  /** How far the fetched parents' total work is from that of the named ones, summed along the
      walk. */
  ghost function Drift(chain: set<Block>, src: Sources, b: Block): int
    requires b in chain && Linked(chain) && CacheOk(chain, src)
    reads chain`total, chain`parentPtr
    decreases b.height
  {
    var p := b.GetParent(src);
    if b.total != 0 || p == null then 0 else p.TotalWork() - b.parent.TotalWork() + Drift(chain, src, p)
  }

  /** Where the walk goes from its block k. */
  ghost predicate StepsFrom(src: Sources, path: seq<Block>, k: int)
    requires 0 <= k < |path|
    reads path`total, path`parentPtr
  {
    if k + 1 == |path| then path[k].total != 0 || path[k].GetParent(src) == null
    else path[k].total == 0 && path[k].GetParent(src) == path[k + 1]
  }

  /** Block k of the walk points back to block k - 1. */
  predicate Threaded(path: seq<Block>, k: int)
    requires 0 < k < |path|
    reads path`tempNext
  {
    path[k].tempNext == path[k - 1]
  }

  ghost predicate IsThreaded(chain: set<Block>, path: seq<Block>)
    reads path`tempNext
  {
    && path != [] && Descending(path)
    && (forall k :: 0 <= k < |path| ==> path[k] in chain)
    && (forall k :: 0 < k < |path| ==> Threaded(path, k))
  }

  predicate Descending(path: seq<Block>)
  {
    forall k :: 0 <= k < |path| ==> path[k].height + k == path[0].height
  }

  /** The sums cover the walk and grow along it by the difficulties. */
  ghost predicate AddsUp(work: map<Block, nat>, path: seq<Block>)
  {
    && (forall k :: 0 <= k < |path| ==> path[k] in work)
    && (forall k :: 0 < k < |path| ==> Adds(work, path, k))
  }

  ghost predicate Adds(work: map<Block, nat>, path: seq<Block>, k: int)
    requires 0 < k < |path|
  {
    path[k] in work && path[k - 1] in work && work[path[k - 1]] == work[path[k]] + path[k - 1].Weight()
  }

  /** The sums are those of all blocks, or of none above b. */
  ghost predicate Closed(chain: set<Block>, work: map<Block, nat>, b: Block)
  {
    (forall c :: c in chain ==> c in work) || (forall c :: c in work ==> c.height <= b.height)
  }

  /** The walk goes down one by one, along fetchable parents, until it has to stop. */
  lemma {:induction false} WalkShape(chain: set<Block>, src: Sources, b: Block)
    requires b in chain && Linked(chain) && CacheOk(chain, src)
    ensures var path := WalkFrom(chain, src, b);
      && path != [] && path[0] == b && Descending(path)
      && (forall k :: 0 <= k < |path| ==> path[k] in chain)
    decreases b.height
  {
    if b.total == 0 && b.GetParent(src) != null {
      WalkShape(chain, src, b.GetParent(src));
    }
  }

  lemma {:induction false} WalkSteps(chain: set<Block>, src: Sources, b: Block, k: nat)
    requires b in chain && Linked(chain) && CacheOk(chain, src) && k < |WalkFrom(chain, src, b)|
    ensures forall i :: 0 <= i < |WalkFrom(chain, src, b)| ==> WalkFrom(chain, src, b)[i] in chain
    ensures StepsFrom(src, WalkFrom(chain, src, b), k)
    decreases b.height
  {
    WalkShape(chain, src, b);
    if b.total == 0 && b.GetParent(src) != null {
      WalkShape(chain, src, b.GetParent(src));
      if k > 0 {
        WalkSteps(chain, src, b.GetParent(src), k - 1);
      }
    }
  }

  /** The three together. */
  lemma WalkFacts(chain: set<Block>, src: Sources, b: Block)
    requires b in chain && Linked(chain) && CacheOk(chain, src)
    ensures var path := WalkFrom(chain, src, b);
      && path != [] && path[0] == b && Descending(path)
      && (forall k :: 0 <= k < |path| ==> path[k] in chain)
      && (forall k :: 0 <= k < |path| ==> StepsFrom(src, path, k))
      && (Answerable(chain, src, b) <==> path[|path| - 1].total != 0 || path[|path| - 1].IsGenesis())
  {
    var path := WalkFrom(chain, src, b);
    WalkShape(chain, src, b);
    WalkEnds(chain, src, b);
    forall k | 0 <= k < |path| ensures StepsFrom(src, path, k) {
      WalkSteps(chain, src, b, k);
    }
  }

  lemma {:induction false} WalkEnds(chain: set<Block>, src: Sources, b: Block)
    requires b in chain && Linked(chain) && CacheOk(chain, src)
    ensures var path := WalkFrom(chain, src, b);
      path != [] && (Answerable(chain, src, b) <==> path[|path| - 1].total != 0 || path[|path| - 1].IsGenesis())
    decreases b.height
  {
    if b.total == 0 && b.GetParent(src) != null {
      WalkEnds(chain, src, b.GetParent(src));
    }
  }

  /** Threading a walk keeps the temporary pointers in order. */
  lemma ThreadedTempsOk(chain: set<Block>, work: map<Block, nat>, path: seq<Block>)
    requires IsThreaded(chain, path) && AddsUp(work, path)
    requires forall b :: b in chain && (b !in path || b == path[0]) ==> TempOk(chain, work, b)
    ensures TempsOk(chain, work)
  {
    forall b | b in chain ensures TempOk(chain, work, b) {
      if b in path && b != path[0] {
        var k :| 0 <= k < |path| && path[k] == b;
        assert Threaded(path, k) && Adds(work, path, k);
      }
    }
  }

  // ---------- The sums of the walk ----------

  /** The sums along the walk are those of its blocks and add up. */
  lemma {:induction false} FetchedAddsUp(chain: set<Block>, src: Sources, b: Block)
    requires b in chain && Linked(chain) && CacheOk(chain, src)
    ensures var path, sums := WalkFrom(chain, src, b), FetchedTotals(chain, src, b);
      && (forall c :: c in sums <==> c in path)
      && (forall k :: 0 < k < |path| ==> Adds(sums, path, k))
      && (forall c :: c in sums ==> TotalOk(sums, c))
    decreases b.height
  {
    if b.total == 0 && b.GetParent(src) != null {
      var p := b.GetParent(src);
      var rest, path := WalkFrom(chain, src, p), WalkFrom(chain, src, b);
      FetchedAddsUp(chain, src, p);
      WalkShape(chain, src, p);
      forall k | 0 < k < |path| ensures Adds(FetchedTotals(chain, src, b), path, k) {
        if k > 1 { assert Adds(FetchedTotals(chain, src, p), rest, k - 1); }
      }
    }
  }

  lemma FetchedHasBooks(chain: set<Block>, src: Sources, b: Block)
    requires b in chain && ShapeOk(chain) && CacheOk(chain, src)
    ensures var sums := FetchedTotals(chain, src, b);
      BooksOk(chain, sums) && AddsUp(sums, WalkFrom(chain, src, b)) && Closed(chain, sums, b)
  {
    var path, sums := WalkFrom(chain, src, b), FetchedTotals(chain, src, b);
    FetchedAddsUp(chain, src, b);
    WalkShape(chain, src, b);
    forall c | c in chain ensures TempOk(chain, sums, c) {
      assert TempOk(chain, map[], c);
      if c.tempNext != null && c in sums && c.tempNext in sums {
        AdjacentAdds(sums, path, c, c.tempNext);
      }
    }
    forall c | c in chain ensures TotalOk(sums, c) {
      if c in sums { assert TotalOk(FetchedTotals(chain, src, b), c); }
    }
  }

  /** Two blocks of a walk at neighbouring heights are neighbours on it. */
  lemma AdjacentAdds(work: map<Block, nat>, path: seq<Block>, lower: Block, upper: Block)
    requires Descending(path) && lower in path && upper in path && upper.height == lower.height + 1
    requires forall k :: 0 < k < |path| ==> Adds(work, path, k)
    ensures lower in work && upper in work && work[upper] == work[lower] + upper.Weight()
  {
    var k :| 0 <= k < |path| && path[k] == lower;
    var l :| 0 <= l < |path| && path[l] == upper;
    assert l == k - 1 && Adds(work, path, k);
  }

  lemma BooksHaveShape(chain: set<Block>, work: map<Block, nat>)
    requires BooksOk(chain, work)
    ensures ShapeOk(chain)
  {
    forall b | b in chain ensures TempOk(chain, map[], b) && TotalOk(map[], b) {
      assert TempOk(chain, work, b);
    }
  }

  /** A faithful walk follows the named parents, so the total work adds up along it. */
  lemma {:induction false} FaithfulNames(chain: set<Block>, src: Sources, b: Block)
    requires b in chain && Linked(chain) && CacheOk(chain, src) && Faithful(chain, src, b)
    ensures var path := WalkFrom(chain, src, b);
      && path != [] && path[0] == b && (forall k :: 0 < k < |path| ==> path[k - 1].parent == path[k])
      && AddsUp(Totals(chain), path) && Closed(chain, Totals(chain), b)
    decreases b.height
  {
    if b.total == 0 && b.GetParent(src) != null {
      var p := b.GetParent(src);
      var rest, path := WalkFrom(chain, src, p), WalkFrom(chain, src, b);
      FaithfulNames(chain, src, p);
      assert p == b.parent && LinkOk(chain, b);
      forall k | 0 < k < |path| ensures path[k - 1].parent == path[k] && Adds(Totals(chain), path, k) {
        if k > 1 { assert Adds(Totals(chain), rest, k - 1); }
      }
    }
  }

  /** Where known totals are right, the sum along the walk is the total work and the drift. */
  lemma {:induction false} FetchedIsTotalAndDrift(chain: set<Block>, src: Sources, b: Block)
    requires b in chain && Linked(chain) && CacheOk(chain, src)
    requires TotalsOk(chain, Totals(chain)) && Answerable(chain, src, b)
    ensures FetchedWork(chain, src, b) == b.TotalWork() + Drift(chain, src, b)
    decreases b.height
  {
    assert TotalOk(Totals(chain), b);
    if b.total == 0 && b.GetParent(src) != null {
      assert LinkOk(chain, b);
      FetchedIsTotalAndDrift(chain, src, b.GetParent(src));
    }
  }

  /** A faithful walk has no drift, and its sums are the blocks' total work. */
  lemma {:induction false} FaithfulSums(chain: set<Block>, src: Sources, b: Block)
    requires b in chain && Linked(chain) && CacheOk(chain, src) && TotalsOk(chain, Totals(chain))
    requires Answerable(chain, src, b) && Faithful(chain, src, b)
    ensures Drift(chain, src, b) == 0
    ensures forall c :: c in FetchedTotals(chain, src, b) ==> FetchedTotals(chain, src, b)[c] == c.TotalWork()
    decreases b.height
  {
    assert TotalOk(Totals(chain), b);
    if b.total == 0 && b.GetParent(src) != null {
      assert LinkOk(chain, b);
      FaithfulSums(chain, src, b.GetParent(src));
    }
  }

  lemma ChildrenAfterWalk(chain: set<Block>, path: seq<Block>)
    requires IsThreaded(chain, path) && Linked(chain)
    requires forall k :: 0 < k < |path| ==> path[k - 1].parent == path[k]
    requires forall b :: b in chain && (b !in path || b == path[0]) ==> ChildOk(chain, b)
    ensures ChildrenOk(chain)
  {
    forall b | b in chain ensures ChildOk(chain, b) {
      if b in path && b != path[0] {
        var k :| 0 <= k < |path| && path[k] == b;
        assert Threaded(path, k);
      }
    }
  }

  // ---------- What can be reached ----------

  /** The named parent can be had: it is in memory; or the verified chain has it at its height; or
      that chain has nothing there and storage has it. */
  predicate Reachable(src: Sources, b: Block)
    reads b`parentPtr
  {
    && b.height > 0 && b.parent != null
    && (b.parentPtr == b.parent
        || (b.parentPtr == null && b.height - 1 in src.cached && src.cached[b.height - 1] == b.parent)
        || (b.parentPtr == null && b.height - 1 !in src.cached && b.parent in src.stored))
  }

  ghost predicate AncestryReachable(src: Sources, b: Block)
    reads set c | c in Ancestry(b)
  {
    forall c | c in Ancestry(b) && c.height > 0 :: Reachable(src, c)
  }

  /** The ancestry starts with a key block. */
  ghost predicate FromKeyBlock(b: Block) {
    forall c | c in Ancestry(b) && c.height == 0 :: c.isKeyBlock
  }

  /** Such a block is answered, and only named parents are fetched for it. */
  lemma {:induction false} ReachableIsAnswered(chain: set<Block>, src: Sources, b: Block)
    requires b in chain && Linked(chain) && CacheOk(chain, src)
    requires AncestryReachable(src, b) && FromKeyBlock(b)
    ensures Answerable(chain, src, b) && Faithful(chain, src, b)
    decreases b.height
  {
    assert b in Ancestry(b) && LinkOk(chain, b);
    if b.height > 0 {
      assert b.HasParent() && Reachable(src, b) && b.GetParent(src) == b.parent;
      forall c | c in Ancestry(b.parent) ensures c in Ancestry(b) { }
      ReachableIsAnswered(chain, src, b.parent);
    }
  }

  /** Where known totals are right: what the blocks that will be fetched add up to. */
  lemma WhatTheWalkSums(chain: set<Block>, src: Sources, b: Block)
    requires b in chain && Linked(chain) && CacheOk(chain, src) && TotalsOk(chain, Totals(chain))
    ensures Answerable(chain, src, b) ==> FetchedWork(chain, src, b) == b.TotalWork() + Drift(chain, src, b)
    ensures Answerable(chain, src, b) && Faithful(chain, src, b) ==>
        && Drift(chain, src, b) == 0
        && forall c :: c in FetchedTotals(chain, src, b) ==> FetchedTotals(chain, src, b)[c] == c.TotalWork()
    ensures AncestryReachable(src, b) && FromKeyBlock(b) ==>
        Answerable(chain, src, b) && Faithful(chain, src, b) && b.TotalWork() == SumDifficulties(Ancestry(b))
  {
    if AncestryReachable(src, b) && FromKeyBlock(b) {
      ReachableIsAnswered(chain, src, b);
      TotalWorkIsSum(chain, b);
    }
    if Answerable(chain, src, b) {
      FetchedIsTotalAndDrift(chain, src, b);
      if Faithful(chain, src, b) { FaithfulSums(chain, src, b); }
    }
  }

  /** The k-th block of b's ancestry has a known total or is the genesis block, and all before it
      reach their named parents. */
  ghost predicate AnswerAt(src: Sources, b: Block, k: nat)
    reads set c | c in Ancestry(b)
  {
    var line := Ancestry(b);
    && k < |line| && (line[k].total != 0 || line[k].IsGenesis())
    && forall i | 0 <= i < k :: Reachable(src, line[i])
  }

  lemma AncestryUp(chain: set<Block>, b: Block)
    requires b in chain && Linked(chain) && b.height > 0
    ensures b.HasParent() && Ancestry(b) == [b] + Ancestry(b.parent)
  {
    assert LinkOk(chain, b);
  }

  lemma {:induction false} AnsweredFrom(chain: set<Block>, src: Sources, b: Block) returns (k: nat)
    requires b in chain && Linked(chain) && CacheOk(chain, src)
    requires (forall c | c in Ancestry(b) :: FetchesNamed(src, c)) && Answerable(chain, src, b)
    ensures AnswerAt(src, b, k)
    decreases b.height
  {
    assert Ancestry(b)[0] == b && FetchesNamed(src, b);
    k := 0;
    if b.total == 0 && b.GetParent(src) != null {
      AncestryUp(chain, b);
      var line, rest := Ancestry(b), Ancestry(b.parent);
      forall c | c in rest ensures FetchesNamed(src, c) { assert c in line; }
      var up := AnsweredFrom(chain, src, b.parent);
      forall i | 0 <= i < up + 1 ensures Reachable(src, line[i]) { assert i > 0 ==> line[i] == rest[i - 1]; }
      k := up + 1;
      assert line[k] == rest[up];
    }
  }

  lemma {:induction false} AnsweredIf(chain: set<Block>, src: Sources, b: Block, k: nat)
    requires b in chain && Linked(chain) && CacheOk(chain, src) && AnswerAt(src, b, k)
    ensures Answerable(chain, src, b)
    decreases b.height
  {
    var line := Ancestry(b);
    assert line[0] == b;
    if k > 0 {
      assert Reachable(src, line[0]);
      AncestryUp(chain, b);
      var rest := Ancestry(b.parent);
      assert b.GetParent(src) == b.parent;
      forall i | 0 <= i < k - 1 ensures Reachable(src, rest[i]) { assert rest[i] == line[i + 1]; }
      assert rest[k - 1] == line[k];
      AnsweredIf(chain, src, b.parent, k - 1);
    }
  }

  /** Off forks, exactly when a block is answered: some block of its ancestry has a known total or
      is the genesis block, and every block above that one reaches its named parent. */
  lemma AnswerableExactly(chain: set<Block>, src: Sources, b: Block)
    requires b in chain && Linked(chain) && CacheOk(chain, src)
    requires forall c | c in Ancestry(b) :: FetchesNamed(src, c)
    ensures Answerable(chain, src, b) <==> exists k: nat :: AnswerAt(src, b, k)
  {
    if Answerable(chain, src, b) {
      var k := AnsweredFrom(chain, src, b);
    }
    if k: nat :| AnswerAt(src, b, k) {
      AnsweredIf(chain, src, b, k);
    }
  }

  // ---------- Forks ----------

  /** One block off the verified chain, without a parent pointer: the answer is that of the
      verified chain's block below it and its own difficulty, right exactly when the named
      parent has the same total work. */
  lemma ForkIsJudgedByVerifiedChain(chain: set<Block>, src: Sources, b: Block)
    requires b in chain && MemoOk(chain) && CacheOk(chain, src)
    requires b.total == 0 && b.height > 0 && b.parentPtr == null && b.height - 1 in src.cached
    requires var p := src.cached[b.height - 1]; Faithful(chain, src, p) && Answerable(chain, src, p)
    ensures FetchedWork(chain, src, b) == src.cached[b.height - 1].TotalWork() + b.Weight()
    ensures FetchedWork(chain, src, b) == b.TotalWork() <==>
        src.cached[b.height - 1].TotalWork() == b.parent.TotalWork()
  {
    var p := src.cached[b.height - 1];
    assert LinkOk(chain, b);
    FetchedIsTotalAndDrift(chain, src, p);
    FaithfulSums(chain, src, p);
  }

  /** Such a block: its own chain has total work 6, and the answer is 8. */
  method ForkDeviates() returns (block: Block, verdict: Verdict, answer: nat)
    ensures verdict.Valid? && answer == 8 && block.TotalWork() == 6
  {
    var genesis := new Block(0, true, 1.0, null);
    var verified := new Block(1, false, 5.0, genesis);
    var fork := new Block(1, false, 3.0, genesis);
    block := new Block(2, false, 2.0, fork);
    ghost var chain := {genesis, verified, fork, block};
    assert fresh(chain);
    var src := Sources(map[0 := genesis, 1 := verified], {genesis, verified, fork});
    ForkFacts(chain, src, genesis, verified, fork, block);
    verdict, answer := block.GetTotalWorkDone(chain, src);
  }

  /** Four fresh blocks: a genesis block, a verified one, and a fork of two. */
  ghost predicate Fresh(chain: set<Block>)
    reads chain
  {
    forall b :: b in chain ==> b.total == 0 && b.tempNext == null && b.parentPtr == null
  }

  lemma ForkFacts(chain: set<Block>, src: Sources, genesis: Block, verified: Block, fork: Block, block: Block)
    requires chain == {genesis, verified, fork, block} && Fresh(chain)
    requires src.cached == map[0 := genesis, 1 := verified]
    requires genesis.IsGenesis() && genesis.Weight() == 1
    requires verified.height == 1 && verified.parent == genesis && verified.Weight() == 5
    requires fork.height == 1 && fork.parent == genesis && fork.Weight() == 3
    requires block.height == 2 && block.parent == fork && block.Weight() == 2
    ensures ShapeOk(chain) && CacheOk(chain, src) && Answerable(chain, src, block)
    ensures FetchedWork(chain, src, block) == 8 && block.TotalWork() == 6
  {
    assert fork.TotalWork() == 4;
    assert verified.GetParent(src) == genesis && block.GetParent(src) == verified;
    assert FetchedWork(chain, src, genesis) == 1 && Answerable(chain, src, genesis);
    assert FetchedWork(chain, src, verified) == 6 && Answerable(chain, src, verified);
  }

  // ---------- The sum itself ----------

  /** The blocks from b down to the last one reachable through parents. */
  ghost function Ancestry(b: Block): seq<Block>
    decreases b.height
  {
    [b] + if b.HasParent() then Ancestry(b.parent) else []
  }

  function SumDifficulties(blocks: seq<Block>): nat
  {
    if blocks == [] then 0 else SumDifficulties(blocks[..|blocks| - 1]) + blocks[|blocks| - 1].Weight()
  }

  lemma {:induction false} SumDifficultiesCons(b: Block, blocks: seq<Block>)
    ensures SumDifficulties([b] + blocks) == b.Weight() + SumDifficulties(blocks)
  {
    var all := [b] + blocks;
    if blocks == [] {
      assert all[..|all| - 1] == [];
    } else {
      assert all[..|all| - 1] == [b] + blocks[..|blocks| - 1];
      SumDifficultiesCons(b, blocks[..|blocks| - 1]);
    }
  }

  /** The total is the sum over the whole ancestry, one block for each height down to the
      genesis block. */
  lemma {:induction false} TotalWorkIsSum(chain: set<Block>, b: Block)
    requires b in chain && Linked(chain)
    ensures b.TotalWork() == SumDifficulties(Ancestry(b))
    ensures |Ancestry(b)| == b.height + 1 && Ancestry(b)[b.height].height == 0
    decreases b.height
  {
    if b.HasParent() {
      TotalWorkIsSum(chain, b.parent);
      SumDifficultiesCons(b, Ancestry(b.parent));
    } else {
      SumDifficultiesCons(b, []);
      assert b.parent == b.parent;
    }
  }

  /** A block adds the whole part of its difficulty, or nothing when that is above the cap. */
  lemma WeightExactly(b: Block)
    ensures b.rawDifficulty <= 100000000000.0 ==> b.Weight() as real <= b.rawDifficulty < (b.Weight() + 1) as real
    ensures b.rawDifficulty > 100000000000.0 ==> b.Weight() == 0
  { }

  /** With the difficulty cap, the 64-bit total cannot overflow on a chain of at most 184467440
      blocks. */
  lemma {:induction false} TotalWorkFits(chain: set<Block>, b: Block)
    requires b in chain && Linked(chain)
    ensures b.TotalWork() <= 100000000000 * (b.height + 1)
    ensures b.height + 1 <= 184467440 ==> b.TotalWork() < U64
    decreases b.height
  {
    if b.HasParent() {
      TotalWorkFits(chain, b.parent);
    }
    assert b.parent == b.parent;
  }
}
