/** Breakpoints and the six indexes they are looked up through (CBreakpointFactory). */
module BreakpointIndex {
  import opened Sequences
  import opened Wrappers

  datatype Type = Block | Transaction | OtherType

  datatype Condition = Height | KeyHeight | BlockID | ReceiptID | TxSource | TxDestination | OtherCondition

  /** Breakpoints are compared by identity. */
  class Breakpoint {
    const kind: Type
    const condition: Condition
    const text: string
    const bytes: seq<int>

    constructor (kind: Type, condition: Condition, text: string, bytes: seq<int>)
      ensures this.kind == kind && this.condition == condition && this.text == text && this.bytes == bytes
    {
      this.kind, this.condition, this.text, this.bytes := kind, condition, text, bytes;
    }
  }

  datatype Index = Heights | KeyHeights | BlockIDs | ReceiptIDs | Sources | Destinations

  datatype Key = Number(n: nat) | Text(s: string) | Bytes(b: seq<int>)

  /** Where a breakpoint is indexed. A height that is no number makes the library throw. */
  datatype Place = Nowhere | At(index: Index, key: Key) | Throws

  /** The library's conversion of a string to an unsigned number, None where it throws. */
  type Convert = string -> Option<nat>

  function NumberAt(convert: Convert, index: Index, text: string): Place {
    match convert(text)
    case None => Throws
    case Some(n) => At(index, Number(n))
  }

  function PlaceOf(convert: Convert, b: Breakpoint): Place {
    match b.kind
    case Block => (
      match b.condition
      case Height => NumberAt(convert, Heights, b.text)
      case KeyHeight => NumberAt(convert, KeyHeights, b.text)
      case BlockID => At(BlockIDs, Bytes(b.bytes))
      case _ => Nowhere)
    case Transaction => (
      match b.condition
      case ReceiptID => At(ReceiptIDs, Bytes(b.bytes))
      case TxSource => At(Sources, Text(b.text))
      case TxDestination => At(Destinations, Text(b.text))
      case _ => Nowhere)
    case OtherType => Nowhere
  }

  /** Which breakpoints an index is there to find under a key. */
  predicate FiledUnder(convert: Convert, b: Breakpoint, index: Index, key: Key) {
    match index
    case Heights => b.kind == Block && b.condition == Height && key.Number? && convert(b.text) == Some(key.n)
    case KeyHeights => b.kind == Block && b.condition == KeyHeight && key.Number? && convert(b.text) == Some(key.n)
    case BlockIDs => b.kind == Block && b.condition == BlockID && key == Bytes(b.bytes)
    case ReceiptIDs => b.kind == Transaction && b.condition == ReceiptID && key == Bytes(b.bytes)
    case Sources => b.kind == Transaction && b.condition == TxSource && key == Text(b.text)
    case Destinations => b.kind == Transaction && b.condition == TxDestination && key == Text(b.text)
  }

  /** A block breakpoint on a height or key height that is no number. */
  predicate HasBadNumber(convert: Convert, b: Breakpoint) {
    b.kind == Block && (b.condition == Height || b.condition == KeyHeight) && convert(b.text) == None
  }

  lemma PlaceExactly(convert: Convert, b: Breakpoint)
    ensures forall index, key :: PlaceOf(convert, b) == At(index, key) <==> FiledUnder(convert, b, index, key)
    ensures PlaceOf(convert, b).Throws? <==> HasBadNumber(convert, b)
  { }

  datatype Entry = Entry(key: Key, breakpoint: Breakpoint)

  type Entries = seq<Entry>

  // ---------------------------------------------------------------- what the indexes hold

  /** What one index should hold for a list of breakpoints. */
  function Indexed(convert: Convert, list: seq<Breakpoint>, index: Index): Entries {
    if list == [] then [] else Own(PlaceOf(convert, list[0]), list[0], index) + Indexed(convert, list[1..], index)
  }

  function Own(place: Place, b: Breakpoint, index: Index): Entries {
    if place.At? && place.index == index then [Entry(place.key, b)] else []
  }

  /** The breakpoints of a list that belong under a key, in the order of the list. */
  function Matching(convert: Convert, list: seq<Breakpoint>, index: Index, key: Key): seq<Breakpoint> {
    if list == [] then [] else
      Alone(PlaceOf(convert, list[0]), list[0], index, key) + Matching(convert, list[1..], index, key)
  }

  function Alone(place: Place, b: Breakpoint, index: Index, key: Key): seq<Breakpoint> {
    if place == At(index, key) then [b] else []
  }

  /** The breakpoints an index gives for a key. */
  function Under(entries: Entries, key: Key): seq<Breakpoint> {
    if entries == [] then [] else OneUnder(entries[0], key) + Under(entries[1..], key)
  }

  function OneUnder(e: Entry, key: Key): seq<Breakpoint> {
    if e.key == key then [e.breakpoint] else []
  }

  /** The entry of one breakpoint, put before others. */
  lemma UnderOwn(place: Place, b: Breakpoint, index: Index, rest: Entries, key: Key)
    ensures Under(Own(place, b, index) + rest, key) == Alone(place, b, index, key) + Under(rest, key)
  {
    var own := Own(place, b, index);
    if own == [] {
      assert own + rest == rest;
    } else {
      assert (own + rest)[1..] == rest;
    }
  }

  /** A lookup through an index is a filter of the list. */
  lemma {:induction false} LookupIsFilter(convert: Convert, list: seq<Breakpoint>, index: Index, key: Key)
    ensures Under(Indexed(convert, list, index), key) == Matching(convert, list, index, key)
  {
    if list != [] {
      LookupIsFilter(convert, list[1..], index, key);
      UnderOwn(PlaceOf(convert, list[0]), list[0], index, Indexed(convert, list[1..], index), key);
    }
  }

  /** A breakpoint is found under a key exactly when it is in the list and is filed there, and a
      list without repeats gives no repeats. */
  lemma {:induction false} FilterIsExact(convert: Convert, list: seq<Breakpoint>, index: Index, key: Key)
    ensures forall b :: b in Matching(convert, list, index, key) <==> b in list && FiledUnder(convert, b, index, key)
    ensures Distinct(list) ==> Distinct(Matching(convert, list, index, key))
  {
    if list != [] {
      FilterIsExact(convert, list[1..], index, key);
      PlaceExactly(convert, list[0]);
      if Distinct(list) {
        forall i, j | 0 <= i < j < |list[1..]| ensures list[1..][i] != list[1..][j] {
          assert list[1..][i] == list[i + 1] && list[1..][j] == list[j + 1];
        }
        assert list[0] !in list[1..];
      }
    }
  }

  ghost predicate Distinct(list: seq<Breakpoint>) {
    forall i, j | 0 <= i < j < |list| :: list[i] != list[j]
  }

  lemma {:induction false} IndexedSnoc(convert: Convert, list: seq<Breakpoint>, b: Breakpoint, index: Index)
    ensures Indexed(convert, list + [b], index) == Indexed(convert, list, index) + Own(PlaceOf(convert, b), b, index)
  {
    if list == [] {
      assert [] + [b] == [b] && [b][1..] == [];
    } else {
      assert (list + [b])[1..] == list[1..] + [b];
      IndexedSnoc(convert, list[1..], b, index);
    }
  }

  /** A list without the first occurrence of one element. */
  function Without<T(==)>(list: seq<T>, x: T): seq<T> {
    if list == [] then [] else if list[0] == x then list[1..] else [list[0]] + Without(list[1..], x)
  }

  lemma {:induction false} WithoutAt<T>(list: seq<T>, x: T, i: nat)
    requires i < |list| && list[i] == x && forall j | 0 <= j < i :: list[j] != x
    ensures Without(list, x) == list[..i] + list[i + 1..]
  {
    if i > 0 {
      WithoutAt(list[1..], x, i - 1);
      assert [list[0]] + (list[1..][..i - 1] + list[1..][i..]) == list[..i] + list[i + 1..];
    }
  }

  lemma {:induction false} WithoutAbsent<T>(list: seq<T>, x: T)
    requires x !in list
    ensures Without(list, x) == list
  {
    if list != [] { WithoutAbsent(list[1..], x); }
  }

  lemma {:induction false} WithoutDistinct(list: seq<Breakpoint>, b: Breakpoint)
    requires Distinct(list)
    ensures Distinct(Without(list, b))
    ensures forall c :: c in Without(list, b) <==> c in list && c != b
  {
    if list != [] {
      assert forall i, j | 0 <= i < j < |list[1..]| :: list[1..][i] == list[i + 1] && list[1..][j] == list[j + 1];
      WithoutDistinct(list[1..], b);
      assert list[0] !in list[1..];
    }
  }

  function Dropped(place: Place, b: Breakpoint, index: Index, entries: Entries): Entries {
    if place.At? && place.index == index then Without(entries, Entry(place.key, b)) else entries
  }

  /** Dropping a breakpoint from the list drops its entry, and nothing else, from the index. */
  lemma {:induction false} IndexedWithout(convert: Convert, list: seq<Breakpoint>, b: Breakpoint, index: Index)
    requires b in list
    ensures Indexed(convert, Without(list, b), index)
        == Dropped(PlaceOf(convert, b), b, index, Indexed(convert, list, index))
  {
    var own, rest := Own(PlaceOf(convert, list[0]), list[0], index), Indexed(convert, list[1..], index);
    if list[0] == b {
      assert own == [] ==> own + rest == rest;
      assert own != [] ==> (own + rest)[1..] == rest;
    } else {
      IndexedWithout(convert, list[1..], b, index);
      assert own == [] ==> own + rest == rest;
      assert own != [] ==> (own + rest)[1..] == rest;
      assert ([list[0]] + Without(list[1..], b))[1..] == Without(list[1..], b);
    }
  }

  /** What adding and removing do to a lookup: the new breakpoint comes last under its key, and
      goes again without trace. */
  lemma {:induction false} LookupAfterAdd(convert: Convert, list: seq<Breakpoint>, b: Breakpoint, index: Index,
    key: Key)
    ensures Matching(convert, list + [b], index, key)
         == Matching(convert, list, index, key) + if FiledUnder(convert, b, index, key) then [b] else []
  {
    PlaceExactly(convert, b);
    if list == [] {
      assert [] + [b] == [b] && [b][1..] == [];
    } else {
      assert (list + [b])[1..] == list[1..] + [b];
      LookupAfterAdd(convert, list[1..], b, index, key);
      Associates(Alone(PlaceOf(convert, list[0]), list[0], index, key), Matching(convert, list[1..], index, key),
        Alone(PlaceOf(convert, b), b, index, key));
    }
  }

  lemma {:induction false} RemoveUndoesAdd(list: seq<Breakpoint>, b: Breakpoint)
    requires b !in list
    ensures Without(list + [b], b) == list
  {
    WithoutAt(list + [b], b, |list|);
    assert (list + [b])[..|list|] + (list + [b])[|list| + 1..] == list;
  }

  // ---------------------------------------------------------------- the factory

  datatype Outcome = Returned(ok: bool) | Threw

  class Factory {
    const convert: Convert
    var breakpoints: seq<Breakpoint>
    var indexes: map<Index, Entries>

    constructor (convert: Convert)
      ensures Valid() && breakpoints == [] && this.convert == convert
    {
      this.convert := convert;
      breakpoints := [];
      indexes := map[Heights := [], KeyHeights := [], BlockIDs := [], ReceiptIDs := [], Sources := [],
        Destinations := []];
      new;
      forall i: Index ensures i in indexes && indexes[i] == [] {
        match i
        case Heights => case KeyHeights => case BlockIDs =>
        case ReceiptIDs => case Sources => case Destinations =>
      }
    }

    /** No breakpoint is listed twice, and every index holds what it should. */
    ghost predicate Valid()
      reads this
    {
      Distinct(breakpoints) && Agrees(breakpoints)
    }

    ghost predicate Agrees(list: seq<Breakpoint>)
      reads this
    {
      forall i: Index :: i in indexes && indexes[i] == Indexed(convert, list, i)
    }

    method Find(b: Breakpoint) returns (i: nat)
      ensures i <= |breakpoints| && (i < |breakpoints| ==> breakpoints[i] == b)
      ensures forall j | 0 <= j < i :: breakpoints[j] != b
    {
      i := 0;
      while i < |breakpoints| && breakpoints[i] != b
        invariant i <= |breakpoints|
        invariant forall j | 0 <= j < i :: breakpoints[j] != b
      {
        i := i + 1;
      }
    }

    /** Lists and indexes a breakpoint. When indexing throws, it stays listed. */
    method AddBreakpoint(b: Breakpoint?) returns (r: Outcome)
      requires Valid()
      modifies this
      ensures Valid()
      ensures b == null || b in old(breakpoints) ==> r == Returned(false) && breakpoints == old(breakpoints)
      ensures b != null && b !in old(breakpoints) ==>
        breakpoints == old(breakpoints) + [b] == ListAfter(convert, old(breakpoints), Add(b)) &&
          r == if HasBadNumber(convert, b) then Threw else Returned(true)
    {
      if b == null { return Returned(false); }
      var at := Find(b);
      if at < |breakpoints| { return Returned(false); }
      ghost var list := breakpoints;
      breakpoints := breakpoints + [b];
      forall i: Index ensures Indexed(convert, list + [b], i)
          == Indexed(convert, list, i) + Own(PlaceOf(convert, b), b, i) {
        IndexedSnoc(convert, list, b, i);
      }
      PlaceExactly(convert, b);
      match PlaceOf(convert, b) {
        case Throws =>
          return Threw;
        case Nowhere =>
        case At(index, key) =>
          indexes := indexes[index := indexes[index] + [Entry(key, b)]];
      }
      return Returned(true);
    }

    /** Unlists a breakpoint. When finding its entry throws, it stays listed. */
    method RemoveBreakpoint(b: Breakpoint?) returns (r: Outcome)
      requires Valid()
      modifies this
      ensures Valid()
      ensures b == null || b !in old(breakpoints) ==> r == Returned(false) && breakpoints == old(breakpoints)
      ensures b != null && b in old(breakpoints) ==>
        if HasBadNumber(convert, b) then r == Threw && breakpoints == old(breakpoints)
        else r == Returned(true) && breakpoints == Without<Breakpoint>(old(breakpoints), b)
    {
      if b == null { return Returned(false); }
      var at := Find(b);
      if at == |breakpoints| { return Returned(false); }
      ghost var list := breakpoints;
      WithoutAt<Breakpoint>(list, b, at);
      WithoutDistinct(list, b);
      forall i: Index ensures Indexed(convert, Without<Breakpoint>(list, b), i)
          == Dropped(PlaceOf(convert, b), b, i, indexes[i]) {
        IndexedWithout(convert, list, b, i);
      }
      PlaceExactly(convert, b);
      match PlaceOf(convert, b) {
        case Throws =>
          return Threw;
        case Nowhere =>
        case At(index, key) =>
          var entries := EraseEntry(indexes[index], key, b);
          indexes := indexes[index := entries];
      }
      breakpoints := breakpoints[..at] + breakpoints[at + 1..];
      return Returned(true);
    }

    /** The breakpoints under a key: the listed ones that belong there, each once. */
    method Lookup(index: Index, key: Key) returns (found: seq<Breakpoint>)
      requires Valid()
      ensures found == Matching(convert, breakpoints, index, key)
      ensures forall b :: b in found <==> b in breakpoints && FiledUnder(convert, b, index, key)
      ensures Distinct(found)
    {
      found := CollectUnder(indexes[index], key);
      LookupIsFilter(convert, breakpoints, index, key);
      FilterIsExact(convert, breakpoints, index, key);
    }
  }

  lemma UnderFront(entries: Entries, i: nat, key: Key)
    requires i < |entries|
    ensures Under(entries[i..], key) == OneUnder(entries[i], key) + Under(entries[i + 1..], key)
  {
    assert entries[i..][1..] == entries[i + 1..];
  }

  /** Walks the entries under the key. */
  method CollectUnder(entries: Entries, key: Key) returns (found: seq<Breakpoint>)
    ensures found == Under(entries, key)
  {
    found := [];
    for i := 0 to |entries|
      invariant found + Under(entries[i..], key) == Under(entries, key)
    {
      UnderFront(entries, i, key);
      Associates(found, OneUnder(entries[i], key), Under(entries[i + 1..], key));
      if entries[i].key == key { found := found + [entries[i].breakpoint]; }
    }
  }

  /** Walks the entries under the key and erases the first that names the breakpoint. */
  method EraseEntry(entries: Entries, key: Key, b: Breakpoint) returns (r: Entries)
    ensures r == Without(entries, Entry(key, b))
  {
    for i := 0 to |entries|
      invariant forall j | 0 <= j < i :: entries[j] != Entry(key, b)
    {
      if entries[i].key == key && entries[i].breakpoint == b {
        WithoutAt(entries, Entry(key, b), i);
        return entries[..i] + entries[i + 1..];
      }
    }
    WithoutAbsent(entries, Entry(key, b));
    return entries;
  }

  // ---------------------------------------------------------------- runs

  datatype Call = Add(b: Breakpoint) | Remove(b: Breakpoint)

  /** What one call does to the list. */
  function ListAfter(convert: Convert, list: seq<Breakpoint>, call: Call): seq<Breakpoint> {
    match call
    case Add(b) => if b in list then list else list + [b]
    case Remove(b) => if b !in list || HasBadNumber(convert, b) then list else Without(list, b)
  }

  function ListAfterRun(convert: Convert, calls: seq<Call>): seq<Breakpoint> {
    if calls == [] then [] else ListAfter(convert, ListAfterRun(convert, calls[..|calls| - 1]), calls[|calls| - 1])
  }

  /** Over any run a breakpoint is listed exactly when its last call added it; but one whose
      height is no number, once added, is listed for good and found nowhere. */
  lemma {:induction false} ListedIffLastAdded(convert: Convert, calls: seq<Call>, b: Breakpoint)
    ensures Distinct(ListAfterRun(convert, calls))
    ensures b in ListAfterRun(convert, calls) <==>
      if HasBadNumber(convert, b) then Add(b) in calls else LastCall(calls, b) == Some(Add(b))
    ensures HasBadNumber(convert, b) ==>
      forall i: Index, key: Key :: b !in Matching(convert, ListAfterRun(convert, calls), i, key)
  {
    if calls != [] {
      var init, call := calls[..|calls| - 1], calls[|calls| - 1];
      ListedIffLastAdded(convert, init, b);
      assert calls == init + [call];
      if call.Remove? { WithoutDistinct(ListAfterRun(convert, init), call.b); }
    }
    forall i: Index, key: Key ensures HasBadNumber(convert, b) ==>
        b !in Matching(convert, ListAfterRun(convert, calls), i, key) {
      FilterIsExact(convert, ListAfterRun(convert, calls), i, key);
    }
  }

  /** The latest call that names a breakpoint. */
  function LastCall(calls: seq<Call>, b: Breakpoint): Option<Call> {
    if calls == [] then None
    else if calls[|calls| - 1].b == b then Some(calls[|calls| - 1])
    else LastCall(calls[..|calls| - 1], b)
  }
}
