/** Printing and parsing block headers (CBlockHeader): four versions, each with the form of a
    key block and that of a regular block. */
module HeaderCodec {
  import opened Bytes
  import opened Der
  import opened Sequences
  import opened Wrappers

  type Octets = seq<byte>

  datatype Field =
    | Height | SolvedAt | KeyHeight | CoreVersion
    | Nonce | Target | ParentKeyBlockID | PublicKey
    | PaidToLeader | Signature | ParentBlockID | UncleBlocksHash
    | InitialStateRootID | FinalStateRootID | ExtraData | ReceiptsRootID | VerifiablesRootID
    | NrOfVerifiables | NrOfReceipts | TotalReward
    | TransactionsRootID | LogsBloom | ErgLimit | ErgUsed | NrOfTransactions

  /** Machine words go out as integers, byte vectors as octet strings, and big numbers as
      octet strings of their bytes. */
  datatype Value = Word(n: nat) | Bytes(b: Octets) | Big(v: nat)

  predicate HasKind(f: Field, v: Value) {
    match f
    case Height | SolvedAt | KeyHeight | CoreVersion | Nonce | Target
       | NrOfVerifiables | NrOfReceipts | NrOfTransactions => v.Word?
    case PaidToLeader | TotalReward | ErgLimit | ErgUsed => v.Big?
    case _ => v.Bytes?
  }

  type Values = map<Field, Value>

  datatype Header = Header(version: nat, isKey: bool, values: Values)

  ghost predicate Typed(values: Values) {
    forall f: Field :: f in values && HasKind(f, values[f])
  }

  /** A field that holds bytes, and one that holds a word. */
  function Octet(values: Values, f: Field): Octets {
    if f in values && values[f].Bytes? then values[f].b else []
  }

  function WordOf(values: Values, f: Field): nat {
    if f in values && values[f].Word? then values[f].n else 0
  }

  // ---------------------------------------------------------------- layouts

  const ParentFields := [Signature, ParentBlockID, UncleBlocksHash]
  const ResultFields := [FinalStateRootID, ExtraData, ReceiptsRootID, VerifiablesRootID, NrOfVerifiables,
    NrOfReceipts, TotalReward]
  const RegularFields := [TransactionsRootID, LogsBloom, ErgLimit, ErgUsed, NrOfTransactions]

  /** What the writer encodes, in order, version by version. */
  function WriterLayout(version: nat, isKey: bool): seq<Field> {
    match version
    case 1 =>
      [Height, SolvedAt, KeyHeight]
      + (if isKey then [Nonce, Target, ParentKeyBlockID, PublicKey, PaidToLeader] else [])
      + ParentFields + ResultFields
      + (if isKey then [] else RegularFields)
    case 2 =>
      [Height, SolvedAt, KeyHeight]
      + (if isKey then [Nonce, Target, ParentKeyBlockID, PublicKey, PaidToLeader] else [])
      + ParentFields + [InitialStateRootID] + ResultFields
      + (if isKey then [] else RegularFields)
    case 3 =>
      [Height, SolvedAt, KeyHeight]
      + (if isKey then [Nonce, Target, ParentKeyBlockID, PublicKey] else [])
      + [PaidToLeader]
      + ParentFields + [InitialStateRootID] + ResultFields
      + (if isKey then [] else RegularFields)
    case 4 =>
      [Height, SolvedAt, KeyHeight, CoreVersion]
      + (if isKey then [Nonce, Target, ParentKeyBlockID, PublicKey] else [])
      + [PaidToLeader]
      + ParentFields + [InitialStateRootID] + ResultFields
      + (if isKey then [] else RegularFields)
    case _ => []
  }

  /** What the reader decodes, in order, told by what a version has rather than case by case.
      A version it does not know has no fields. */
  function ReaderLayout(version: nat, isKey: bool): seq<Field> {
    if version < 1 || version > 4 then [] else
      [Height, SolvedAt, KeyHeight]
      + (if version == 4 then [CoreVersion] else [])
      + (if isKey then [Nonce, Target, ParentKeyBlockID, PublicKey] else [])
      + (if isKey || version >= 3 then [PaidToLeader] else [])
      + ParentFields
      + (if version >= 2 then [InitialStateRootID] else [])
      + ResultFields
      + (if isKey then [] else RegularFields)
  }

  /** Writer and reader name the same fields in the same order, for every version. */
  lemma LayoutsAgree(version: nat, isKey: bool)
    ensures WriterLayout(version, isKey) == ReaderLayout(version, isKey)
  {
    if 1 <= version <= 4 {
      var start, four := [Height, SolvedAt, KeyHeight], [Nonce, Target, ParentKeyBlockID, PublicKey];
      assert start + [] == start && start + [CoreVersion] == [Height, SolvedAt, KeyHeight, CoreVersion];
      assert start + [] + [] == start;
      assert four + [PaidToLeader] == [Nonce, Target, ParentKeyBlockID, PublicKey, PaidToLeader];
      assert start + four + [PaidToLeader] == start + (four + [PaidToLeader]);
      if version == 1 {
        var before := start + (if isKey then four + [PaidToLeader] else []) + ParentFields;
        assert before + [] == before;
      }
    }
  }

  lemma LayoutHas(version: nat, isKey: bool)
    requires 1 <= version <= 4
    ensures var l := ReaderLayout(version, isKey);
      && Signature in l && ParentBlockID in l && Height in l
      && FinalStateRootID in l && ReceiptsRootID in l && VerifiablesRootID in l
      && (isKey ==> PublicKey in l && ParentKeyBlockID in l)
      && (!isKey ==> TransactionsRootID in l)
  {
    assert Signature in ParentFields && ParentBlockID in ParentFields;
    assert FinalStateRootID in ResultFields && ReceiptsRootID in ResultFields && VerifiablesRootID in ResultFields;
    assert TransactionsRootID in RegularFields;
  }

  /** What a version carries, field by field. */
  predicate Carries(version: nat, isKey: bool, f: Field) {
    match f
    case CoreVersion => version >= 4
    case InitialStateRootID => version >= 2
    case PaidToLeader => isKey || version >= 3
    case Nonce | Target | ParentKeyBlockID | PublicKey => isKey
    case TransactionsRootID | LogsBloom | ErgLimit | ErgUsed | NrOfTransactions => !isKey
    case Height | SolvedAt | KeyHeight | Signature | ParentBlockID | UncleBlocksHash | FinalStateRootID
       | ExtraData | ReceiptsRootID | VerifiablesRootID | NrOfVerifiables | NrOfReceipts | TotalReward => true
  }

  /** All fields, in the one order every version keeps. */
  const FieldOrder := [
    Height, SolvedAt, KeyHeight, CoreVersion, Nonce, Target, ParentKeyBlockID, PublicKey, PaidToLeader,
    Signature, ParentBlockID, UncleBlocksHash, InitialStateRootID, FinalStateRootID, ExtraData, ReceiptsRootID,
    VerifiablesRootID, NrOfVerifiables, NrOfReceipts, TotalReward,
    TransactionsRootID, LogsBloom, ErgLimit, ErgUsed, NrOfTransactions]

  function Selected(fields: seq<Field>, version: nat, isKey: bool): seq<Field> {
    if fields == [] then [] else
      (if Carries(version, isKey, fields[0]) then [fields[0]] else []) + Selected(fields[1..], version, isKey)
  }

  lemma {:induction false} SelectedAlike(fields: seq<Field>, rest: seq<Field>, version: nat, isKey: bool, all: bool)
    requires forall f | f in fields :: Carries(version, isKey, f) == all
    ensures Selected(fields + rest, version, isKey) == (if all then fields else []) + Selected(rest, version, isKey)
  {
    if fields == [] {
      assert fields + rest == rest;
    } else {
      assert (fields + rest)[1..] == fields[1..] + rest;
      SelectedAlike(fields[1..], rest, version, isKey, all);
      Associates([fields[0]], if all then fields[1..] else [], Selected(rest, version, isKey));
      assert [fields[0]] + fields[1..] == fields;
    }
  }

  lemma {:induction false} SelectedHolds(fields: seq<Field>, version: nat, isKey: bool, f: Field)
    ensures f in Selected(fields, version, isKey) <==> f in fields && Carries(version, isKey, f)
  {
    if fields != [] { SelectedHolds(fields[1..], version, isKey, f); }
  }

  const FromResults := ResultFields + RegularFields
  const FromParents := ParentFields + ([InitialStateRootID] + FromResults)
  const FromKey := [Nonce, Target, ParentKeyBlockID, PublicKey] + ([PaidToLeader] + FromParents)

  lemma OrderFromParts()
    ensures FieldOrder == [Height, SolvedAt, KeyHeight] + ([CoreVersion] + FromKey)
  { }

  function When(carried: bool, fields: seq<Field>): seq<Field> {
    if carried then fields else []
  }

  lemma SelectedFromResults(version: nat, isKey: bool)
    ensures Selected(FromResults, version, isKey) == ResultFields + (When(!isKey, RegularFields) + [])
  {
    SelectedAlike(ResultFields, RegularFields, version, isKey, true);
    SelectedAlike(RegularFields, [], version, isKey, !isKey);
    assert RegularFields + [] == RegularFields;
  }

  lemma SelectedFromParents(version: nat, isKey: bool)
    ensures Selected(FromParents, version, isKey)
         == ParentFields + (When(version >= 2, [InitialStateRootID]) + Selected(FromResults, version, isKey))
  {
    SelectedAlike(ParentFields, [InitialStateRootID] + FromResults, version, isKey, true);
    SelectedAlike([InitialStateRootID], FromResults, version, isKey, version >= 2);
  }

  lemma SelectedFromKey(version: nat, isKey: bool)
    ensures Selected(FromKey, version, isKey)
         == When(isKey, [Nonce, Target, ParentKeyBlockID, PublicKey])
            + (When(isKey || version >= 3, [PaidToLeader]) + Selected(FromParents, version, isKey))
  {
    SelectedAlike([Nonce, Target, ParentKeyBlockID, PublicKey], [PaidToLeader] + FromParents, version, isKey, isKey);
    SelectedAlike([PaidToLeader], FromParents, version, isKey, isKey || version >= 3);
  }

  lemma SelectedFromStart(version: nat, isKey: bool)
    ensures Selected(FieldOrder, version, isKey)
         == [Height, SolvedAt, KeyHeight] + (When(version >= 4, [CoreVersion]) + Selected(FromKey, version, isKey))
  {
    OrderFromParts();
    SelectedAlike([Height, SolvedAt, KeyHeight], [CoreVersion] + FromKey, version, isKey, true);
    SelectedAlike([CoreVersion], FromKey, version, isKey, version >= 4);
  }

  /** A version's layout is that order with the fields it does not carry left out. */
  lemma LayoutInOrder(version: nat, isKey: bool)
    requires 1 <= version <= 4
    ensures ReaderLayout(version, isKey) == Selected(FieldOrder, version, isKey)
  {
    SelectedFromStart(version, isKey);
    SelectedFromKey(version, isKey);
    SelectedFromParents(version, isKey);
    SelectedFromResults(version, isKey);
    JoinsEight([Height, SolvedAt, KeyHeight], When(version >= 4, [CoreVersion]),
      When(isKey, [Nonce, Target, ParentKeyBlockID, PublicKey]), When(isKey || version >= 3, [PaidToLeader]),
      ParentFields, When(version >= 2, [InitialStateRootID]), ResultFields, When(!isKey, RegularFields));
  }

  lemma JoinsEight<T>(a: seq<T>, b: seq<T>, c: seq<T>, d: seq<T>, e: seq<T>, f: seq<T>, g: seq<T>, h: seq<T>)
    ensures a + b + c + d + e + f + g + h == a + (b + (c + (d + (e + (f + (g + (h + [])))))))
  { }

  lemma LayoutCarries(version: nat, isKey: bool, f: Field)
    requires 1 <= version <= 4
    ensures f in ReaderLayout(version, isKey) <==> Carries(version, isKey, f)
  {
    LayoutInOrder(version, isKey);
    SelectedHolds(FieldOrder, version, isKey, f);
    InFieldOrder(f);
  }

  lemma InFieldOrder(f: Field)
    ensures f in FieldOrder
  {
    match f
    case Height => case SolvedAt => case KeyHeight => case CoreVersion => case Nonce => case Target =>
    case ParentKeyBlockID => case PublicKey => case PaidToLeader => case Signature => case ParentBlockID =>
    case UncleBlocksHash => case InitialStateRootID => case FinalStateRootID => case ExtraData =>
    case ReceiptsRootID => case VerifiablesRootID => case NrOfVerifiables => case NrOfReceipts =>
    case TotalReward => case TransactionsRootID => case LogsBloom => case ErgLimit => case ErgUsed =>
    case NrOfTransactions =>
  }

  // ---------------------------------------------------------------- printing

  function PrintValue(v: Value): Octets {
    match v
    case Word(n) => Tlv(IntegerTag, IntegerContents(n))
    case Bytes(b) => Tlv(OctetStringTag, b)
    case Big(n) => Tlv(OctetStringTag, BigEndian(n))
  }

  /** Without the signature its place is taken by a NULL. */
  function PrintField(f: Field, values: Values, withSignature: bool): Octets
    requires f in values
  {
    if f == Signature && !withSignature then Tlv(NullTag, []) else PrintValue(values[f])
  }

  function PrintFields(fields: seq<Field>, values: Values, withSignature: bool): Octets
    requires forall f | f in fields :: f in values
  {
    if fields == [] then [] else
      PrintField(fields[0], values, withSignature) + PrintFields(fields[1..], values, withSignature)
  }

  /** Constructed encodings of the private class, by object type. */
  const PrivateConstructed: byte := 0xE0
  const KeyType: byte := 1
  const RegularType: byte := 3

  function OuterTag(isKey: bool): byte {
    PrivateConstructed + if isKey then KeyType else RegularType
  }

  function Body(h: Header, withSignature: bool): Octets
    requires Typed(h.values)
  {
    PrintFields(WriterLayout(h.version, h.isKey), h.values, withSignature)
  }

  function Wrapped(isKey: bool, version: nat, body: Octets): Octets {
    Tlv(OuterTag(isKey), PrintValue(Word(version)) + Tlv(SequenceTag, body))
  }

  /** The bytes of a header. */
  function Print(h: Header, withSignature: bool): Octets
    requires Typed(h.values)
  {
    Wrapped(h.isKey, h.version, Body(h, withSignature))
  }

  /** A header that fits in an address space. */
  ghost predicate Fits(h: Header, withSignature: bool)
    requires Typed(h.values)
  {
    |Print(h, withSignature)| < U64
  }

  // ---------------------------------------------------------------- parsing

  datatype Parsed = Parsed(value: Value, rest: Octets)

  function ReadValue(f: Field, b: Octets): Option<Parsed> {
    match ReadObject(b)
    case None => None
    case Some(o) =>
      if HasKind(f, Word(0)) then
        if o.tag != IntegerTag then None else
          match ReadInteger(o.contents)
          case None => None
          case Some(n) => Some(Parsed(Word(n), o.rest))
      else if o.tag != OctetStringTag then None
      else Some(Parsed(if HasKind(f, Big(0)) then Big(Number(o.contents)) else Bytes(o.contents), o.rest))
  }

  /** Decodes field after field into `values`; what follows the last one is not looked at. */
  function ReadFields(fields: seq<Field>, b: Octets, values: Values): Option<Values> {
    if fields == [] then Some(values) else
      match ReadValue(fields[0], b)
      case None => None
      case Some(p) => ReadFields(fields[1..], p.rest, values[fields[0] := p.value])
  }

  /** What a fresh header holds; `empty` is the root of an empty trie. */
  function Defaults(empty: Octets): Values {
    map f: Field :: Default(f, empty)
  }

  function Default(f: Field, empty: Octets): (v: Value)
    ensures HasKind(f, v)
  {
    match f
    case TransactionsRootID | ReceiptsRootID | VerifiablesRootID => Bytes(empty)
    case Height | SolvedAt | KeyHeight | CoreVersion | Nonce | Target
       | NrOfVerifiables | NrOfReceipts | NrOfTransactions => Word(0)
    case PaidToLeader | TotalReward | ErgLimit | ErgUsed => Big(0)
    case _ => Bytes([])
  }

  /** A regular block must name its state, transactions and receipts by 32-byte roots. */
  predicate RootsOk(h: Header) {
    |Octet(h.values, FinalStateRootID)| == 32 && |Octet(h.values, TransactionsRootID)| == 32 &&
      |Octet(h.values, ReceiptsRootID)| == 32
  }

  /** The checks made on a decoded header; an unknown version skips the first. */
  predicate Accepted(h: Header) {
    && (!h.isKey && 1 <= h.version <= 4 ==> RootsOk(h))
    && (h.isKey ==> |Octet(h.values, ParentKeyBlockID)| == 32 || WordOf(h.values, Height) == 0)
  }

  lemma {:induction false} ReadFieldsTyped(fields: seq<Field>, b: Octets, values: Values)
    requires Typed(values) && ReadFields(fields, b, values).Some?
    ensures Typed(ReadFields(fields, b, values).value)
  {
    if fields != [] {
      var p := ReadValue(fields[0], b).value;
      ReadFieldsTyped(fields[1..], p.rest, values[fields[0] := p.value]);
    }
  }

  /** The outer object's type, the version and the contents of the object after it; the tag
      of that object is not checked, and a missing one reads as empty. */
  datatype Envelope = Envelope(isKey: bool, version: nat, body: Octets)

  function ReadEnvelope(b: Octets): Option<Envelope> {
    match ReadObject(b)
    case None => None
    case Some(o) =>
      if o.tag != OuterTag(true) && o.tag != OuterTag(false) then None else
        match ReadValue(Height, o.contents)
        case None => None
        case Some(v) =>
          match ReadObject(v.rest)
          case Some(s) => Some(Envelope(o.tag == OuterTag(true), v.value.n, s.contents))
          case None => if v.rest == [] then Some(Envelope(o.tag == OuterTag(true), v.value.n, [])) else None
  }

  function Parse(b: Octets, empty: Octets): Option<Header> {
    match ReadEnvelope(b)
    case None => None
    case Some(e) =>
      match ReadFields(ReaderLayout(e.version, e.isKey), e.body, Defaults(empty))
      case None => None
      case Some(values) =>
        var h := Header(e.version, e.isKey, values);
        if Accepted(h) then Some(h) else None
  }

  // ---------------------------------------------------------------- round trip

  /** `base` with the listed fields taken from `values`. */
  function Carried(fields: seq<Field>, values: Values, base: Values): Values
    requires forall f | f in fields :: f in values
  {
    if fields == [] then base
    else Carried(fields[1..], values, base[fields[0] := values[fields[0]]])
  }

  lemma {:induction false} CarriedHolds(fields: seq<Field>, values: Values, base: Values, f: Field)
    requires forall g | g in fields :: g in values
    requires f in base || f in fields
    ensures f in Carried(fields, values, base)
    ensures Carried(fields, values, base)[f] == if f in fields then values[f] else base[f]
  {
    if fields != [] {
      var next := base[fields[0] := values[fields[0]]];
      if f in next || f in fields[1..] {
        CarriedHolds(fields[1..], values, next, f);
      }
    }
  }

  lemma ValueReadsBack(f: Field, v: Value, rest: Octets)
    requires HasKind(f, v) && |PrintValue(v)| < U64
    ensures ReadValue(f, PrintValue(v) + rest) == Some(Parsed(v, rest))
  {
    match v
    case Word(n) =>
      ObjectReadsBack(IntegerTag, IntegerContents(n), rest);
      IntegerReadsBack(n);
    case Bytes(b) =>
      ObjectReadsBack(OctetStringTag, b, rest);
    case Big(n) =>
      ObjectReadsBack(OctetStringTag, BigEndian(n), rest);
      NumberOfBigEndian(n);
  }

  /** Any list of fields reads back what was printed for it, whatever follows. */
  lemma {:induction false} FieldsReadBack(fields: seq<Field>, values: Values, base: Values, rest: Octets)
    requires Typed(values) && |PrintFields(fields, values, true)| < U64
    ensures ReadFields(fields, PrintFields(fields, values, true) + rest, base) == Some(Carried(fields, values, base))
  {
    if fields != [] {
      var f, more := fields[0], PrintFields(fields[1..], values, true);
      ValueReadsBack(f, values[f], more + rest);
      FirstFieldPrinted(fields, values, rest);
      FieldsReadBack(fields[1..], values, base[f := values[f]], rest);
      FirstFieldReads(fields, PrintFields(fields, values, true) + rest, base, Parsed(values[f], more + rest));
    }
  }

  lemma FirstFieldPrinted(fields: seq<Field>, values: Values, rest: Octets)
    requires fields != [] && forall f | f in fields :: f in values
    ensures PrintFields(fields, values, true) + rest
         == PrintValue(values[fields[0]]) + (PrintFields(fields[1..], values, true) + rest)
    ensures |PrintValue(values[fields[0]])| + |PrintFields(fields[1..], values, true)|
        == |PrintFields(fields, values, true)|
  {
    Associates(PrintValue(values[fields[0]]), PrintFields(fields[1..], values, true), rest);
  }

  lemma FirstFieldReads(fields: seq<Field>, b: Octets, base: Values, p: Parsed)
    requires fields != [] && ReadValue(fields[0], b) == Some(p)
    ensures ReadFields(fields, b, base) == ReadFields(fields[1..], p.rest, base[fields[0] := p.value])
  { }

  /** A list that holds the signature never reads back when that was left out. */
  lemma {:induction false} UnsignedFieldsFail(fields: seq<Field>, values: Values, base: Values)
    requires Typed(values) && Signature in fields && |PrintFields(fields, values, false)| < U64
    ensures ReadFields(fields, PrintFields(fields, values, false), base) == None
  {
    var f, more := fields[0], PrintFields(fields[1..], values, false);
    if f == Signature {
      ObjectReadsBack(NullTag, [], more);
    } else {
      ValueReadsBack(f, values[f], more);
      UnsignedFieldsFail(fields[1..], values, base[f := values[f]]);
    }
  }

  lemma TlvLength(tag: byte, contents: Octets)
    ensures |Tlv(tag, contents)| > |contents| + 1
  { }

  lemma EnvelopeReadsBack(isKey: bool, version: nat, body: Octets, junk: Octets)
    requires |Wrapped(isKey, version, body)| < U64
    ensures ReadEnvelope(Wrapped(isKey, version, body) + junk) == Some(Envelope(isKey, version, body))
    ensures |body| < U64
  {
    var word, list := PrintValue(Word(version)), Tlv(SequenceTag, body);
    TlvLength(SequenceTag, body);
    TlvLength(OuterTag(isKey), word + list);
    ObjectReadsBack(OuterTag(isKey), word + list, junk);
    ValueReadsBack(Height, Word(version), list);
    ObjectReadsBack(SequenceTag, body, []);
    assert list + [] == list;
  }

  lemma PrintReadsBack(h: Header, withSignature: bool, junk: Octets)
    requires Typed(h.values) && Fits(h, withSignature)
    ensures ReadEnvelope(Print(h, withSignature) + junk) == Some(Envelope(h.isKey, h.version, Body(h, withSignature)))
    ensures |Body(h, withSignature)| < U64
  {
    EnvelopeReadsBack(h.isKey, h.version, Body(h, withSignature), junk);
  }

  /** The header a reader makes of a printed one: carried fields as printed, the others fresh. */
  ghost function Recovered(h: Header, empty: Octets): Header
    requires Typed(h.values)
  {
    Header(h.version, h.isKey, Carried(ReaderLayout(h.version, h.isKey), h.values, Defaults(empty)))
  }

  predicate Validates(h: Header, requireSignature: bool) {
    && (h.isKey ==>
          && |Octet(h.values, PublicKey)| == 32
          && (WordOf(h.values, Height) > 0 ==> |Octet(h.values, ParentKeyBlockID)| == 32))
    && (WordOf(h.values, Height) > 0 ==> |Octet(h.values, ParentBlockID)| == 32)
    && (requireSignature ==> Octet(h.values, Signature) != [])
  }

  lemma RecoveredHolds(h: Header, empty: Octets)
    requires Typed(h.values)
    ensures Typed(Recovered(h, empty).values)
    ensures forall f | f in ReaderLayout(h.version, h.isKey) :: Recovered(h, empty).values[f] == h.values[f]
    ensures forall f: Field | f !in ReaderLayout(h.version, h.isKey) ::
              Recovered(h, empty).values[f] == Defaults(empty)[f]
  {
    forall f: Field
      ensures f in Recovered(h, empty).values
      ensures Recovered(h, empty).values[f]
          == if f in ReaderLayout(h.version, h.isKey) then h.values[f] else Defaults(empty)[f]
    {
      CarriedHolds(ReaderLayout(h.version, h.isKey), h.values, Defaults(empty), f);
    }
    DefaultsTyped(empty);
  }

  lemma DefaultsTyped(empty: Octets)
    ensures Typed(Defaults(empty))
  {
    forall f: Field ensures HasKind(f, Defaults(empty)[f]) { assert Defaults(empty)[f] == Default(f, empty); }
  }

  /** The round trip, for every version from 1 to 4 and every header, valid or not: what was printed
      parses exactly when the checks after decoding hold of it. */
  lemma PrintedParses(h: Header, empty: Octets, junk: Octets)
    requires Typed(h.values) && 1 <= h.version <= 4 && Fits(h, true)
    ensures Parse(Print(h, true) + junk, empty) == if Accepted(h) then Some(Recovered(h, empty)) else None
  {
    PrintReadsBack(h, true, junk);
    LayoutsAgree(h.version, h.isKey);
    FieldsReadBack(ReaderLayout(h.version, h.isKey), h.values, Defaults(empty), []);
    assert Body(h, true) + [] == Body(h, true);
    RecoveredAccepted(h, empty);
  }

  /** The same for a header that validates: a printed header that validates parses
      exactly when it is a key header or its three roots have 32 bytes, and then every field
      its version carries comes back. Bytes after the header change nothing. */
  lemma RoundTrip(h: Header, empty: Octets, junk: Octets)
    requires Typed(h.values) && Validates(h, true) && 1 <= h.version <= 4 && Fits(h, true)
    ensures Parse(Print(h, true) + junk, empty) == if h.isKey || RootsOk(h) then Some(Recovered(h, empty)) else None
  {
    PrintedParses(h, empty, junk);
  }

  lemma RecoveredAccepted(h: Header, empty: Octets)
    requires Typed(h.values) && 1 <= h.version <= 4
    ensures Accepted(Recovered(h, empty)) <==> Accepted(h)
  {
    RecoveredHolds(h, empty);
    LayoutHas(h.version, h.isKey);
  }

  /** What a field that was not carried holds after parsing. */
  function NotCarried(f: Field, empty: Octets): Value {
    match f
    case CoreVersion | Nonce | Target | NrOfTransactions => Word(0)
    case PaidToLeader | ErgLimit | ErgUsed => Big(0)
    case TransactionsRootID => Bytes(empty)
    case _ => Bytes([])
  }

  /** The round trip, field by field: a header comes back, with every field its version carries,
      exactly when a key header above height 0 names its parent key block by 32 bytes, and a regular
      header its state, transactions and receipts. */
  lemma EveryFieldComesBack(h: Header, empty: Octets, junk: Octets, f: Field)
    requires Typed(h.values) && 1 <= h.version <= 4 && Fits(h, true)
    ensures var r := Parse(Print(h, true) + junk, empty); var v := h.values;
      && (r.Some? <==> if h.isKey then |v[ParentKeyBlockID].b| == 32 || v[Height].n == 0
                       else |v[FinalStateRootID].b| == |v[TransactionsRootID].b| == |v[ReceiptsRootID].b| == 32)
      && (r.Some? ==>
            && r.value.version == h.version && r.value.isKey == h.isKey && f in r.value.values
            && r.value.values[f] == if Carries(h.version, h.isKey, f) then v[f] else NotCarried(f, empty))
  {
    PrintedParses(h, empty, junk);
    assert HasKind(ParentKeyBlockID, h.values[ParentKeyBlockID]) && HasKind(Height, h.values[Height]);
    assert HasKind(FinalStateRootID, h.values[FinalStateRootID]) && HasKind(ReceiptsRootID, h.values[ReceiptsRootID]);
    assert HasKind(TransactionsRootID, h.values[TransactionsRootID]);
    FieldRecovered(h, empty, f);
  }

  lemma FieldRecovered(h: Header, empty: Octets, f: Field)
    requires Typed(h.values) && 1 <= h.version <= 4
    ensures var v := Recovered(h, empty).values;
      f in v && v[f] == if Carries(h.version, h.isKey, f) then h.values[f] else NotCarried(f, empty)
  {
    CarriedHolds(ReaderLayout(h.version, h.isKey), h.values, Defaults(empty), f);
    LayoutCarries(h.version, h.isKey, f);
    assert Defaults(empty)[f] == Default(f, empty);
  }

  /** A header printed without its signature never parses. */
  lemma UnsignedNeverParses(h: Header, empty: Octets)
    requires Typed(h.values) && 1 <= h.version <= 4 && Fits(h, false)
    ensures Parse(Print(h, false), empty) == None
  {
    PrintReadsBack(h, false, []);
    assert Print(h, false) + [] == Print(h, false);
    LayoutsAgree(h.version, h.isKey);
    LayoutHas(h.version, h.isKey);
    UnsignedFieldsFail(ReaderLayout(h.version, h.isKey), h.values, Defaults(empty));
  }

  lemma {:induction false} SamePrintedFields(fields: seq<Field>, one: Values, two: Values, withSignature: bool)
    requires forall f | f in fields :: f in one && f in two && one[f] == two[f]
    ensures PrintFields(fields, one, withSignature) == PrintFields(fields, two, withSignature)
  {
    if fields != [] { SamePrintedFields(fields[1..], one, two, withSignature); }
  }

  /** What was parsed back validates, and prints to the same bytes. */
  lemma PrintsAgain(h: Header, empty: Octets)
    requires Typed(h.values) && Validates(h, true) && 1 <= h.version <= 4
    ensures Typed(Recovered(h, empty).values) && Validates(Recovered(h, empty), true)
    ensures Print(Recovered(h, empty), true) == Print(h, true)
  {
    RecoveredHolds(h, empty);
    RecoveredValidates(h, empty);
    LayoutsAgree(h.version, h.isKey);
    SamePrintedFields(ReaderLayout(h.version, h.isKey), h.values, Recovered(h, empty).values, true);
  }

  lemma RecoveredValidates(h: Header, empty: Octets)
    requires Typed(h.values) && Validates(h, true) && 1 <= h.version <= 4
    ensures Validates(Recovered(h, empty), true)
  {
    RecoveredHolds(h, empty);
    LayoutHas(h.version, h.isKey);
  }

  /** The bytes commit to everything they carry: two headers that print alike have the same
      version and kind, and the same value in every field that version carries. */
  lemma PrintCommits(g: Header, h: Header)
    requires Typed(g.values) && Typed(h.values) && Fits(g, true) && Fits(h, true)
    requires Print(g, true) == Print(h, true)
    ensures g.version == h.version && g.isKey == h.isKey
    ensures 1 <= g.version <= 4 ==> forall f: Field | Carries(g.version, g.isKey, f) :: g.values[f] == h.values[f]
  {
    PrintReadsBack(g, true, []);
    PrintReadsBack(h, true, []);
    assert Print(g, true) + [] == Print(g, true);
    var fields := WriterLayout(g.version, g.isKey);
    FieldsReadBack(fields, g.values, map[], []);
    FieldsReadBack(fields, h.values, map[], []);
    if 1 <= g.version <= 4 {
      forall f: Field | Carries(g.version, g.isKey, f) ensures g.values[f] == h.values[f] {
        LayoutsAgree(g.version, g.isKey);
        LayoutCarries(g.version, g.isKey, f);
        CarriedHolds(fields, g.values, map[], f);
        CarriedHolds(fields, h.values, map[], f);
      }
    }
  }

  /** A version the reader does not know is accepted, whatever bytes follow it: the fields
      keep what a fresh header holds. */
  lemma UnknownVersionParses(isKey: bool, version: nat, body: Octets, empty: Octets)
    requires version < 1 || version > 4
    requires |Wrapped(isKey, version, body)| < U64
    ensures Parse(Wrapped(isKey, version, body), empty) == Some(Header(version, isKey, Defaults(empty)))
  {
    EnvelopeReadsBack(isKey, version, body, []);
    assert Wrapped(isKey, version, body) + [] == Wrapped(isKey, version, body);
    DefaultsTyped(empty);
    FreshIsAccepted(Header(version, isKey, Defaults(empty)), empty);
  }

  /** A fresh header: zeros, empty byte vectors, and the root of an empty trie. */
  lemma FreshFields(empty: Octets, f: Field)
    ensures f in Defaults(empty)
    ensures Defaults(empty)[f] ==
      if f == TransactionsRootID || f == ReceiptsRootID || f == VerifiablesRootID then Bytes(empty)
      else if HasKind(f, Word(0)) then Word(0) else if HasKind(f, Big(0)) then Big(0) else Bytes([])
  {
    assert Defaults(empty)[f] == Default(f, empty);
  }

  lemma FreshIsAccepted(h: Header, empty: Octets)
    requires h.values == Defaults(empty) && (h.version < 1 || h.version > 4)
    ensures Typed(h.values) && Accepted(h)
  {
    DefaultsTyped(empty);
  }

  /** Whatever parses still parses, to the same header, with anything appended. */
  lemma ParseIgnoresWhatFollows(b: Octets, junk: Octets, empty: Octets)
    requires Parse(b, empty).Some?
    ensures Parse(b + junk, empty) == Parse(b, empty)
  {
    ReadIgnoresWhatFollows(b, junk);
  }

  // ---------------------------------------------------------------- the header object

  /** Hashes of what the three tries hold, 32 bytes each. */
  datatype Perspectives = Perspectives(transactions: Octets, receipts: Octets, verifiables: Octets)

  ghost predicate Hashed(p: Perspectives) {
    |p.transactions| == 32 && |p.receipts| == 32 && |p.verifiables| == 32
  }

  /** Missing roots are filled in; a key header has no transactions. */
  function Filled(h: Header, p: Perspectives): Header {
    var v := h.values;
    var v := if !h.isKey && Octet(h.values, TransactionsRootID) == []
      then v[TransactionsRootID := Bytes(p.transactions)] else v;
    var v := if Octet(h.values, ReceiptsRootID) == [] then v[ReceiptsRootID := Bytes(p.receipts)] else v;
    var v := if Octet(h.values, VerifiablesRootID) == [] then v[VerifiablesRootID := Bytes(p.verifiables)] else v;
    h.(values := v)
  }

  lemma FilledTyped(h: Header, p: Perspectives)
    requires Typed(h.values)
    ensures Typed(Filled(h, p).values)
  {
    var filled := Filled(h, p).values;
    forall f: Field ensures f in filled && HasKind(f, filled[f]) {
      assert HasKind(f, h.values[f]);
    }
  }

  /** Every field the filling does not own keeps its value. */
  lemma FilledElsewhere(h: Header, p: Perspectives, f: Field)
    requires !(f in {TransactionsRootID, ReceiptsRootID, VerifiablesRootID})
    ensures Octet(Filled(h, p).values, f) == Octet(h.values, f) && WordOf(Filled(h, p).values, f) == WordOf(h.values, f)
  { }

  /** Each missing root is filled from its own trie, and a root that is there stays. */
  lemma FilledExactly(h: Header, p: Perspectives)
    requires Typed(h.values)
    ensures var v := Filled(h, p).values; var was := h.values;
      && v[ReceiptsRootID] == (if was[ReceiptsRootID] == Bytes([]) then Bytes(p.receipts) else was[ReceiptsRootID])
      && v[VerifiablesRootID]
         == (if was[VerifiablesRootID] == Bytes([]) then Bytes(p.verifiables) else was[VerifiablesRootID])
      && v[TransactionsRootID]
         == (if !h.isKey && was[TransactionsRootID] == Bytes([]) then Bytes(p.transactions)
             else was[TransactionsRootID])
      && (forall f: Field | f !in {TransactionsRootID, ReceiptsRootID, VerifiablesRootID} :: v[f] == was[f])
      && Filled(h, p).version == h.version && Filled(h, p).isKey == h.isKey
  {
    assert HasKind(ReceiptsRootID, h.values[ReceiptsRootID]) && HasKind(VerifiablesRootID, h.values[VerifiablesRootID]);
    assert HasKind(TransactionsRootID, h.values[TransactionsRootID]);
  }

  /** What makes a header invalid: a key header without a 32-byte public key; above height 0, a
      parent that is not named by 32 bytes, or for a key header a parent key block; and no
      signature where one is asked for. */
  lemma InvalidExactly(h: Header, requireSignature: bool)
    requires Typed(h.values)
    ensures !Validates(h, requireSignature) <==>
              || (h.isKey && |h.values[PublicKey].b| != 32)
              || (h.isKey && h.values[Height].n > 0 && |h.values[ParentKeyBlockID].b| != 32)
              || (h.values[Height].n > 0 && |h.values[ParentBlockID].b| != 32)
              || (requireSignature && h.values[Signature].b == [])
  {
    assert HasKind(PublicKey, h.values[PublicKey]) && HasKind(ParentKeyBlockID, h.values[ParentKeyBlockID]);
    assert HasKind(ParentBlockID, h.values[ParentBlockID]) && HasKind(Signature, h.values[Signature]);
    assert HasKind(Height, h.values[Height]);
  }

  /** Words and big numbers as they stand on the wire: most significant byte first, and a word with
      a zero byte in front when its first bit is set. */
  lemma NumbersOnTheWire()
    ensures PrintValue(Word(0)) == [2, 1, 0] && PrintValue(Word(128)) == [2, 2, 0, 128]
    ensures PrintValue(Word(300)) == [2, 2, 1, 44] && PrintValue(Big(300)) == [4, 2, 1, 44]
  {
    BigEndian128And300();
  }

  lemma BigEndian128And300()
    ensures BigEndian(128) == [128] && BigEndian(300) == [1, 44]
  {
    assert BigEndian(0) == [] && BigEndian(1) == [1];
    assert 300 / 256 == 1 && 300 % 256 == 44;
  }

  /** Byte vectors: one length byte below 128, and else the number of length bytes first. */
  lemma BytesOnTheWire(b: Octets)
    ensures |b| < 128 ==> PrintValue(Bytes(b)) == [4, |b| as byte] + b
    ensures |b| == 300 ==> PrintValue(Bytes(b)) == [4, 130, 1, 44] + b
  {
    if |b| == 300 {
      BigEndian128And300();
      assert LengthOctets(300) == [130, 1, 44];
    }
  }

  /** A missing signature is a NULL, and the first byte tells the two kinds of header apart. */
  lemma MarksOnTheWire(h: Header, withSignature: bool)
    requires Typed(h.values)
    ensures PrintField(Signature, h.values, false) == [5, 0]
    ensures Print(h, withSignature)[0] == if h.isKey then 0xE1 else 0xE3
  { }

  /** The body of a header: the fields its version carries, in that order, each printed once. */
  lemma BodyInOrder(h: Header, withSignature: bool)
    requires Typed(h.values) && 1 <= h.version <= 4
    ensures Body(h, withSignature)
         == PrintFields(Selected(FieldOrder, h.version, h.isKey), h.values, withSignature)
  {
    LayoutsAgree(h.version, h.isKey);
    LayoutInOrder(h.version, h.isKey);
  }

  /** No root a header of its kind prints is missing after filling. */
  lemma FilledRoots(h: Header, p: Perspectives)
    requires Hashed(p)
    ensures var v := Filled(h, p).values;
      && (!h.isKey ==> Octet(v, TransactionsRootID) != [])
      && Octet(v, ReceiptsRootID) != [] && Octet(v, VerifiablesRootID) != []
  { }

  /** Filling twice fills once, and filling never changes whether a header validates. */
  lemma FilledOnce(h: Header, p: Perspectives, q: Perspectives, requireSignature: bool)
    requires Hashed(p)
    ensures Filled(Filled(h, p), q) == Filled(h, p)
    ensures Validates(Filled(h, p), requireSignature) == Validates(h, requireSignature)
  {
    FilledRoots(h, p);
    FilledElsewhere(h, p, PublicKey);
    FilledElsewhere(h, p, ParentKeyBlockID);
    FilledElsewhere(h, p, ParentBlockID);
    FilledElsewhere(h, p, Signature);
    FilledElsewhere(h, p, Height);
  }

  /** A header that was filled, printed and parsed back has no root left to fill. */
  lemma ParsedNeedsNoFilling(h: Header, p: Perspectives, empty: Octets, q: Perspectives)
    requires Typed(h.values) && Hashed(p) && 1 <= h.version <= 4
    ensures Typed(Filled(h, p).values)
    ensures Filled(Recovered(Filled(h, p), empty), q) == Recovered(Filled(h, p), empty)
  {
    FilledTyped(h, p);
    FilledRoots(h, p);
    RecoveredHolds(Filled(h, p), empty);
    LayoutHas(h.version, h.isKey);
  }

  /** Packing, parsing and packing again gives the same bytes, and so the same hash, whatever
      the new object's tries hold. */
  lemma PacksTheSame(h: Header, p: Perspectives, empty: Octets, q: Perspectives)
    requires Typed(h.values) && Hashed(p) && Validates(h, true) && 1 <= h.version <= 4
    requires Typed(Filled(h, p).values) && Fits(Filled(h, p), true)
    ensures Parse(Print(Filled(h, p), true), empty).Some? <==> h.isKey || RootsOk(Filled(h, p))
    ensures Parse(Print(Filled(h, p), true), empty).Some? ==>
      var g := Parse(Print(Filled(h, p), true), empty).value;
      && Typed(g.values) && Validates(g, true) && g.version == h.version
      && Filled(g, q) == g && Print(g, true) == Print(Filled(h, p), true)
  {
    var f := Filled(h, p);
    FilledOnce(h, p, q, true);
    RoundTrip(f, empty, []);
    assert Print(f, true) + [] == Print(f, true);
    PrintsAgain(f, empty);
    ParsedNeedsNoFilling(h, p, empty, q);
  }

  class BlockHeader {
    var version: nat
    var isKey: bool
    var values: Values

    constructor (h: Header)
      requires Typed(h.values)
      ensures Valid() && Contents() == h
    {
      version, isKey, values := h.version, h.isKey, h.values;
    }

    ghost predicate Valid()
      reads this
    {
      Typed(values)
    }

    ghost function Contents(): Header
      reads this
    {
      Header(version, isKey, values)
    }

    method Validate(requireSignature: bool) returns (ok: bool)
      requires Valid()
      ensures ok <==> Validates(Contents(), requireSignature)
    {
      if isKey {
        if |Octet(values, PublicKey)| != 32 { return false; }
        if WordOf(values, Height) > 0 && |Octet(values, ParentKeyBlockID)| != 32 { return false; }
      }
      if WordOf(values, Height) > 0 && |Octet(values, ParentBlockID)| != 32 { return false; }
      if requireSignature && |Octet(values, Signature)| == 0 { return false; }
      return true;
    }

    method FillRoots(p: Perspectives)
      requires Valid()
      modifies this`values
      ensures Valid() && Contents() == Filled(old(Contents()), p)
    {
      FilledTyped(Contents(), p);
      if !isKey && |Octet(values, TransactionsRootID)| == 0 {
        values := values[TransactionsRootID := Bytes(p.transactions)];
      }
      if |Octet(values, ReceiptsRootID)| == 0 {
        values := values[ReceiptsRootID := Bytes(p.receipts)];
      }
      if |Octet(values, VerifiablesRootID)| == 0 {
        values := values[VerifiablesRootID := Bytes(p.verifiables)];
      }
    }

    /** Prints into `data`, filling missing roots on the way. A header that does not validate
        empties the buffer; a version without a layout leaves it as it was. */
    method GetPackedData(buffer: Octets, withSignature: bool, p: Perspectives) returns (ok: bool, data: Octets)
      requires Valid() && Hashed(p)
      modifies this`values
      ensures Valid()
      ensures ok <==> Validates(old(Contents()), withSignature) && 1 <= version <= 4
      ensures Contents() == if ok then Filled(old(Contents()), p) else old(Contents())
      ensures data == if ok then Print(Contents(), withSignature)
                      else if Validates(old(Contents()), withSignature) then buffer else []
    {
      var valid := Validate(withSignature);
      if !valid { return false, []; }
      if version < 1 || version > 4 { return false, buffer; }
      FillRoots(p);
      var body := PrintBody(WriterLayout(version, isKey), values, withSignature);
      return true, Wrapped(isKey, version, body);
    }
  }

  /** The three calls: pack a header, parse it, and pack the new object with other tries. */
  method PackParsePack(header: BlockHeader, p: Perspectives, empty: Octets, q: Perspectives)
    returns (first: Octets, second: Octets, parsed: bool)
    requires header.Valid() && Hashed(p) && Hashed(q) && Validates(header.Contents(), true)
    requires 1 <= header.version <= 4
    requires Typed(Filled(header.Contents(), p).values) && Fits(Filled(header.Contents(), p), true)
    modifies header`values
    ensures parsed <==> header.isKey || RootsOk(Filled(old(header.Contents()), p))
    ensures parsed ==> second == first == Print(Filled(old(header.Contents()), p), true)
  {
    PacksTheSame(header.Contents(), p, empty, q);
    var ok, again;
    ok, first := header.GetPackedData([], true, p);
    var copy := Instantiate(first, empty);
    parsed, second := copy != null, first;
    if copy != null { again, second := copy.GetPackedData([], true, q); }
  }

  /** Encodes field after field. */
  method PrintBody(layout: seq<Field>, values: Values, withSignature: bool) returns (body: Octets)
    requires forall f | f in layout :: f in values
    ensures body == PrintFields(layout, values, withSignature)
  {
    body := [];
    for i := 0 to |layout|
      invariant body + PrintFields(layout[i..], values, withSignature) == PrintFields(layout, values, withSignature)
    {
      assert layout[i..][1..] == layout[i + 1..];
      body := body + PrintField(layout[i], values, withSignature);
    }
  }

  /** Decodes field after field into `values`. */
  method ReadBody(layout: seq<Field>, body: Octets, values: Values) returns (r: Option<Values>)
    ensures r == ReadFields(layout, body, values)
  {
    var rest, decoded := body, values;
    for i := 0 to |layout|
      invariant ReadFields(layout, body, values) == ReadFields(layout[i..], rest, decoded)
    {
      assert layout[i..][1..] == layout[i + 1..];
      var p := ReadValue(layout[i], rest);
      if p == None { return None; }
      rest, decoded := p.value.rest, decoded[layout[i] := p.value.value];
    }
    return Some(decoded);
  }

  /** Decodes a header object, or refuses. */
  method Instantiate(b: Octets, empty: Octets) returns (header: BlockHeader?)
    ensures header == null <==> Parse(b, empty) == None
    ensures header != null ==> fresh(header) && header.Valid() && Parse(b, empty) == Some(header.Contents())
  {
    var e := ReadEnvelope(b);
    if e == None { return null; }
    var version, isKey := e.value.version, e.value.isKey;
    var values := ReadBody(ReaderLayout(version, isKey), e.value.body, Defaults(empty));
    if values == None { return null; }
    var h := Header(version, isKey, values.value);
    DefaultsTyped(empty);
    ReadFieldsTyped(ReaderLayout(version, isKey), e.value.body, Defaults(empty));
    if 1 <= version <= 4 && !isKey && !RootsOk(h) { return null; }
    if isKey && |Octet(h.values, ParentKeyBlockID)| != 32 && WordOf(h.values, Height) != 0 { return null; }
    header := new BlockHeader(h);
  }
}
