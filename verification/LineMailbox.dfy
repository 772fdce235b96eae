/** Lines typed at the console, handed from a reader thread to one caller through a slot that
    holds a single line (AsyncGetline). Each step reads or writes one shared variable. */
module LineMailbox {

  /** Where the reader thread stands. */
  datatype Reader =
    | AtHead(partial: string)     // about to check that it should go on
    | Peeking(partial: string)    // waiting for a character
    | GotLine(line: string)       // a whole line was read
    | Waiting(line: string)       // the wait loop, first operand
    | WaitingSlot(line: string)   // the wait loop, second operand
    | Passed(line: string)        // left the wait loop
    | Storing(line: string)       // about to write the slot
    | Signalling                  // wrote the slot, has not said so
    | AtEnd                       // about to check whether to start over
    | Done

  /** Where the caller stands. */
  datatype Caller = Idle | Fetching | Fetched(line: string) | Gone

  /** The shared variables, both threads, and what happened so far: the characters read, the
      lines handed out, and every answer GetLine gave. */
  datatype State = State(
    go: bool, free: bool, slot: string,
    reader: Reader, caller: Caller,
    typed: string, handed: seq<string>, answers: seq<string>)

  const Exit := "exit"

  const Initial := State(true, true, "", AtHead(""), Idle, "", [], [])

  datatype Step = Read(c: char) | Call | Destroy

  function ReaderStep(s: State, c: char): State {
    match s.reader
    case AtHead(p) => s.(reader := if s.go then Peeking(p) else Done)
    case Peeking(p) => s.(reader := if c == '\n' then GotLine(p) else AtHead(p + [c]), typed := s.typed + [c])
    case GotLine(l) => s.(reader := if s.go then Waiting(l) else Done)
    case Waiting(l) => s.(reader := if s.go then WaitingSlot(l) else Passed(l))
    case WaitingSlot(l) => s.(reader := if s.free then Passed(l) else Waiting(l))
    case Passed(l) => s.(reader := if s.go then Storing(l) else Done)
    case Storing(l) => s.(reader := Signalling, slot := l)
    case Signalling => s.(reader := AtEnd, free := false)
    case AtEnd => s.(reader := if s.go && s.slot != Exit then AtHead("") else Done)
    case Done => s
  }

  function CallerStep(s: State): State {
    match s.caller
    case Idle => if s.free then s.(answers := s.answers + [""]) else s.(caller := Fetching)
    case Fetching => s.(caller := Fetched(s.slot))
    case Fetched(l) => s.(caller := Idle, free := true, handed := s.handed + [l], answers := s.answers + [l])
    case Gone => s
  }

  /** One step of either thread; the object is destroyed between calls. */
  function Next(s: State, step: Step): State {
    match step
    case Read(c) => ReaderStep(s, c)
    case Call => CallerStep(s)
    case Destroy => if s.caller == Idle then s.(go := false, caller := Gone) else s
  }

  function Run(steps: seq<Step>): State {
    if steps == [] then Initial else Next(Run(steps[..|steps| - 1]), steps[|steps| - 1])
  }

  // ---------------------------------------------------------------- what was typed

  datatype Text = Text(lines: seq<string>, partial: string)

  /** The whole lines of a text, and what follows the last newline. */
  function Split(text: string): Text {
    if text == "" then Text([], "") else
      Extended(Split(text[..|text| - 1]), text[|text| - 1])
  }

  function Extended(t: Text, c: char): Text {
    if c == '\n' then Text(t.lines + [t.partial], "") else Text(t.lines, t.partial + [c])
  }

  function Joined(lines: seq<string>): string {
    if lines == [] then "" else Joined(lines[..|lines| - 1]) + lines[|lines| - 1] + "\n"
  }

  lemma JoinedSnoc(lines: seq<string>, l: string)
    ensures Joined(lines + [l]) == Joined(lines) + l + "\n"
  {
    assert (lines + [l])[..|lines|] == lines;
  }

  function Unsplit(t: Text): string {
    Joined(t.lines) + t.partial
  }

  lemma UnsplitExtended(t: Text, c: char)
    ensures Unsplit(Extended(t, c)) == Unsplit(t) + [c]
  {
    if c == '\n' { JoinedSnoc(t.lines, t.partial); }
  }

  /** Splitting loses nothing, and no line holds a newline. */
  lemma {:induction false} SplitJoins(text: string)
    ensures Unsplit(Split(text)) == text
    ensures '\n' !in Split(text).partial && forall l | l in Split(text).lines :: '\n' !in l
  {
    if text != "" {
      var init, c := text[..|text| - 1], text[|text| - 1];
      SplitJoins(init);
      UnsplitExtended(Split(init), c);
      LastSplitOff(text);
      assert Split(text) == Extended(Split(init), c);
    }
  }

  lemma LastSplitOff(text: string)
    requires text != ""
    ensures text[..|text| - 1] + [text[|text| - 1]] == text
  { }

  lemma SplitSnoc(text: string, c: char)
    ensures Split(text + [c]) == Extended(Split(text), c)
  {
    assert (text + [c])[..|text|] == text;
  }

  // ---------------------------------------------------------------- the invariant

  /** The line the reader has read and not yet handed over. */
  function Held(s: State): seq<string> {
    match s.reader
    case GotLine(l) => [l]
    case Waiting(l) => [l]
    case WaitingSlot(l) => [l]
    case Passed(l) => [l]
    case Storing(l) => [l]
    case Signalling => [s.slot]
    case _ => []
  }

  /** The line waiting in the slot. */
  function InSlot(s: State): seq<string> {
    if s.free then [] else [s.slot]
  }

  /** The reader only writes a free slot, and the caller only reads a full one. */
  ghost predicate SlotOwned(s: State) {
    && (s.reader.Storing? || s.reader.Signalling? ==> s.free)
    && (s.reader.Passed? && s.go ==> s.free)
    && (s.caller.Fetching? || s.caller.Fetched? ==> !s.free)
    && (s.caller.Fetched? ==> s.caller.line == s.slot)
    && (s.go <==> !s.caller.Gone?)
  }

  /** The lines typed are those handed out, then the one in the slot, then the one held; a
      reader that was stopped may have dropped the last. */
  ghost predicate LinesKept(s: State, lines: seq<string>) {
    var known := s.handed + InSlot(s) + Held(s);
    lines == known || (s.reader == Done && !s.go && lines != [] && lines[..|lines| - 1] == known)
  }

  ghost predicate PartialKept(s: State, partial: string) {
    match s.reader
    case AtHead(p) => partial == p
    case Peeking(p) => partial == p
    case Done => true
    case _ => partial == ""
  }

  /** "exit" ends the reading: it can only be the last line, and a reader that is still
      reading has not seen it. */
  ghost predicate ExitIsLast(s: State, lines: seq<string>) {
    && (forall i | 0 <= i < |lines| - 1 :: lines[i] != Exit)
    && (s.reader.AtHead? || s.reader.Peeking? ==> lines == [] || lines[|lines| - 1] != Exit)
    && (s.reader.AtEnd? ==> lines != [] && lines[|lines| - 1] == s.slot)
    && (s.reader.Done? && s.go ==> lines != [] && lines[|lines| - 1] == Exit)
  }

  function NonEmpty(lines: seq<string>): seq<string> {
    if lines == [] then [] else
      NonEmpty(lines[..|lines| - 1]) + Shown(lines[|lines| - 1])
  }

  function Shown(l: string): seq<string> {
    if l == "" then [] else [l]
  }

  ghost predicate AnswersKept(answers: seq<string>, handed: seq<string>) {
    NonEmpty(answers) == NonEmpty(handed)
  }

  ghost predicate InvFor(s: State, t: Text) {
    SlotOwned(s) && LinesKept(s, t.lines) && PartialKept(s, t.partial) && ExitIsLast(s, t.lines) &&
      AnswersKept(s.answers, s.handed)
  }

  /** The invariant, over the text typed so far. */
  ghost predicate Inv(s: State) {
    InvFor(s, Split(s.typed))
  }

  function TextAfter(s: State, t: Text, c: char): Text {
    if s.reader.Peeking? then Extended(t, c) else t
  }

  lemma ReaderKeeps(s: State, t: Text, c: char)
    requires InvFor(s, t)
    ensures InvFor(ReaderStep(s, c), TextAfter(s, t, c))
  {
    ReaderKeepsSlot(s, c);
    ReaderHandsNothing(s, c);
    if s.reader.Peeking? {
      ReadingKeepsLines(s, t, c);
      ReadingKeepsText(s, t, c);
    } else {
      OtherStepsKeepLines(s, t.lines, c);
      OtherStepsKeepText(s, t, c);
    }
  }

  lemma ReaderHandsNothing(s: State, c: char)
    ensures ReaderStep(s, c).answers == s.answers && ReaderStep(s, c).handed == s.handed
  { }

  lemma OtherStepsKeepText(s: State, t: Text, c: char)
    requires LinesKept(s, t.lines) && PartialKept(s, t.partial) && ExitIsLast(s, t.lines) && !s.reader.Peeking?
    ensures PartialKept(ReaderStep(s, c), t.partial) && ExitIsLast(ReaderStep(s, c), t.lines)
  { }

  lemma ReaderKeepsSlot(s: State, c: char)
    requires SlotOwned(s)
    ensures SlotOwned(ReaderStep(s, c))
  { }

  lemma OtherStepsKeepLines(s: State, lines: seq<string>, c: char)
    requires LinesKept(s, lines) && SlotOwned(s) && !s.reader.Peeking?
    ensures LinesKept(ReaderStep(s, c), lines)
  {
    if s.reader.Signalling? {
      assert s.handed + [] + [s.slot] == s.handed + [s.slot] + [];
    } else if s.reader.GotLine? || s.reader.Passed? {
      DroppingOne(s.handed + InSlot(s), Held(s));
    }
  }

  lemma ReadingKeepsLines(s: State, t: Text, c: char)
    requires LinesKept(s, t.lines) && s.reader.Peeking? && t.partial == s.reader.partial
    ensures LinesKept(ReaderStep(s, c), Extended(t, c).lines)
  {
    assert s.handed + InSlot(s) + [] == s.handed + InSlot(s);
  }

  lemma ReadingKeepsText(s: State, t: Text, c: char)
    requires PartialKept(s, t.partial) && ExitIsLast(s, t.lines) && s.reader.Peeking?
    ensures PartialKept(ReaderStep(s, c), Extended(t, c).partial) && ExitIsLast(ReaderStep(s, c), Extended(t, c).lines)
  { }

  lemma DroppingOne(known: seq<string>, held: seq<string>)
    ensures known + [] == known
    ensures |held| == 1 ==> (known + held)[..|known + held| - 1] == known
  { }

  lemma NonEmptySnoc(lines: seq<string>, l: string)
    ensures NonEmpty(lines + [l]) == NonEmpty(lines) + Shown(l)
  {
    assert (lines + [l])[..|lines|] == lines;
  }

  lemma CallerKeeps(s: State, t: Text)
    requires InvFor(s, t)
    ensures InvFor(CallerStep(s), t)
  {
    CallerKeepsAnswers(s);
    CallerKeepsSlot(s);
    if s.caller.Fetched? { HandingOverKeepsLines(s, t.lines); }
  }

  lemma CallerKeepsAnswers(s: State)
    requires AnswersKept(s.answers, s.handed)
    ensures AnswersKept(CallerStep(s).answers, CallerStep(s).handed)
  {
    if s.caller.Idle? {
      NonEmptySnoc(s.answers, "");
    } else if s.caller.Fetched? {
      NonEmptySnoc(s.answers, s.caller.line);
      NonEmptySnoc(s.handed, s.caller.line);
    }
  }

  lemma CallerKeepsSlot(s: State)
    requires SlotOwned(s)
    ensures SlotOwned(CallerStep(s))
  { }

  lemma HandingOverKeepsLines(s: State, lines: seq<string>)
    requires LinesKept(s, lines) && SlotOwned(s) && s.caller.Fetched?
    ensures LinesKept(CallerStep(s), lines)
  {
    assert s.handed + [s.slot] + Held(s) == (s.handed + [s.slot]) + [] + Held(s);
  }

  /** Every interleaving keeps the invariant. */
  lemma {:induction false} RunInv(steps: seq<Step>)
    ensures Inv(Run(steps))
  {
    if steps != [] {
      var s, step := Run(steps[..|steps| - 1]), steps[|steps| - 1];
      RunInv(steps[..|steps| - 1]);
      match step
      case Read(c) =>
        ReaderKeeps(s, Split(s.typed), c);
        SplitSnoc(s.typed, c);
      case Call =>
        CallerKeeps(s, Split(s.typed));
      case Destroy =>
    }
  }

  // ---------------------------------------------------------------- what follows

  /** In every interleaving the lines handed out are the first lines typed, in order, each
      once, and at most two more have been typed. */
  lemma HandedIsPrefix(steps: seq<Step>)
    ensures var s := Run(steps); var lines := Split(s.typed).lines;
      s.handed <= lines && |lines| <= |s.handed| + 2
  {
    RunInv(steps);
    KnownIsPrefix(Run(steps), Split(Run(steps).typed).lines);
  }

  lemma KnownIsPrefix(s: State, lines: seq<string>)
    requires LinesKept(s, lines)
    ensures s.handed <= lines && |lines| <= |s.handed| + 2
  {
    if lines != s.handed + InSlot(s) + Held(s) {
      assert lines == lines[..|lines| - 1] + [lines[|lines| - 1]];
    }
  }

  /** Until the object is destroyed no line is lost, and once "exit" was typed the reader stops
      having handed over every line. */
  lemma NothingLost(steps: seq<Step>)
    requires Run(steps).go
    ensures var s := Run(steps); Split(s.typed).lines == s.handed + InSlot(s) + Held(s)
    ensures var s := Run(steps); s.reader == Done ==>
      var lines := Split(s.typed).lines; lines == s.handed + InSlot(s) && lines != [] && lines[|lines| - 1] == Exit
  {
    RunInv(steps);
  }

  /** A call that finds the slot full returns the next line not yet handed out. */
  lemma FullSlotHandsOutNext(steps: seq<Step>)
    requires Run(steps).caller == Idle && !Run(steps).free
    ensures var s, after := Run(steps), CallerStep(CallerStep(CallerStep(Run(steps))));
      && |s.handed| < |Split(s.typed).lines|
      && after.handed == s.handed + [Split(s.typed).lines[|s.handed|]]
      && after.free && after.caller == Idle
  {
    RunInv(steps);
    var s := Run(steps);
    var lines := Split(s.typed).lines;
    var known := s.handed + InSlot(s) + Held(s);
    assert known[|s.handed|] == s.slot;
  }

  /** The threads never meet at the slot, whatever the lock does. */
  lemma SlotIsNeverShared(steps: seq<Step>)
    ensures var s := Run(steps);
      !((s.reader.Storing? || s.reader.Signalling?) && (s.caller.Fetching? || s.caller.Fetched?))
  {
    RunInv(steps);
  }

  /** What the caller can tell: an empty line looks like no line, and the other answers are the
      non-empty lines typed, a prefix of them in order. */
  lemma AnswersArePrefix(steps: seq<Step>)
    ensures NonEmpty(Run(steps).answers) <= NonEmpty(Split(Run(steps).typed).lines)
  {
    AnswersAreHanded(steps);
    HandedIsPrefix(steps);
    NonEmptyOfPrefix(Run(steps).handed, Split(Run(steps).typed).lines);
  }

  lemma AnswersAreHanded(steps: seq<Step>)
    ensures NonEmpty(Run(steps).answers) == NonEmpty(Run(steps).handed)
  {
    RunInv(steps);
  }

  lemma {:induction false} NonEmptyOfPrefix(first: seq<string>, lines: seq<string>)
    requires first <= lines
    ensures NonEmpty(first) <= NonEmpty(lines)
  {
    if first != lines { NonEmptyOfPrefix(first, lines[..|lines| - 1]); }
  }

  /** Unless it waits for a character or has ended, the reader never blocks for good: one that
      holds a line while the slot is full goes on after one call of GetLine. */
  lemma HolderIsFreed(steps: seq<Step>)
    requires Run(steps).reader.WaitingSlot? && Run(steps).go && Run(steps).caller == Idle && !Run(steps).free
    ensures var s := Run(steps); var called := CallerStep(CallerStep(CallerStep(s)));
      ReaderStep(called, ' ').reader == Passed(s.reader.line)
  {
    RunInv(steps);
  }
}
