// Audit logs: numbering a record and writing it are separate steps, several recorders interleave them,
// writes may be torn, and a reopened file continues from whatever can still be read.
module Audit {
  import opened Digraph
  import opened Words
  import opened Workflow

  /** A line of the file as reading it back sees it: a record with its number, or anything else. */
  datatype Line = Record(number: nat) | Junk

  /** Whole lines, then possibly one without its line break, left by a torn write. */
  datatype File = File(lines: seq<Line>, tail: Option<Line>)

  /** How the write of one record ends; a torn write leaves all of the record or only part of it. */
  datatype Write = Whole | Torn(complete: bool) | Lost

  function Numbers(lines: seq<Line>): seq<nat> {
    if lines == [] then []
    else Numbers(lines[..|lines| - 1]) +
         (if lines[|lines| - 1].Record? then [lines[|lines| - 1].number] else [])
  }

  /** The lines a reader splits the content into: an unfinished last line is one of them. */
  function Lines(file: File): seq<Line> {
    file.lines + (if file.tail.Some? then [file.tail.value] else [])
  }

  function Readable(file: File): seq<nat> {
    Numbers(Lines(file))
  }

  /** Bytes that follow an unfinished line become part of it, and the result is no record. */
  function Written(file: File, number: nat, how: Write): File {
    match how
    case Lost => file
    case Whole => File(file.lines + [if file.tail.None? then Record(number) else Junk], None)
    case Torn(complete) => file.(tail := Some(if file.tail.None? && complete then Record(number) else Junk))
  }

  /** One more than the largest number that can be read; zero when there is none. */
  function NextNumber(lines: seq<Line>): nat {
    if lines == [] then 0
    else
      var before := NextNumber(lines[..|lines| - 1]);
      match lines[|lines| - 1]
      case Record(n) => if n + 1 > before then n + 1 else before
      case Junk => before
  }

  lemma {:induction false} NextIsAboveAll(lines: seq<Line>, n: nat)
    ensures n in Numbers(lines) ==> n < NextNumber(lines)
    ensures NextNumber(lines) > 0 ==> NextNumber(lines) - 1 in Numbers(lines)
  {
    if lines != [] {
      NextIsAboveAll(lines[..|lines| - 1], n);
    }
  }

  lemma NumbersSnoc(lines: seq<Line>, line: Line)
    ensures Numbers(lines + [line]) == Numbers(lines) + (if line.Record? then [line.number] else [])
  {
    assert (lines + [line])[..|lines|] == lines;
  }

  // ---------------------------------------------------- the logs themselves

  class LogFile {
    var content: File

    constructor (content: File)
      ensures this.content == content
    {
      this.content := content;
    }
  }

  class JsonlAuditLog {
    const file: LogFile
    var counter: nat
    ghost var inFlight: map<Recorder, nat>

    /** The log as the interleaving theorems below see it. */
    ghost function Now(): State
      reads this, file
    {
      State(file.content, counter, inFlight)
    }

    /** Opening continues after the largest readable number, or at zero if the file cannot be read. */
    constructor Open(file: LogFile, readable: bool)
      ensures this.file == file && file.content == old(file.content)
      ensures Now() == Next(State(file.content, 0, map[]), Action.Reopen(readable))
    {
      this.file := file;
      counter, inFlight := 0, map[];
      new;
      if readable {
        var lines, last := Lines(file.content), 0;
        for i := 0 to |lines|
          invariant last == NextNumber(lines[..i])
          invariant file.content == old(file.content) && inFlight == map[]
        {
          assert lines[..i + 1][..i] == lines[..i];
          if lines[i].Record? && lines[i].number + 1 > last {
            last := lines[i].number + 1;
          }
        }
        assert lines[..|lines|] == lines;
        counter := last % U64;
      }
    }

    /** One step of a recorder: it takes the next number. */
    method Reserve(ghost who: Recorder) returns (number: nat)
      requires who !in inFlight
      modifies this
      ensures Now() == Next(old(Now()), Action.Reserve(who))
      ensures who in inFlight && inFlight[who] == number
    {
      number := counter;
      counter := (counter + 1) % U64;
      inFlight := inFlight[who := number];
    }

    /** The other step: it writes the number it took. */
    method Append(ghost who: Recorder, number: nat, how: Write)
      requires who in inFlight && inFlight[who] == number
      modifies file, this`inFlight
      ensures Now() == Next(old(Now()), Action.Append(who, how))
    {
      var tail := file.content.tail;
      match how {
        case Lost =>
        case Whole =>
          var line := if tail.None? then Record(number) else Junk;
          file.content := File(file.content.lines + [line], None);
        case Torn(complete) =>
          file.content := File(file.content.lines, Some(if tail.None? && complete then Record(number) else Junk));
      }
      inFlight := inFlight - {who};
    }

    method Records() returns (numbers: seq<nat>)
      ensures numbers == Readable(file.content)
    {
      var lines := Lines(file.content);
      numbers := [];
      for i := 0 to |lines|
        invariant numbers == Numbers(lines[..i])
      {
        assert lines[..i + 1][..i] == lines[..i];
        if lines[i].Record? {
          numbers := numbers + [lines[i].number];
        }
      }
      assert lines[..|lines|] == lines;
    }
  }

  /** The in-memory log is one whose writes never fail. */
  class InMemoryAuditLog {
    var records: seq<nat>
    var counter: nat
    ghost var inFlight: map<Recorder, nat>

    ghost function Now(): State
      reads this
    {
      State(File(seq(|records|, i requires 0 <= i < |records| reads this => Record(records[i])), None), counter, inFlight)
    }

    constructor ()
      ensures Now() == Opened(File([], None))
    {
      records, counter, inFlight := [], 0, map[];
    }

    method Reserve(ghost who: Recorder) returns (number: nat)
      requires who !in inFlight
      modifies this`counter, this`inFlight
      ensures Now() == Next(old(Now()), Action.Reserve(who))
      ensures who in inFlight && inFlight[who] == number
    {
      number := counter;
      counter := (counter + 1) % U64;
      inFlight := inFlight[who := number];
    }

    method Push(ghost who: Recorder, number: nat)
      requires who in inFlight && inFlight[who] == number
      modifies this`records, this`inFlight
      ensures Now() == Next(old(Now()), Action.Append(who, Whole))
    {
      records := records + [number];
      inFlight := inFlight - {who};
    }
  }

  // -------------------------------------- recorders, crashes and reopenings

  type Recorder = nat

  datatype Action =
    | Reserve(who: Recorder)
    | Append(who: Recorder, how: Write)
    | Reopen(readable: bool)

  /** One open log: its file, its counter, and the numbers handed out but not yet written. */
  datatype State = State(file: File, counter: nat, inFlight: map<Recorder, nat>)

  function Opened(file: File): State {
    State(file, NextNumber(Lines(file)) % U64, map[])
  }

  /** Actions that cannot happen leave the state alone; a crash forgets every number in flight. */
  function Next(s: State, a: Action): State {
    match a
    case Reserve(who) =>
      if who in s.inFlight then s
      else State(s.file, (s.counter + 1) % U64, s.inFlight[who := s.counter])
    case Append(who, how) =>
      if who !in s.inFlight then s
      else State(Written(s.file, s.inFlight[who], how), s.counter, s.inFlight - {who})
    case Reopen(readable) => if readable then Opened(s.file) else State(s.file, 0, map[])
  }

  function Execute(s: State, actions: seq<Action>): State {
    if actions == [] then s else Next(Execute(s, actions[..|actions| - 1]), actions[|actions| - 1])
  }

  function Reservations(actions: seq<Action>): nat {
    if actions == [] then 0
    else Reservations(actions[..|actions| - 1]) + (if actions[|actions| - 1].Reserve? then 1 else 0)
  }

  ghost predicate EveryOpenReads(actions: seq<Action>) {
    forall a :: a in actions ==> a != Reopen(false)
  }

  /** Written numbers are distinct, numbers in flight are distinct and unwritten, all are below the counter. */
  ghost predicate Distinct(s: State) {
    && NoDuplicates(Readable(s.file))
    && (forall n :: n in Readable(s.file) ==> n < s.counter)
    && (forall r :: r in s.inFlight ==> s.inFlight[r] < s.counter && s.inFlight[r] !in Readable(s.file))
    && (forall r, t :: r in s.inFlight && t in s.inFlight && r != t ==> s.inFlight[r] != s.inFlight[t])
  }

  lemma NoDuplicatesSnoc(s: seq<nat>, x: nat)
    ensures NoDuplicates(s + [x]) <==> NoDuplicates(s) && x !in s
  {
    assert (s + [x])[|s|] == x;
    forall i | 0 <= i < |s| ensures (s + [x])[i] == s[i] {
    }
    if NoDuplicates(s + [x]) {
      forall i | 0 <= i < |s| ensures s[i] != x {
        assert (s + [x])[i] != (s + [x])[|s|];
      }
      forall i, j | 0 <= i < j < |s| ensures s[i] != s[j] {
        assert (s + [x])[i] != (s + [x])[j];
      }
    }
  }

  /** A write adds at most its own number to what can be read; it may make an unfinished record unreadable. */
  lemma WrittenReadable(file: File, number: nat, how: Write)
    ensures
      var before, after := Readable(file), Readable(Written(file, number, how));
      || after == before || after == before + [number] || (before != [] && after == before[..|before| - 1])
  {
    var lines := file.lines;
    if file.tail.Some? {
      NumbersSnoc(lines, file.tail.value);
    }
    assert lines + [] == lines;
    NumbersSnoc(lines, Record(number));
    NumbersSnoc(lines, Junk);
    var after := Written(file, number, how);
    if how.Whole? {
      assert Lines(after) == after.lines;
    }
    var body := Numbers(lines);
    if file.tail.Some? && file.tail.value.Record? {
      assert (body + [file.tail.value.number])[..|body|] == body;
    }
  }

  lemma DroppingKeepsDistinct(s: seq<nat>)
    requires s != [] && NoDuplicates(s)
    ensures NoDuplicates(s[..|s| - 1])
    ensures forall n :: n in s[..|s| - 1] ==> n in s
  {
  }

  lemma AppendKeepsDistinct(s: State, who: Recorder, how: Write)
    requires Distinct(s)
    ensures Distinct(Next(s, Append(who, how)))
  {
    hide Readable, Written;
    if who in s.inFlight {
      var number := s.inFlight[who];
      var before := Readable(s.file);
      WrittenReadable(s.file, number, how);
      NoDuplicatesSnoc(before, number);
      var after := Readable(Written(s.file, number, how));
      if before != [] {
        DroppingKeepsDistinct(before);
      }
      assert NoDuplicates(after);
      assert forall n :: n in after ==> n in before || n == number;
    }
  }

  lemma OpeningIsDistinct(file: File)
    requires NoDuplicates(Readable(file)) && NextNumber(Lines(file)) < U64
    ensures Distinct(Opened(file))
  {
    forall n | n in Readable(file) ensures n < NextNumber(Lines(file)) {
      NextIsAboveAll(Lines(file), n);
    }
  }

  /** Reopening never moves the counter past where the previous log stood. */
  lemma ReopeningGoesBack(s: State)
    requires Distinct(s)
    ensures NextNumber(Lines(s.file)) <= s.counter
  {
    NextIsAboveAll(Lines(s.file), 0);
  }

  lemma NextKeepsDistinct(s: State, a: Action)
    requires Distinct(s) && s.counter + 1 < U64 && a != Reopen(false)
    ensures Distinct(Next(s, a)) && Next(s, a).counter <= s.counter + (if a.Reserve? then 1 else 0)
  {
    hide Readable, NextNumber;
    match a
    case Reserve(who) =>
    case Append(who, how) => AppendKeepsDistinct(s, who, how);
    case Reopen(readable) =>
      ReopeningGoesBack(s);
      OpeningIsDistinct(s.file);
  }

  /**
   * Audit numbers stay unique: for every interleaving of recorders, with torn and failed writes, over any
   * number of crashes and reopenings that can read the file, until the 64-bit counter is used up.
   */
  lemma {:induction false} NumbersStayUnique(file: File, actions: seq<Action>)
    requires NoDuplicates(Readable(file)) && EveryOpenReads(actions)
    requires NextNumber(Lines(file)) + Reservations(actions) + 1 < U64
    ensures Distinct(Execute(Opened(file), actions))
    ensures Execute(Opened(file), actions).counter <= NextNumber(Lines(file)) + Reservations(actions)
  {
    hide Distinct, Readable, NextNumber, Next;
    if actions == [] {
      OpeningIsDistinct(file);
    } else {
      var init, last := actions[..|actions| - 1], actions[|actions| - 1];
      assert last in actions;
      assert forall a :: a in init ==> a in actions;
      NumbersStayUnique(file, init);
      NextKeepsDistinct(Execute(Opened(file), init), last);
    }
  }

  // ------------------------------------------------ what the hypotheses are for

  lemma WholeAppendReadable(file: File, number: nat)
    requires file.tail.None?
    ensures Readable(Written(file, number, Whole)) == Readable(file) + [number]
    ensures Written(file, number, Whole).tail.None?
  {
    NumbersSnoc(file.lines, Record(number));
    assert file.lines + [] == file.lines;
    assert (file.lines + [Record(number)]) + [] == file.lines + [Record(number)];
  }

  /** The counter is not used up: there is a number to reserve, and one to continue from when the file is read. */
  predicate HasRoom(s: State, a: Action) {
    match a
    case Reserve(_) => s.counter + 1 < U64
    case Append(_, _) => true
    case Reopen(_) => NextNumber(Lines(s.file)) < U64
  }

  predicate AllHaveRoom(s: State, actions: seq<Action>) {
    actions == [] || (AllHaveRoom(s, actions[..|actions| - 1]) &&
                      HasRoom(Execute(s, actions[..|actions| - 1]), actions[|actions| - 1]))
  }

  /** Recorders 0 to k-1 take a number each. */
  function Reserves(k: nat): seq<Action> {
    if k == 0 then [] else Reserves(k - 1) + [Reserve(k - 1)]
  }

  function Holding(k: nat): (held: map<Recorder, nat>)
    ensures forall r: nat :: r in held <==> r < k
    ensures forall r: nat :: r in held ==> held[r] == r
  {
    if k == 0 then map[] else Holding(k - 1)[k - 1 := k - 1]
  }

  lemma {:induction false} ReservesGive(file: File, k: nat)
    requires k < U64
    ensures Execute(State(file, 0, map[]), Reserves(k)) == State(file, k, Holding(k))
    ensures AllHaveRoom(State(file, 0, map[]), Reserves(k)) && EveryOpenReads(Reserves(k))
  {
    hide Next;
    if k > 0 {
      ReservesGive(file, k - 1);
      assert Reserves(k)[..|Reserves(k)| - 1] == Reserves(k - 1);
      ReserveTakes(file, k - 1);
    }
  }

  lemma ReserveTakes(file: File, k: nat)
    requires k + 1 < U64
    ensures Next(State(file, k, Holding(k)), Reserve(k)) == State(file, k + 1, Holding(k + 1))
  {
  }

  /** The recorder whose write goes first: it may be swallowed by an unfinished line. */
  function Decoy(n: nat): nat {
    if n == 0 then 1 else 0
  }

  /** After a blind reopening recorders take numbers up to n, and a decoy is written before n. */
  function Repeating(n: nat): seq<Action> {
    Reserves(if n == 0 then 2 else n + 1) + [Append(Decoy(n), Whole), Append(n, Whole)]
  }

  lemma ExecuteTwo(s: State, actions: seq<Action>, a: Action, b: Action)
    ensures Execute(s, actions + [a, b]) == Next(Next(Execute(s, actions), a), b)
    ensures a.Append? && b.Append? && AllHaveRoom(s, actions) ==> AllHaveRoom(s, actions + [a, b])
  {
    var all := actions + [a, b];
    assert all[..|all| - 1] == actions + [a];
    assert (actions + [a])[..|actions|] == actions;
  }

  /** Whatever an unfinished line swallows, the second write is readable. */
  lemma TwoWritesReadable(file: File, first: nat, second: nat)
    ensures
      var after := Written(Written(file, first, Whole), second, Whole);
      |Readable(after)| > |Numbers(file.lines)| && Numbers(file.lines) <= Readable(after)
      && Readable(after)[|Readable(after)| - 1] == second
  {
    var once := Written(file, first, Whole);
    NumbersSnoc(file.lines, Record(first));
    NumbersSnoc(file.lines, Junk);
    WholeAppendReadable(once, second);
    assert Lines(once) == once.lines;
  }

  lemma RepeatingRuns(file: File, n: nat)
    requires n + 1 < U64
    ensures Execute(State(file, 0, map[]), Repeating(n)).file == Written(Written(file, Decoy(n), Whole), n, Whole)
    ensures EveryOpenReads(Repeating(n)) && AllHaveRoom(State(file, 0, map[]), Repeating(n))
  {
    hide Written, Execute, AllHaveRoom;
    var k := if n == 0 then 2 else n + 1;
    ReservesGive(file, k);
    ExecuteTwo(State(file, 0, map[]), Reserves(k), Append(Decoy(n), Whole), Append(n, Whole));
  }

  lemma FirstAndLastAgree(s: seq<nat>, before: seq<nat>, n: nat)
    requires n in before && |s| > |before| && before <= s && s[|s| - 1] == n
    ensures !NoDuplicates(s)
  {
    var i :| 0 <= i < |before| && before[i] == n;
    assert s[i] == before[i];
  }

  /** Any number in a finished line can be handed out and written again after a blind reopening. */
  lemma BlindReopenRepeats(file: File, n: nat)
    requires n in Numbers(file.lines) && n + 1 < U64
    ensures !NoDuplicates(Readable(Execute(Next(State(file, 0, map[]), Reopen(false)), Repeating(n)).file))
    ensures EveryOpenReads(Repeating(n)) && AllHaveRoom(State(file, 0, map[]), Repeating(n))
  {
    hide Written, Readable, Execute, Repeating, Numbers, NoDuplicates, AllHaveRoom;
    RepeatingRuns(file, n);
    TwoWritesReadable(file, Decoy(n), n);
    FirstAndLastAgree(Readable(Written(Written(file, Decoy(n), Whole), n, Whole)), Numbers(file.lines), n);
  }

  /** Nothing written since a blind reopening, the only readable number in an unfinished last line. */
  ghost predicate Stale(file: File, s: State) {
    && s.file == file && Numbers(file.lines) == [] && file.tail.Some?
    && (forall r :: r in s.inFlight ==> s.inFlight[r] < s.counter)
    && (forall r, t :: r in s.inFlight && t in s.inFlight && r != t ==> s.inFlight[r] != s.inFlight[t])
  }

  lemma StaleIsReadable(file: File)
    requires Numbers(file.lines) == []
    ensures NoDuplicates(Readable(file))
    ensures file.tail.None? ==> Readable(file) == []
  {
    assert file.lines + [] == file.lines;
    if file.tail.Some? {
      NumbersSnoc(file.lines, file.tail.value);
    }
  }

  /** A write consumes the unfinished line. */
  lemma StaleWrite(file: File, number: nat, how: Write)
    requires Numbers(file.lines) == [] && file.tail.Some? && how != Lost
    ensures Readable(Written(file, number, how)) == []
  {
    NumbersSnoc(file.lines, Junk);
    assert (file.lines + [Junk]) + [] == file.lines + [Junk];
  }

  lemma StaleStep(file: File, s: State, a: Action)
    requires Stale(file, s) && HasRoom(s, a) && a != Reopen(false)
    ensures Distinct(Next(s, a)) || Stale(file, Next(s, a))
  {
    hide Readable, Written, Numbers, NextNumber;
    match a
    case Reserve(who) =>
    case Append(who, how) =>
      if who in s.inFlight && how != Lost {
        StaleWrite(file, s.inFlight[who], how);
      } else {
        LostLeavesTheFile(file, how);
      }
    case Reopen(readable) =>
      StaleIsReadable(file);
      OpeningIsDistinct(file);
  }

  lemma LostLeavesTheFile(file: File, how: Write)
    ensures how == Lost ==> forall number :: Written(file, number, how) == file
  {
  }

  lemma RoomKeepsDistinct(s: State, a: Action)
    requires Distinct(s) && HasRoom(s, a) && a != Reopen(false)
    ensures Distinct(Next(s, a))
  {
    hide Readable, NextNumber;
    match a
    case Reserve(who) =>
    case Append(who, how) => AppendKeepsDistinct(s, who, how);
    case Reopen(readable) =>
      assert NoDuplicates(Readable(s.file));
      OpeningIsDistinct(s.file);
  }

  lemma {:induction false} StaleRuns(file: File, actions: seq<Action>)
    requires Numbers(file.lines) == [] && EveryOpenReads(actions) && AllHaveRoom(State(file, 0, map[]), actions)
    ensures var s := Execute(State(file, 0, map[]), actions); Distinct(s) || Stale(file, s)
  {
    hide Distinct, Stale, Readable, NextNumber, Next, Numbers, HasRoom;
    if actions == [] {
      StaleStarts(file);
    } else {
      var init, last := actions[..|actions| - 1], actions[|actions| - 1];
      assert last in actions;
      assert forall a :: a in init ==> a in actions;
      StaleRuns(file, init);
      var s := Execute(State(file, 0, map[]), init);
      if Distinct(s) {
        RoomKeepsDistinct(s, last);
      } else {
        StaleStep(file, s, last);
      }
    }
  }

  lemma StaleStarts(file: File)
    requires Numbers(file.lines) == []
    ensures Distinct(State(file, 0, map[])) || Stale(file, State(file, 0, map[]))
  {
    StaleIsReadable(file);
  }

  /**
   * After an open that could not read the file, no number is ever readable twice, whatever happens while
   * the counter is not used up.
   */
  ghost predicate BlindReopenIsSafe(file: File) {
    forall actions :: EveryOpenReads(actions) && AllHaveRoom(State(file, 0, map[]), actions) ==>
      NoDuplicates(Readable(Execute(Next(State(file, 0, map[]), Reopen(false)), actions).file))
  }

  /**
   * An open that cannot read the file restarts at zero. That is harmless exactly if no finished line
   * holds a record: an unfinished one is swallowed by the next write, all others can be repeated. The
   * file's own numbers are of a counter that was not used up.
   */
  lemma BlindReopenIsSafeIffNothingIsWritten(file: File)
    requires NextNumber(Lines(file)) < U64
    ensures BlindReopenIsSafe(file) <==> Numbers(file.lines) == []
  {
    hide Distinct, Readable, Written, NextNumber, Lines, Execute, AllHaveRoom;
    if Numbers(file.lines) == [] {
      forall actions | EveryOpenReads(actions) && AllHaveRoom(State(file, 0, map[]), actions)
        ensures NoDuplicates(Readable(Execute(Next(State(file, 0, map[]), Reopen(false)), actions).file))
      {
        StaleRuns(file, actions);
        var s := Execute(State(file, 0, map[]), actions);
        if Distinct(s) {
          DistinctIsReadable(s);
        } else {
          StaleIsReadable(file);
        }
      }
    } else {
      var n := Numbers(file.lines)[0];
      WholeLinesAreRead(file, n);
      BlindReopenRepeats(file, n);
      assert EveryOpenReads(Repeating(n));
    }
  }

  lemma DistinctIsReadable(s: State)
    requires Distinct(s)
    ensures NoDuplicates(Readable(s.file))
  {
  }

  lemma WholeLinesAreRead(file: File, n: nat)
    requires n in Numbers(file.lines)
    ensures n + 1 <= NextNumber(Lines(file))
  {
    assert file.lines + [] == file.lines;
    if file.tail.Some? {
      NumbersSnoc(file.lines, file.tail.value);
    }
    NextIsAboveAll(Lines(file), n);
  }

  /** Two logs open on the same file hand out the same first number; both records can then be read. */
  lemma OneLogAtATime(file: File)
    requires NoDuplicates(Readable(file)) && file.tail.None? && NextNumber(Lines(file)) < U64
    ensures
      var number := Opened(file).counter;
      !NoDuplicates(Readable(Written(Written(file, number, Whole), number, Whole)))
  {
    var number := Opened(file).counter;
    var once := Written(file, number, Whole);
    WholeAppendReadable(file, number);
    WholeAppendReadable(once, number);
    NoDuplicatesSnoc(Readable(once), number);
  }

  /** Only whole records are written, and the log is never reopened. */
  ghost predicate Lossless(actions: seq<Action>) {
    forall a :: a in actions ==> !a.Reopen? && (a.Append? ==> a.how == Whole)
  }

  ghost predicate Accounted(s: State) {
    && s.file.tail.None?
    && (forall n: nat :: n < s.counter <==> n in Readable(s.file) || n in s.inFlight.Values)
  }

  lemma ReserveAccounts(s: State, who: Recorder)
    requires Accounted(s) && s.counter + 1 < U64
    ensures Accounted(Next(s, Reserve(who)))
  {
    hide Readable;
    var t := Next(s, Reserve(who));
    if who !in s.inFlight {
      forall n: nat ensures n in t.inFlight.Values <==> n in s.inFlight.Values || n == s.counter {
        if n == s.counter {
          assert t.inFlight[who] == n;
        } else if n in s.inFlight.Values {
          var r :| r in s.inFlight && s.inFlight[r] == n;
          assert t.inFlight[r] == n;
        }
      }
    }
  }

  lemma WriteAccounts(s: State, who: Recorder)
    requires Accounted(s) && Distinct(s)
    ensures Accounted(Next(s, Append(who, Whole)))
  {
    hide Readable, Written, Distinct;
    var t := Next(s, Append(who, Whole));
    if who in s.inFlight {
      var number := s.inFlight[who];
      WholeAppendReadable(s.file, number);
      forall n: nat ensures n in s.inFlight.Values <==> n in t.inFlight.Values || n == number {
        if n in s.inFlight.Values {
          var r :| r in s.inFlight && s.inFlight[r] == n;
          assert r != who ==> r in t.inFlight && t.inFlight[r] == n;
        }
      }
      NumberBelowCounter(s, who);
    }
  }

  lemma NumberBelowCounter(s: State, who: Recorder)
    requires Distinct(s) && who in s.inFlight
    ensures s.inFlight[who] < s.counter
  {
  }

  /**
   * Nothing is lost or invented: while every write succeeds, the numbers written and in flight are
   * together exactly those handed out, each once.
   */
  lemma {:induction false} EveryNumberIsAccountedFor(actions: seq<Action>)
    requires Lossless(actions) && Reservations(actions) + 1 < U64
    ensures
      var s := Execute(Opened(File([], None)), actions);
      Accounted(s) && Distinct(s) && s.counter <= Reservations(actions)
  {
    hide Distinct, Next, Accounted;
    var empty := File([], None);
    if actions == [] {
      EmptyAccounts();
    } else {
      var init, last := actions[..|actions| - 1], actions[|actions| - 1];
      assert last in actions;
      assert forall a :: a in init ==> a in actions;
      EveryNumberIsAccountedFor(init);
      var s := Execute(Opened(empty), init);
      NextKeepsDistinct(s, last);
      match last
      case Reserve(who) => ReserveAccounts(s, who);
      case Append(who, how) => WriteAccounts(s, who);
    }
  }

  lemma EmptyAccounts()
    ensures Accounted(Opened(File([], None))) && Distinct(Opened(File([], None)))
    ensures Opened(File([], None)).counter == 0
  {
  }
}
