/**
 * The laptop screen's typing animation: every tick either types one more
 * character of the current code line or moves to the next line; past the
 * last line a reset to the empty screen is scheduled. Ticks and the firing
 * of a scheduled reset are discrete events.
 */
module CodingScreen {

  /** The code the screen types, one string per line. */
  const CodeLines: seq<string> := [
    "const developer = {",
    "  name: \"Your Name\",",
    "  role: \"Web Developer\",",
    "  skills: [",
    "    \"React\", \"TypeScript\",",
    "    \"Node.js\", \"MongoDB\"",
    "  ],",
    "  passion: \"Creating amazing web experiences\"",
    "};",
    "",
    "function buildPortfolio() {",
    "  return {",
    "    modern: true,",
    "    responsive: true,",
    "    beautiful: true",
    "  };",
    "}"
  ]

  /**
   * The screen: the line and character cursors, the shown lines (a sparse
   * array: a line never written, such as an empty one, is absent) and the
   * number of resets scheduled and not yet fired.
   */
  datatype Screen = Screen(lineIndex: nat, charIndex: nat, displayed: map<nat, string>, pending: nat)

  /** The screen right after a reset. */
  const Blank: Screen := Screen(0, 0, map[], 0)

  /** All lines typed. */
  predicate Finished(lines: seq<string>, s: Screen) {
    s.lineIndex >= |lines|
  }

  /** The typing step of `typeCode`, shared by the code as written and the corrected one. */
  function Type(lines: seq<string>, s: Screen): (r: Screen)
    requires !Finished(lines, s)
    ensures r.pending == s.pending
    ensures s.charIndex < |lines[s.lineIndex]| ==>
      && r.lineIndex == s.lineIndex && r.charIndex == s.charIndex + 1
      && r.displayed == s.displayed[s.lineIndex := lines[s.lineIndex][..s.charIndex + 1]]
    ensures s.charIndex >= |lines[s.lineIndex]| ==>
      r.lineIndex == s.lineIndex + 1 && r.charIndex == 0 && r.displayed == s.displayed
  {
    var line := lines[s.lineIndex];
    if s.charIndex < |line| then
      s.(displayed := s.displayed[s.lineIndex := line[..s.charIndex + 1]], charIndex := s.charIndex + 1)
    else
      s.(lineIndex := s.lineIndex + 1, charIndex := 0)
  }

  /** One 50 ms tick as written: past the last line, every tick schedules one more reset. */
  function TickAsWritten(lines: seq<string>, s: Screen): (r: Screen)
    ensures Finished(lines, s) ==> r == s.(pending := s.pending + 1)
    ensures !Finished(lines, s) ==> r == Type(lines, s)
  {
    if !Finished(lines, s) then Type(lines, s) else s.(pending := s.pending + 1)
  }

  /** One tick with the evident intent: past the last line, a reset is scheduled unless one already is. */
  function Tick(lines: seq<string>, s: Screen): (r: Screen)
    ensures Finished(lines, s) ==> r == s.(pending := 1)
    ensures !Finished(lines, s) ==> r == Type(lines, s)
  {
    if !Finished(lines, s) then Type(lines, s) else s.(pending := 1)
  }

  /** A scheduled reset fires: the screen is cleared and typing starts over. */
  function Fire(s: Screen): (r: Screen)
    ensures s.pending == 0 ==> r == s
    ensures s.pending > 0 ==> r == Blank.(pending := s.pending - 1)
  {
    if s.pending == 0 then s else Blank.(pending := s.pending - 1)
  }

  /**
   * The screen's consistency: the cursors are in range, every non-empty line
   * before the cursor is shown in full, the current line is shown up to the
   * cursor, and nothing else is shown.
   */
  ghost predicate Consistent(lines: seq<string>, s: Screen) {
    && s.lineIndex <= |lines|
    && (s.lineIndex < |lines| ==> s.charIndex <= |lines[s.lineIndex]|)
    && (s.lineIndex == |lines| ==> s.charIndex == 0)
    && (forall k: nat :: k in s.displayed <==> (k < s.lineIndex && lines[k] != "") || (k == s.lineIndex && s.charIndex > 0))
    && (forall k: nat :: k in s.displayed && k < s.lineIndex ==> s.displayed[k] == lines[k])
    && (s.lineIndex in s.displayed ==> s.displayed[s.lineIndex] == lines[s.lineIndex][..s.charIndex])
  }

  lemma BlankConsistent(lines: seq<string>)
    ensures Consistent(lines, Blank)
  {
  }

  /** A typing step keeps the screen consistent. */
  lemma TypeConsistent(lines: seq<string>, s: Screen)
    requires Consistent(lines, s) && !Finished(lines, s)
    ensures Consistent(lines, Type(lines, s))
  {
    var r := Type(lines, s);
    var i := s.lineIndex;
    if s.charIndex >= |lines[i]| {
      assert s.charIndex == |lines[i]|;
      if i in s.displayed {
        assert lines[i][..s.charIndex] == lines[i];
      }
    }
  }

  /** A tick keeps the screen consistent, as written and corrected. */
  lemma TicksConsistent(lines: seq<string>, s: Screen)
    requires Consistent(lines, s)
    ensures Consistent(lines, Tick(lines, s))
    ensures Consistent(lines, TickAsWritten(lines, s))
  {
    if !Finished(lines, s) {
      TypeConsistent(lines, s);
    }
  }

  /** Once every line is typed, the screen shows every non-empty line in full and nothing else. */
  lemma FinishedShowsAll(lines: seq<string>, s: Screen)
    requires Consistent(lines, s) && Finished(lines, s)
    ensures s.displayed == map k | 0 <= k < |lines| && lines[k] != "" :: lines[k]
  {
  }

  /** The ticks a line costs from the line `i` on: one per character plus one to move on. */
  function TicksFrom(lines: seq<string>, i: nat): nat
    decreases |lines| - i
  {
    if i >= |lines| then 0 else |lines[i]| + 1 + TicksFrom(lines, i + 1)
  }

  /** The ticks still needed to finish. */
  function Remaining(lines: seq<string>, s: Screen): int {
    TicksFrom(lines, s.lineIndex) - s.charIndex
  }

  /** `n` ticks of the corrected screen. */
  function Ticks(lines: seq<string>, s: Screen, n: nat): Screen
    decreases n
  {
    if n == 0 then s else Ticks(lines, Tick(lines, s), n - 1)
  }

  /** Every typing step costs exactly one of the remaining ticks. */
  lemma TypeCountsDown(lines: seq<string>, s: Screen)
    requires Consistent(lines, s) && !Finished(lines, s)
    ensures Remaining(lines, Type(lines, s)) == Remaining(lines, s) - 1
  {
  }

  /**
   * From a consistent unfinished screen, exactly the remaining ticks finish
   * it: none fewer, and the screen then shows the whole listing.
   */
  lemma {:induction false} TicksToFinish(lines: seq<string>, s: Screen)
    requires Consistent(lines, s) && !Finished(lines, s)
    ensures Remaining(lines, s) >= 1
    ensures Finished(lines, Ticks(lines, s, Remaining(lines, s)))
    ensures !Finished(lines, Ticks(lines, s, Remaining(lines, s) - 1))
    ensures Consistent(lines, Ticks(lines, s, Remaining(lines, s)))
    decreases Remaining(lines, s)
  {
    var t := Type(lines, s);
    TypeConsistent(lines, s);
    TypeCountsDown(lines, s);
    assert Tick(lines, s) == t;
    if Finished(lines, t) {
      assert t.lineIndex == |lines| && t.charIndex == 0;
      assert Remaining(lines, t) == 0;
      assert Ticks(lines, s, 1) == Ticks(lines, t, 0);
    } else {
      TicksToFinish(lines, t);
      assert Ticks(lines, s, Remaining(lines, s)) == Ticks(lines, t, Remaining(lines, t));
      assert Ticks(lines, s, Remaining(lines, s) - 1) == Ticks(lines, t, Remaining(lines, t) - 1);
    }
  }

  /** After a reset, a cycle of one tick per character plus one per line types the whole listing. */
  lemma CycleLength(lines: seq<string>)
    requires |lines| > 0
    ensures var done := Ticks(lines, Blank, TicksFrom(lines, 0));
      && Finished(lines, done)
      && done.displayed == map k | 0 <= k < |lines| && lines[k] != "" :: lines[k]
  {
    BlankConsistent(lines);
    TicksToFinish(lines, Blank);
    FinishedShowsAll(lines, Ticks(lines, Blank, TicksFrom(lines, 0)));
  }

  /** After the last line, ticks change nothing but the scheduled reset. */
  lemma FinishedTickWaits(lines: seq<string>, s: Screen)
    requires Finished(lines, s)
    ensures var r := Tick(lines, s);
      r.lineIndex == s.lineIndex && r.charIndex == s.charIndex && r.displayed == s.displayed && r.pending == 1
  {
  }

  /** The corrected screen's reset discipline: at most one reset pending, and only once every line is typed. */
  predicate ResetsDisciplined(lines: seq<string>, s: Screen) {
    s.pending <= 1 && (s.pending == 1 ==> Finished(lines, s))
  }

  /** Ticks and resets keep the discipline, so a reset never interrupts typing. */
  lemma DisciplineKept(lines: seq<string>, s: Screen)
    requires ResetsDisciplined(lines, s)
    ensures ResetsDisciplined(lines, Tick(lines, s))
    ensures ResetsDisciplined(lines, Fire(s))
  {
  }

  /** The events the screen sees. */
  datatype Event = TickEvent | ResetEvent

  function RunAsWritten(lines: seq<string>, s: Screen, evs: seq<Event>): Screen
    decreases |evs|
  {
    if |evs| == 0 then s
    else RunAsWritten(lines, if evs[0] == TickEvent then TickAsWritten(lines, s) else Fire(s), evs[1..])
  }

  function Run(lines: seq<string>, s: Screen, evs: seq<Event>): Screen
    decreases |evs|
  {
    if |evs| == 0 then s
    else Run(lines, if evs[0] == TickEvent then Tick(lines, s) else Fire(s), evs[1..])
  }

  /** As written, each tick after the last line schedules one more reset. */
  lemma {:induction false} ResetsPileUp(lines: seq<string>, s: Screen, n: nat)
    requires Finished(lines, s)
    ensures RunAsWritten(lines, s, seq(n, _ => TickEvent)) == s.(pending := s.pending + n)
    decreases n
  {
    if n > 0 {
      var evs := seq(n, _ => TickEvent);
      assert evs[1..] == seq(n - 1, _ => TickEvent);
      ResetsPileUp(lines, TickAsWritten(lines, s), n - 1);
    }
  }

  /**
   * As written: two ticks past the end schedule two resets; the first one
   * restarts typing, and the second one erases the character typed since.
   */
  lemma SecondResetErasesTyping()
    ensures var done := Screen(|CodeLines|, 0, map k | 0 <= k < |CodeLines| && CodeLines[k] != "" :: CodeLines[k], 0);
      var evs := [TickEvent, TickEvent, ResetEvent, TickEvent, ResetEvent];
      && Run(CodeLines, done, evs[..4]).displayed == map[0 := "c"]
      && RunAsWritten(CodeLines, done, evs[..4]).displayed == map[0 := "c"]
      && RunAsWritten(CodeLines, done, evs) == Blank
      && Run(CodeLines, done, evs).displayed == map[0 := "c"]
  {
    var done := Screen(|CodeLines|, 0, map k | 0 <= k < |CodeLines| && CodeLines[k] != "" :: CodeLines[k], 0);
    var evs := [TickEvent, TickEvent, ResetEvent, TickEvent, ResetEvent];
    assert CodeLines[0][..1] == "c";
    var restarted := Blank.(pending := 1);
    var typed := Screen(0, 1, map[0 := "c"], 1);
    assert Type(CodeLines, restarted) == typed;
    assert evs[..4] == [TickEvent, TickEvent, ResetEvent, TickEvent];
    assert evs[1..][1..][1..][1..] == [ResetEvent];
    assert RunAsWritten(CodeLines, typed, [ResetEvent]) == Blank;
    assert RunAsWritten(CodeLines, restarted, [TickEvent, ResetEvent]) == Blank;
    assert RunAsWritten(CodeLines, done.(pending := 2), [ResetEvent, TickEvent, ResetEvent]) == Blank;
    assert RunAsWritten(CodeLines, restarted, [TickEvent]) == typed;
    assert RunAsWritten(CodeLines, done.(pending := 2), [ResetEvent, TickEvent]) == typed;
    var fixedTyped := typed.(pending := 0);
    assert Run(CodeLines, fixedTyped, [ResetEvent]) == fixedTyped;
    assert Run(CodeLines, Blank, [TickEvent, ResetEvent]) == fixedTyped;
    assert Run(CodeLines, done.(pending := 1), [ResetEvent, TickEvent, ResetEvent]) == fixedTyped;
    assert Run(CodeLines, Blank, [TickEvent]) == fixedTyped;
    assert Run(CodeLines, done.(pending := 1), [ResetEvent, TickEvent]) == fixedTyped;
  }
}
