/** The task-list heuristic: every trimmed line is put in at most one
    category by a first-match-wins chain, each category adds a fixed
    contribution to four counters, and the summary of a document is the
    sum of its lines' contributions. */
module Tasks {
  import opened Base
  import opened Types
  import opened Text
  import opened Fs

  /* The glyph literals the classifier looks for, character for character
     as the parser's text holds them. Each is the UTF-8 encoding of an emoji
     read back as Windows-1252 (or, for the four-byte ones, Windows-1254)
     text, with any byte that code page leaves undefined dropped. A line
     written with the emoji itself matches none of them. */
  const CheckMark: string := "\U{E2}\U{153}\U{2026}"          // bytes of U+2705, white heavy check mark
  const BallotChecked: string := "\U{E2}\U{2DC}\U{2018}"      // bytes of U+2611, ballot box with check
  const WhiteSquare: string := "\U{E2}\U{AC}\U{153}"          // bytes of U+2B1C, white large square
  const BallotBox: string := "\U{E2}\U{2DC}"                  // bytes of U+2610, ballot box, 0x90 dropped
  const CrossMark: string := "\U{E2}\U{152}"                  // bytes of U+274C, cross mark, 0x9D dropped
  const Arrows: string := "\U{11F}\U{178}\U{201D}\U{201E}"    // bytes of U+1F504, anticlockwise arrows
  const Prohibited: string := "\U{11F}\U{178}\U{161}\U{AB}"   // bytes of U+1F6AB, no entry sign
  const NoEntry: string := "\U{E2}\U{203A}\U{201D}"           // bytes of U+26D4, no entry

  /** The four counters, as one line or a whole document adds them. */
  datatype Tally = Tally(total: nat, completed: nat, parallel: nat, blocked: nat)

  const Zero: Tally := Tally(0, 0, 0, 0)

  function Add(a: Tally, b: Tally): Tally {
    Tally(a.total + b.total, a.completed + b.completed, a.parallel + b.parallel, a.blocked + b.blocked)
  }

  function Bit(b: bool): nat {
    if b then 1 else 0
  }

  /** The categories of the classifier, in the order they are tried. */
  datatype LineKind =
    | Unchecked      // `- [ ]` or `* [ ]`
    | Checked        // `- [x]`, `- [X]`, `* [x]`, `* [X]`
    | TaskId         // has a colon, no checkbox prefix, and a task identifier
    | ColonOther     // has a colon, no checkbox prefix, no task identifier
    | EmojiDone      // starts with a check glyph
    | EmojiOpen      // starts with an open, failed or in-progress glyph
    | TodoKeyword    // `TODO:` or `- TODO:`
    | DoneKeyword    // `DONE:` or `- DONE:`
    | Plain          // anything else

  /** `T` followed by three or four ASCII digits and a colon, at `i`: one
      match position of the regular expression `T\d{3,4}:`. */
  predicate TaskIdAt(s: string, i: int) {
    0 <= i && i + 5 <= |s| && s[i] == 'T'
    && IsAsciiDigit(s[i + 1]) && IsAsciiDigit(s[i + 2]) && IsAsciiDigit(s[i + 3])
    && (s[i + 4] == ':' || (i + 6 <= |s| && IsAsciiDigit(s[i + 4]) && s[i + 5] == ':'))
  }

  /** The unanchored search for a task identifier. */
  predicate HasTaskId(s: string) {
    exists i :: 0 <= i < |s| && TaskIdAt(s, i)
  }

  predicate HasParallelMarker(line: string) {
    Contains(line, "[P]") || Contains(line, "(P)") || Contains(line, "||")
  }

  predicate HasBlockedMarker(line: string) {
    Contains(line, "[BLOCKED]") || Contains(line, Prohibited) || Contains(line, NoEntry)
  }

  /** Parallel markers recognised on a task-identifier line: `(P)` is not. */
  predicate HasIdParallelMarker(line: string) {
    Contains(line, "[P]") || Contains(line, "||")
  }

  /** Blocked markers recognised on a task-identifier line: only one glyph. */
  predicate HasIdBlockedMarker(line: string) {
    Contains(line, "[BLOCKED]") || Contains(line, Prohibited)
  }

  predicate HasDoneMarker(line: string) {
    Contains(line, CheckMark) || Contains(line, "DONE") || Contains(line, "[COMPLETE]")
    || Contains(line, "[x]") || Contains(line, "[X]")
  }

  /** The first category whose test the trimmed line passes. */
  function Classify(t: string): LineKind {
    if StartsWith(t, "- [ ]") || StartsWith(t, "* [ ]") then Unchecked
    else if StartsWith(t, "- [x]") || StartsWith(t, "- [X]") || StartsWith(t, "* [x]") || StartsWith(t, "* [X]") then Checked
    else if Contains(t, ":") && !StartsWith(t, "- [") && !StartsWith(t, "* [") then
      (if HasTaskId(t) then TaskId else ColonOther)
    else if StartsWith(t, CheckMark) || StartsWith(t, BallotChecked) then EmojiDone
    else if StartsWith(t, WhiteSquare) || StartsWith(t, BallotBox) || StartsWith(t, CrossMark) || StartsWith(t, Arrows) then EmojiOpen
    else if StartsWith(t, "TODO:") || StartsWith(t, "- TODO:") then TodoKeyword
    else if StartsWith(t, "DONE:") || StartsWith(t, "- DONE:") then DoneKeyword
    else Plain
  }

  /** A single line's contribution: at most one task, and each marker
      counter no larger than the task counter. */
  predicate Unit(t: Tally) {
    t.total <= 1 && t.completed <= t.total && t.parallel <= t.total && t.blocked <= t.total
  }

  /** What a line of category `k` adds to the counters; the markers are
      searched in the line as read. */
  function KindTally(k: LineKind, line: string): (c: Tally)
    ensures Unit(c)
    ensures c.total == 1 <==> k !in {ColonOther, Plain}
    ensures c.completed == 1 <==> k in {Checked, EmojiDone, DoneKeyword} || (k == TaskId && HasDoneMarker(line))
    ensures c.parallel == 1 <==> (k in {Unchecked, Checked} && HasParallelMarker(line))
                                 || (k == TaskId && HasIdParallelMarker(line))
    ensures c.blocked == 1 <==> (k == Unchecked && HasBlockedMarker(line))
                                || (k == TaskId && HasIdBlockedMarker(line))
  {
    match k
    case Unchecked => Tally(1, 0, Bit(HasParallelMarker(line)), Bit(HasBlockedMarker(line)))
    case Checked => Tally(1, 1, Bit(HasParallelMarker(line)), 0)
    case TaskId => Tally(1, Bit(HasDoneMarker(line)), Bit(HasIdParallelMarker(line)), Bit(HasIdBlockedMarker(line)))
    case ColonOther => Zero
    case EmojiDone => Tally(1, 1, 0, 0)
    case EmojiOpen => Tally(1, 0, 0, 0)
    case TodoKeyword => Tally(1, 0, 0, 0)
    case DoneKeyword => Tally(1, 1, 0, 0)
    case Plain => Zero
  }

  /** What one line adds to the counters: the category is decided on the
      trimmed line. */
  function LineTally(line: string): (c: Tally)
    ensures Unit(c)
    ensures c.total == 1 <==> Classify(Trim(line)) !in {ColonOther, Plain}
    ensures var k := Classify(Trim(line));
            c.completed == 1 <==> k in {Checked, EmojiDone, DoneKeyword} || (k == TaskId && HasDoneMarker(line))
    ensures var k := Classify(Trim(line));
            c.parallel == 1 <==> (k in {Unchecked, Checked} && HasParallelMarker(line))
                                 || (k == TaskId && HasIdParallelMarker(line))
    ensures var k := Classify(Trim(line));
            c.blocked == 1 <==> (k == Unchecked && HasBlockedMarker(line))
                                || (k == TaskId && HasIdBlockedMarker(line))
  {
    KindTally(Classify(Trim(line)), line)
  }

  /** Counters of at most `n` tasks, each marker counter no larger than
      the task counter. */
  predicate Bounded(c: Tally, n: nat) {
    c.total <= n && c.completed <= c.total && c.parallel <= c.total && c.blocked <= c.total
  }

  /** The component-wise sum of a sequence of counters. */
  function Sum(ts: seq<Tally>): (c: Tally)
    ensures (forall i :: 0 <= i < |ts| ==> Unit(ts[i])) ==> Bounded(c, |ts|)
    ensures ts == [] ==> c == Zero
    ensures |ts| == 1 ==> c == ts[0]
  {
    if ts == [] then Zero else Add(ts[0], Sum(ts[1..]))
  }

  lemma {:induction false} SumAppend(a: seq<Tally>, b: seq<Tally>)
    ensures Sum(a + b) == Add(Sum(a), Sum(b))
  {
    if a == [] {
      assert a + b == b;
    } else {
      assert (a + b)[0] == a[0];
      assert (a + b)[1..] == a[1..] + b;
      SumAppend(a[1..], b);
    }
  }

  /** Each line's contribution, in order. */
  function LineTallies(lines: seq<string>): (ts: seq<Tally>)
    ensures |ts| == |lines|
    ensures forall i :: 0 <= i < |lines| ==> ts[i] == LineTally(lines[i])
  {
    seq(|lines|, i requires 0 <= i < |lines| => LineTally(lines[i]))
  }

  /** The counters of a sequence of lines: the sum of the lines' own
      contributions. */
  function TallyLines(lines: seq<string>): (c: Tally)
    ensures Bounded(c, |lines|)
    ensures lines == [] ==> c == Zero
    ensures |lines| == 1 ==> c == LineTally(lines[0])
  {
    Sum(LineTallies(lines))
  }

  /** The counters of a document are the sums over any split of it into
      consecutive line blocks: lines never influence one another. */
  lemma TallyLinesAppend(a: seq<string>, b: seq<string>)
    ensures TallyLines(a + b) == Add(TallyLines(a), TallyLines(b))
  {
    var ts, ta, tb := LineTallies(a + b), LineTallies(a), LineTallies(b);
    forall i | 0 <= i < |ts| ensures ts[i] == (ta + tb)[i] {
      if i < |a| {
        assert (a + b)[i] == a[i];
      } else {
        assert (a + b)[i] == b[i - |a|];
      }
    }
    assert ts == ta + tb;
    SumAppend(ta, tb);
  }

  /** `parse_tasks_file`: the counters of the file's lines, stamped with the
      file's modification time; reading the text or the metadata can fail. */
  function ParseTasksFile(fs: FileSystem, p: Path): (r: Result<TaskSummary, Error>)
    ensures r.Ok? <==> p in fs.contents && p in fs.meta
    ensures r.Err? ==> r.error == IoError(p)
    ensures r.Ok? ==> r.value.lastActivity == Some(fs.meta[p].modified)
    ensures r.Ok? ==> r.value.completed <= r.value.total
                      && r.value.parallelMarked <= r.value.total
                      && r.value.blocked <= r.value.total
    ensures r.Ok? ==> r.value.total <= |fs.contents[p]|
    ensures r.Ok? ==> var c := TallyLines(Lines(fs.contents[p]));
                      r.value.total == c.total && r.value.completed == c.completed
                      && r.value.parallelMarked == c.parallel && r.value.blocked == c.blocked
  {
    if p !in fs.contents then Err(IoError(p))
    else
      var c := TallyLines(Lines(fs.contents[p]));
      if p !in fs.meta then Err(IoError(p))
      else Ok(TaskSummary(c.total, c.completed, c.parallel, c.blocked, Some(fs.meta[p].modified)))
  }

  // ---------------------------------------------------------------------
  // consequences of the branch order

  /** A line with a colon whose third character is not `[` carries no
      checkbox prefix, so the colon test decides its category. */
  lemma ColonDecides(t: string)
    requires Contains(t, ":") && (|t| < 3 || t[2] != '[')
    ensures Classify(t) == (if HasTaskId(t) then TaskId else ColonOther)
  {
    forall p | p in ["- [ ]", "* [ ]", "- [x]", "- [X]", "* [x]", "* [X]", "- [", "* ["]
      ensures !StartsWith(t, p)
    {
      if StartsWith(t, p) {
        StartsWithAt(t, p, 2);
      }
    }
  }

  /** A keyword line's colon and third character. */
  lemma KeywordShape(t: string)
    requires StartsWith(t, "TODO:") || StartsWith(t, "- TODO:") || StartsWith(t, "DONE:") || StartsWith(t, "- DONE:")
    ensures Contains(t, ":") && |t| >= 3 && t[2] != '['
  {
    if StartsWith(t, "TODO:") || StartsWith(t, "DONE:") {
      assert OccursAt(t, ":", 4) by { StartsWithAt(t, t[..5], 4); }
      StartsWithAt(t, if StartsWith(t, "TODO:") then "TODO:" else "DONE:", 2);
    } else {
      var p := if StartsWith(t, "- TODO:") then "- TODO:" else "- DONE:";
      StartsWithAt(t, p, 6);
      assert OccursAt(t, ":", 6);
      StartsWithAt(t, p, 2);
    }
  }

  /** A trimmed line starting with a `TODO:` or `DONE:` keyword always has
      a colon and no checkbox prefix, so the colon test claims it first:
      the keyword categories are never reached. */
  lemma KeywordBranchesUnreachable(line: string)
    ensures Classify(Trim(line)) != TodoKeyword && Classify(Trim(line)) != DoneKeyword
  {
    KeywordNeverClassified(Trim(line));
  }

  /** The same for any text, trimmed or not. */
  lemma KeywordNeverClassified(t: string)
    ensures Classify(t) != TodoKeyword && Classify(t) != DoneKeyword
  {
    if StartsWith(t, "TODO:") || StartsWith(t, "- TODO:") || StartsWith(t, "DONE:") || StartsWith(t, "- DONE:") {
      KeywordShape(t);
      ColonDecides(t);
    }
  }

  /** Consequently a keyword line counts only when it also carries a task
      identifier, and then as a task-identifier line. */
  lemma KeywordLineTally(line: string)
    requires var t := Trim(line);
             StartsWith(t, "TODO:") || StartsWith(t, "- TODO:") || StartsWith(t, "DONE:") || StartsWith(t, "- DONE:")
    ensures !HasTaskId(Trim(line)) ==> LineTally(line) == Zero
    ensures HasTaskId(Trim(line)) ==> LineTally(line).total == 1
  {
    KeywordShape(Trim(line));
    ColonDecides(Trim(line));
  }

  /** A task-identifier line is one task, completed when it carries a done
      marker; only `[P]` and `||` mark it parallel, and only `[BLOCKED]`
      and the prohibited sign mark it blocked. A colon line without an
      identifier counts nothing. */
  lemma ColonLineTally(line: string)
    requires var t := Trim(line); Contains(t, ":") && (|t| < 3 || t[2] != '[')
    ensures HasTaskId(Trim(line)) ==>
              LineTally(line) == Tally(1, Bit(HasDoneMarker(line)), Bit(HasIdParallelMarker(line)),
                                       Bit(HasIdBlockedMarker(line)))
    ensures !HasTaskId(Trim(line)) ==> LineTally(line) == Zero
  {
    ColonDecides(Trim(line));
  }

  /** A line whose trimmed text opens with `- [ ]` or `* [ ]` counts as an
      open task, with whatever parallel and blocked markers it carries. */
  lemma OpenLine(line: string)
    requires StartsWith(Trim(line), "- [ ]") || StartsWith(Trim(line), "* [ ]")
    ensures LineTally(line) == Tally(1, 0, Bit(HasParallelMarker(line)), Bit(HasBlockedMarker(line)))
  {
  }

  /** A line whose trimmed text opens with `- [x]`, `- [X]`, `* [x]` or
      `* [X]` counts as a completed task that is never blocked. */
  lemma TickedLine(line: string)
    requires var t := Trim(line);
             StartsWith(t, "- [x]") || StartsWith(t, "- [X]") || StartsWith(t, "* [x]") || StartsWith(t, "* [X]")
    ensures LineTally(line) == Tally(1, 1, Bit(HasParallelMarker(line)), 0)
  {
    var t := Trim(line);
    assert t[3] == 'x' || t[3] == 'X' by {
      if StartsWith(t, "- [x]") { StartsWithAt(t, "- [x]", 3); }
      else if StartsWith(t, "- [X]") { StartsWithAt(t, "- [X]", 3); }
      else if StartsWith(t, "* [x]") { StartsWithAt(t, "* [x]", 3); }
      else { StartsWithAt(t, "* [X]", 3); }
    }
    DiffersAt(t, "- [ ]", 3);
    DiffersAt(t, "* [ ]", 3);
  }

  /** The glyph that opens a line decides its category only when the line
      has no colon: a colon line goes to the identifier test first. */
  lemma GlyphNotCheckbox(t: string, g: string)
    requires |g| >= 1 && g[0] != '-' && g[0] != '*' && StartsWith(t, g)
    ensures !StartsWith(t, "- [") && !StartsWith(t, "* [")
    ensures !StartsWith(t, "- [ ]") && !StartsWith(t, "* [ ]")
    ensures !StartsWith(t, "- [x]") && !StartsWith(t, "- [X]") && !StartsWith(t, "* [x]") && !StartsWith(t, "* [X]")
  {
    StartsWithAt(t, g, 0);
  }

  /** A colon-free line opening with a check mark or a checked ballot box
      is a completed task with no markers. */
  lemma EmojiDoneLine(line: string)
    requires var t := Trim(line); (StartsWith(t, CheckMark) || StartsWith(t, BallotChecked)) && !Contains(t, ":")
    ensures LineTally(line) == Tally(1, 1, 0, 0)
  {
    var t := Trim(line);
    GlyphNotCheckbox(t, if StartsWith(t, CheckMark) then CheckMark else BallotChecked);
  }

  /** A colon-free line opening with the white-square, ballot-box,
      cross-mark or arrows literal is an open task with no markers. The
      ballot-box literal is a prefix of the checked one, which is tried
      first, so a line opening with the checked literal is done instead. */
  lemma EmojiOpenLine(line: string)
    requires var t := Trim(line);
             (StartsWith(t, WhiteSquare) || (StartsWith(t, BallotBox) && !StartsWith(t, BallotChecked))
              || StartsWith(t, CrossMark) || StartsWith(t, Arrows))
             && !Contains(t, ":")
    ensures LineTally(line) == Tally(1, 0, 0, 0)
  {
    OpenGlyphClass(Trim(line));
  }

  lemma OpenGlyphClass(t: string)
    requires (StartsWith(t, WhiteSquare) || (StartsWith(t, BallotBox) && !StartsWith(t, BallotChecked))
              || StartsWith(t, CrossMark) || StartsWith(t, Arrows))
             && !Contains(t, ":")
    ensures Classify(t) == EmojiOpen
  {
    var g := if StartsWith(t, WhiteSquare) then WhiteSquare else if StartsWith(t, BallotBox) then BallotBox
             else if StartsWith(t, CrossMark) then CrossMark else Arrows;
    GlyphNotCheckbox(t, g);
    StartsWithAt(t, g, 1);
    DiffersAt(t, CheckMark, 1);
    if g != BallotBox {
      DiffersAt(t, BallotChecked, 1);
    }
  }

  /** The ballot-box literal is a prefix of the checked one, which is
      tried first: a line opening with the checked literal is never an
      open task. */
  lemma BallotBoxShadowed(t: string)
    requires StartsWith(t, BallotChecked)
    ensures StartsWith(t, BallotBox)
    ensures Classify(t) != EmojiOpen
  {
    assert t[..|BallotBox|] == t[..|BallotChecked|][..|BallotBox|];
  }

  lemma FirstCharDiffers(t: string, p: string)
    requires p != [] && t != [] && t[0] != p[0]
    ensures !StartsWith(t, p)
  {
    DiffersAt(t, p, 0);
  }

  /** A text that differs from a prefix at some position inside both does
      not start with it. */
  lemma DiffersAt(t: string, p: string, i: nat)
    requires i < |p| && i < |t| && t[i] != p[i]
    ensures !StartsWith(t, p)
  {
  }

  /** Text opening with a character that starts none of the prefixes the
      classifier tests, and without a colon, is plain. */
  lemma ClassifyOtherOpening(t: string)
    requires t != [] && t[0] !in {'-', '*', 'T', 'D', '\U{E2}', '\U{11F}'} && !Contains(t, ":")
    ensures Classify(t) == Plain
  {
    FirstCharDiffers(t, "- [ ]");
    FirstCharDiffers(t, "* [ ]");
    FirstCharDiffers(t, "- [x]");
    FirstCharDiffers(t, "- [X]");
    FirstCharDiffers(t, "* [x]");
    FirstCharDiffers(t, "* [X]");
    FirstCharDiffers(t, CheckMark);
    FirstCharDiffers(t, BallotChecked);
    FirstCharDiffers(t, WhiteSquare);
    FirstCharDiffers(t, BallotBox);
    FirstCharDiffers(t, CrossMark);
    FirstCharDiffers(t, Arrows);
    FirstCharDiffers(t, "TODO:");
    FirstCharDiffers(t, "- TODO:");
    FirstCharDiffers(t, "DONE:");
    FirstCharDiffers(t, "- DONE:");
  }

  /** A colon-free line whose trimmed text opens with any other character
      counts nothing. */
  lemma OtherOpeningCountsNothing(line: string)
    requires var t := Trim(line);
             t != [] && t[0] !in {'-', '*', 'T', 'D', '\U{E2}', '\U{11F}'} && !Contains(t, ":")
    ensures LineTally(line) == Zero
  {
    ClassifyOtherOpening(Trim(line));
  }

  /** The emoji itself is not the literal: a colon-free line opening with
      U+2705 counts nothing. */
  lemma DecodedCheckMarkCountsNothing(line: string)
    requires var t := Trim(line); t != [] && t[0] == '\U{2705}' && !Contains(t, ":")
    ensures LineTally(line) == Zero
  {
    OtherOpeningCountsNothing(line);
  }

  /** A line that opens with a non-blank prefix and does not end in
      whitespace keeps that prefix when trimmed. */
  lemma TrimmedPrefix(line: string, p: string)
    requires StartsWith(line, p) && p != [] && !IsWhitespace(p[0])
    requires !IsWhitespace(line[|line| - 1])
    ensures StartsWith(Trim(line), p)
  {
    StartsWithAt(line, p, 0);
    TrimOfTrimmed(line);
  }

  /** Worked examples of the classifier. */
  lemma CheckedExample(a: string)
    requires a == "- [x] T001: setup [P]"
    ensures LineTally(a) == Tally(1, 1, 1, 0)
  {
    TrimmedPrefix(a, "- [x]");
    TickedLine(a);
    assert HasParallelMarker(a) by { assert OccursAt(a, "[P]", 18); }
  }

  lemma UncheckedExample(b: string)
    requires b == "- [ ] T002: wire (P) [BLOCKED]"
    ensures LineTally(b) == Tally(1, 0, 1, 1)
  {
    UncheckedExampleMarkers(b);
    assert StartsWith(Trim(b), "- [ ]") by { TrimmedPrefix(b, "- [ ]"); }
    OpenLine(b);
  }

  lemma UncheckedExampleMarkers(b: string)
    requires b == "- [ ] T002: wire (P) [BLOCKED]"
    ensures HasParallelMarker(b) && HasBlockedMarker(b)
  {
    assert OccursAt(b, "(P)", 17);
    assert OccursAt(b, "[BLOCKED]", 21);
  }

  /** Without a digit there is no task identifier. */
  lemma NoDigitNoTaskId(s: string)
    requires forall c :: c in s ==> !IsAsciiDigit(c)
    ensures !HasTaskId(s)
  {
    forall i | 0 <= i < |s| ensures !TaskIdAt(s, i) {
      if i + 1 < |s| { assert s[i + 1] in s; }
    }
  }

  lemma TodoExample(c: string)
    requires c == "TODO: x"
    ensures LineTally(c) == Zero
  {
    TrimmedPrefix(c, "TODO:");
    NoDigitNoTaskId(c);
    TrimOfTrimmed(c);
    KeywordLineTally(c);
  }

  lemma DoneExample(d: string)
    requires d == "- DONE: x"
    ensures LineTally(d) == Zero
  {
    TrimmedPrefix(d, "- DONE:");
    NoDigitNoTaskId(d);
    TrimOfTrimmed(d);
    KeywordLineTally(d);
  }
}
