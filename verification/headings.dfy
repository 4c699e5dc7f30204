/** The two markdown helpers of the document parser: the title is the
    first top-level heading, and the section count is the number of
    second-level headings. */
module Headings {
  import opened Base
  import opened Text

  const TitleMarker: string := "# "
  const SectionMarker: string := "## "

  predicate IsTitleLine(line: string) {
    StartsWith(line, TitleMarker)
  }

  predicate IsSectionLine(line: string) {
    StartsWith(line, SectionMarker)
  }

  /** Index of the first title line, or `|ls|` when there is none. */
  function FirstTitleLine(ls: seq<string>): (k: nat)
    ensures k <= |ls|
    ensures forall i :: 0 <= i < k ==> !IsTitleLine(ls[i])
    ensures k < |ls| ==> IsTitleLine(ls[k])
  {
    if ls == [] then 0
    else if IsTitleLine(ls[0]) then 0
    else 1 + FirstTitleLine(ls[1..])
  }

  /** A heading line's text: every leading `# ` removed, then trimmed. */
  function HeadingText(line: string): (t: string)
    ensures |t| <= |line|
    ensures t == [] || (!IsWhitespace(t[0]) && !IsWhitespace(t[|t| - 1]))
    ensures exists k: nat, rest: string :: line == Repeat(TitleMarker, k) + rest
                                         && !StartsWith(rest, TitleMarker) && t == Trim(rest)
  {
    Trim(TrimStartMatches(line, TitleMarker))
  }

  /** Repeated markers all go: `# # x` has the title `x`. */
  lemma HeadingTextExample()
    ensures HeadingText("# # x") == "x"
  {
    var line := "# # x";
    assert line == TitleMarker + "# x";
    PrefixParts(TitleMarker, "# x");
    assert "# x" == TitleMarker + "x";
    PrefixParts(TitleMarker, "x");
    assert TrimStartMatches("x", TitleMarker) == "x";
    TrimOfTrimmed("x");
  }

  /** `extract_title`: the text of the first line starting with `# `. */
  function ExtractTitle(content: string): (r: Option<string>)
    ensures r.None? <==> forall i :: 0 <= i < |Lines(content)| ==> !IsTitleLine(Lines(content)[i])
    ensures r.Some? ==> exists i :: 0 <= i < |Lines(content)| && IsTitleLine(Lines(content)[i])
                                    && (forall j :: 0 <= j < i ==> !IsTitleLine(Lines(content)[j]))
                                    && r.value == HeadingText(Lines(content)[i])
  {
    var ls := Lines(content);
    var k := FirstTitleLine(ls);
    if k == |ls| then None else Some(HeadingText(ls[k]))
  }

  /** Number of section lines among `ls`. */
  function CountSectionLines(ls: seq<string>): (n: nat)
    ensures n <= |ls|
    ensures n == 0 <==> forall i :: 0 <= i < |ls| ==> !IsSectionLine(ls[i])
    ensures n == |ls| <==> forall i :: 0 <= i < |ls| ==> IsSectionLine(ls[i])
  {
    if ls == [] then 0
    else (if IsSectionLine(ls[0]) then 1 else 0) + CountSectionLines(ls[1..])
  }

  /** `count_sections`: how many lines start with `## `. */
  function CountSections(content: string): (n: nat)
    ensures n <= |Lines(content)|
    ensures n == 0 <==> forall i :: 0 <= i < |Lines(content)| ==> !IsSectionLine(Lines(content)[i])
  {
    CountSectionLines(Lines(content))
  }

  /** Counting distributes over consecutive blocks of lines. */
  lemma {:induction false} CountSectionLinesAppend(a: seq<string>, b: seq<string>)
    ensures CountSectionLines(a + b) == CountSectionLines(a) + CountSectionLines(b)
  {
    if a == [] {
      assert a + b == b;
    } else {
      assert (a + b)[0] == a[0];
      assert (a + b)[1..] == a[1..] + b;
      CountSectionLinesAppend(a[1..], b);
    }
  }

  /** A third-level heading is not a section line, and a section line is
      not a title line. */
  lemma HeadingLevelsDistinct(line: string)
    ensures StartsWith(line, "### ") ==> !IsSectionLine(line)
    ensures IsSectionLine(line) ==> !IsTitleLine(line)
  {
    if StartsWith(line, "### ") {
      StartsWithAt(line, "### ", 2);
    }
    if IsSectionLine(line) {
      StartsWithAt(line, SectionMarker, 1);
    }
  }

  /** Text that neither starts with `# ` nor has whitespace at its ends
      comes back unchanged as the heading text of `# ` followed by it. */
  lemma HeadingTextOfTitle(t: string)
    requires t == [] || (!IsWhitespace(t[0]) && !IsWhitespace(t[|t| - 1]))
    requires !StartsWith(t, TitleMarker)
    ensures HeadingText(TitleMarker + t) == t
  {
    var line := TitleMarker + t;
    assert StartsWith(line, TitleMarker);
    assert line[|TitleMarker|..] == t;
    assert TrimStartMatches(t, TitleMarker) == t;
    assert TrimStartMatches(line, TitleMarker) == t;
    TrimOfTrimmed(t);
  }

  /** A document whose first line is `# ` followed by a trimmed title has
      that title. */
  lemma ExtractTitleOfDocument(t: string, rest: seq<string>)
    requires t == [] || (!IsWhitespace(t[0]) && !IsWhitespace(t[|t| - 1]))
    requires !StartsWith(t, TitleMarker)
    requires PlainLine(TitleMarker + t)
    requires forall i :: 0 <= i < |rest| ==> PlainLine(rest[i])
    ensures ExtractTitle(Unlines([TitleMarker + t] + rest)) == Some(t)
  {
    var ls := [TitleMarker + t] + rest;
    forall i | 0 <= i < |ls| ensures PlainLine(ls[i]) {
      if i > 0 { assert ls[i] == rest[i - 1]; }
    }
    LinesOfUnlines(ls);
    assert IsTitleLine(ls[0]);
    assert FirstTitleLine(ls) == 0;
    HeadingTextOfTitle(t);
  }

  /** Inserting a third-level heading anywhere leaves the section count
      unchanged, while inserting a section line raises it by one. */
  lemma InsertedHeadingCount(a: seq<string>, line: string, b: seq<string>)
    ensures StartsWith(line, "### ") ==> CountSectionLines(a + [line] + b) == CountSectionLines(a + b)
    ensures IsSectionLine(line) ==> CountSectionLines(a + [line] + b) == CountSectionLines(a + b) + 1
  {
    CountSectionLinesAppend(a + [line], b);
    CountSectionLinesAppend(a, [line]);
    CountSectionLinesAppend(a, b);
    assert CountSectionLines([line]) == (if IsSectionLine(line) then 1 else 0) by {
      assert [line][1..] == [];
    }
    HeadingLevelsDistinct(line);
  }
}
