/** The generated section of the progress file: found between its markers, replaced in place,
    and compared without its time stamp. */
module Progress {
  import opened Options
  import opened Strings

  /** <!-- AUTO-PROGRESS:BEGIN — generated by scripts/update_progress.py, do not hand-edit --> */
  function BeginMark(): string {
    Opening() + ("BEGIN — generated by " + (Script() + ", do not hand-edit -->"))
  }

  function Opening(): string {
    "<!-- AUTO-PROGRESS:"
  }

  function Script(): string {
    "scripts/update_progress.py"
  }

  /** <!-- AUTO-PROGRESS:END --> */
  function EndMark(): string {
    Opening() + "END -->"
  }

  function StampPrefix(): string {
    "生成时间："
  }

  function Heading(): string {
    "## 任务状态自动总览"
  }

  /** The characters that end a line. */
  predicate IsBreak(c: char) {
    '\n' <= c <= '\r' || '\U{001C}' <= c <= '\U{001E}' || c == '\U{0085}' || c == '\U{2028}' || c == '\U{2029}'
  }

  predicate NoBreaks(s: string) {
    forall i :: 0 <= i < |s| ==> !IsBreak(s[i])
  }

  lemma PieceFacts()
    ensures NoBreaks(Opening()) && NoBreaks(Script()) && |Opening()| == 19 && Opening()[0] == '<'
  {
  }

  lemma PlainFacts()
    ensures NoBreaks("BEGIN — generated by ") && NoBreaks(", do not hand-edit -->") && NoBreaks("END -->")
  {
  }

  lemma NoBreaksConcat(a: string, b: string)
    requires NoBreaks(a) && NoBreaks(b)
    ensures NoBreaks(a + b)
  {
  }

  lemma MarkFacts()
    ensures 0 < |EndMark()| <= |BeginMark()|
    ensures NoBreaks(BeginMark()) && NoBreaks(EndMark())
    ensures BeginMark()[0] == '<'
  {
    hide Opening, Script, NoBreaks;
    PieceFacts();
    PlainFacts();
    NoBreaksConcat(Script(), ", do not hand-edit -->");
    NoBreaksConcat("BEGIN — generated by ", Script() + ", do not hand-edit -->");
    NoBreaksConcat(Opening(), "BEGIN — generated by " + (Script() + ", do not hand-edit -->"));
    NoBreaksConcat(Opening(), "END -->");
  }

  lemma TextFacts()
    ensures NoBreaks(Heading()) && Heading() != "" && Heading()[0] == '#'
    ensures NoBreaks(StampPrefix()) && StampPrefix() != "" && StampPrefix()[0] == '生'
  {
  }

  // ---------------------------------------------------------------- the section

  /** The lines before the stamp, the stamp line, and the rest up to the end marker. */
  function Render(body: string, stamp: string): string {
    Head() + (StampLine(stamp) + (body + (EndMark() + "\n")))
  }

  function Head(): string {
    BeginMark() + ("\n" + ("\n" + (Heading() + ("\n" + "\n"))))
  }

  function StampLine(stamp: string): string {
    StampPrefix() + (stamp + "\n")
  }

  datatype Sections = Sections(before: string, section: Option<string>, after: string)

  /** Cuts a text around its section, which takes one line feed after the end marker. */
  function SplitSection(text: string): Sections {
    var b, e := Find(text, BeginMark()), Find(text, EndMark());
    if b == -1 || e == -1 || e <= b then Sections(text, None, "")
    else
      var stop := e + |EndMark()|;
      var end := if stop < |text| && text[stop] == '\n' then stop + 1 else stop;
      Sections(text[..b], Some(if b <= end then text[b..end] else ""), text[end..])
  }

  function StripRight(s: string): string {
    if s != "" && s[|s| - 1] == '\n' then StripRight(s[..|s| - 1]) else s
  }

  function StripLeft(s: string): string {
    if s != "" && s[0] == '\n' then StripLeft(s[1..]) else s
  }

  /** The file after a run: the section replaced, or appended when there is none. */
  function Regenerate(text: string, rendered: string): string {
    var parts := SplitSection(text);
    if parts.section.None? then StripRight(parts.before) + ("\n\n" + (rendered + StripLeft(parts.after)))
    else parts.before + (rendered + StripLeft(parts.after))
  }

  // ---------------------------------------------------------------- occurrences

  lemma HasAtSame(s: string, i: nat, t: string, j: nat, p: string)
    requires i + |p| <= |s| && j + |p| <= |t| && s[i..i + |p|] == t[j..j + |p|]
    ensures HasAt(s, p, i) == HasAt(t, p, j)
  {
  }

  /** The rendered text starts with its begin marker and holds one end marker, at its end. */
  ghost predicate Proper(rendered: string) {
    && BeginMark() <= rendered
    && var k := |rendered| - |EndMark()| - 1;
       0 < k && Find(rendered, EndMark()) == k && rendered[|rendered| - 1] == '\n'
  }

  ghost predicate Found(text: string) {
    SplitSection(text).section.Some?
  }

  ghost predicate Unmarked(text: string) {
    Find(text, BeginMark()) == -1 && Find(text, EndMark()) == -1
  }

  /** No marker begins before a position of a text. */
  ghost predicate ClearBefore(text: string, n: nat) {
    forall i :: 0 <= i < n ==> !HasAt(text, BeginMark(), i) && !HasAt(text, EndMark(), i)
  }

  /** After a front in which no end marker begins, the first end marker is the rendered one. */
  lemma EndFoundAt(before: string, rendered: string, after: string)
    requires Proper(rendered)
    requires forall i :: 0 <= i < |before| ==> !HasAt(before + (rendered + after), EndMark(), i)
    ensures Find(before + (rendered + after), EndMark()) == |before| + |rendered| - |EndMark()| - 1
  {
    hide BeginMark, EndMark, Find;
    var text := before + (rendered + after);
    var b, k := |before|, |rendered| - |EndMark()| - 1;
    assert HasAt(rendered, EndMark(), k);
    assert text[b + k..b + k + |EndMark()|] == rendered[k..k + |EndMark()|];
    forall i | 0 <= i < b + k ensures !HasAt(text, EndMark(), i) {
      if i >= b {
        assert text[i..i + |EndMark()|] == rendered[i - b..i - b + |EndMark()|];
        HasAtSame(text, i, rendered, i - b, EndMark());
        assert !HasAt(rendered, EndMark(), i - b);
      }
    }
    FindIs(text, EndMark(), b + k);
  }

  /** A section placed where no marker begins before is found again, with its surroundings. */
  lemma PlacedSection(before: string, rendered: string, after: string)
    requires Proper(rendered) && ClearBefore(before + (rendered + after), |before|)
    ensures SplitSection(before + (rendered + after)) == Sections(before, Some(rendered), after)
  {
    hide BeginMark, EndMark, Find;
    var text := before + (rendered + after);
    var b := |before|;
    assert text[b..b + |BeginMark()|] == rendered[..|BeginMark()|] == BeginMark();
    FindIs(text, BeginMark(), b);
    EndFoundAt(before, rendered, after);
    var end := b + |rendered|;
    assert text[end - 1] == rendered[|rendered| - 1] == '\n';
    assert text[..b] == before && text[b..end] == rendered && text[end..] == after;
  }

  /** In front of a found section no marker begins, and that stays so whatever replaces it. */
  lemma FrontStaysClear(text: string, rendered: string, after: string)
    requires Found(text) && Proper(rendered)
    ensures var before := SplitSection(text).before; ClearBefore(before + (rendered + after), |before|)
  {
    MarkFacts();
    hide BeginMark, EndMark, NoBreaks, Find;
    var before := SplitSection(text).before;
    var b := |before|;
    var updated := before + (rendered + after);
    var n := b + |BeginMark()|;
    assert HasAt(text, BeginMark(), b);
    assert updated[..n] == before + rendered[..|BeginMark()|] == before + BeginMark();
    assert text[..n] == text[..b] + text[b..n] == before + BeginMark();
    forall i | 0 <= i < b ensures !HasAt(updated, BeginMark(), i) && !HasAt(updated, EndMark(), i) {
      SamePrefix(updated, text, n, i, BeginMark());
      SamePrefix(updated, text, n, i, EndMark());
      assert !HasAt(text, BeginMark(), i) && !HasAt(text, EndMark(), i);
    }
  }

  lemma SamePrefix(s: string, t: string, n: nat, i: nat, p: string)
    requires n <= |s| && n <= |t| && s[..n] == t[..n] && i + |p| <= n
    ensures HasAt(s, p, i) == HasAt(t, p, i)
  {
    assert s[i..i + |p|] == s[..n][i..i + |p|];
    assert t[i..i + |p|] == t[..n][i..i + |p|];
    HasAtSame(s, i, t, i, p);
  }

  lemma {:induction false} StripLeftTwice(s: string)
    ensures StripLeft(StripLeft(s)) == StripLeft(s)
  {
    if s != "" && s[0] == '\n' {
      StripLeftTwice(s[1..]);
    }
  }

  /** A marker holds no line feed, so it cannot reach across one. */
  lemma NotAcross(s: string, p: string, i: nat, k: nat)
    requires NoBreaks(p) && i <= k < i + |p| && k < |s| && s[k] == '\n'
    ensures !HasAt(s, p, i)
  {
    assert IsBreak(s[k]) && !IsBreak(p[k - i]);
    assert i + |p| <= |s| ==> s[i..i + |p|][k - i] == s[k];
  }

  /** A marker a text does not hold does not begin before the blank line that follows it. */
  lemma NoneBefore(text: string, front: string, rest: string, p: string, i: nat)
    requires p != "" && NoBreaks(p) && Find(text, p) == -1 && front <= text && i < |front| + 2
    ensures !HasAt(front + ("\n\n" + rest), p, i)
  {
    hide Find, NoBreaks;
    var whole := front + ("\n\n" + rest);
    if i + |p| <= |front| {
      assert whole[i..i + |p|] == text[i..i + |p|];
      HasAtSame(whole, i, text, i, p);
    } else {
      NotAcross(whole, p, i, if i <= |front| then |front| else i);
    }
  }

  /** A marker a text holds is found in it at the same place once its trailing line feeds are
      replaced. */
  lemma MarkerStays(text: string, rest: string, p: string)
    requires p != "" && NoBreaks(p) && Find(text, p) >= 0
    ensures Find(StripRight(text) + rest, p) == Find(text, p) < |StripRight(text)|
  {
    hide Find, NoBreaks, StripRight;
    var front, k := StripRight(text), Find(text, p);
    StripRightShape(text);
    if k + |p| > |front| {
      NotAcross(text, p, k, if k <= |front| then |front| else k);
      assert false;
    }
    assert text[..|front|] == front;
    FindInOwnPrefix(text, p, |front|);
    FindInPrefix(front, rest, p);
  }

  lemma {:induction false} StripRightShape(s: string)
    ensures StripRight(s) <= s && forall i :: |StripRight(s)| <= i < |s| ==> s[i] == '\n'
  {
    if s != "" && s[|s| - 1] == '\n' {
      StripRightShape(s[..|s| - 1]);
    }
  }

  lemma UnmarkedFront(text: string, front: string, rest: string)
    requires Unmarked(text) && front <= text
    ensures ClearBefore(front + ("\n\n" + rest), |front| + 2)
  {
    MarkFacts();
    hide BeginMark, EndMark, NoBreaks, Find;
    forall i | 0 <= i < |front| + 2
      ensures !HasAt(front + ("\n\n" + rest), BeginMark(), i) && !HasAt(front + ("\n\n" + rest), EndMark(), i)
    {
      NoneBefore(text, front, rest, BeginMark(), i);
      NoneBefore(text, front, rest, EndMark(), i);
    }
  }

  // ---------------------------------------------------------------- the fixed point

  /** After a run over a text with a section, or without any marker, the rendered section
      stands in the file, and what stood before a section still does. */
  lemma {:induction false} RegeneratedSplits(text: string, rendered: string)
    requires Proper(rendered) && (Found(text) || Unmarked(text))
    ensures var parts := SplitSection(text);
            SplitSection(Regenerate(text, rendered))
            == Sections(if Found(text) then parts.before else StripRight(text) + "\n\n", Some(rendered), StripLeft(parts.after))
  {
    hide BeginMark, EndMark, Find, ClearBefore;
    var parts := SplitSection(text);
    if Found(text) {
      FrontStaysClear(text, rendered, StripLeft(parts.after));
      PlacedSection(parts.before, rendered, StripLeft(parts.after));
    } else {
      var front := StripRight(text);
      assert parts == Sections(text, None, "") && StripLeft("") == "";
      StripRightShape(text);
      UnmarkedFront(text, front, rendered + "");
      assert front + ("\n\n" + (rendered + "")) == (front + "\n\n") + (rendered + "") == Regenerate(text, rendered);
      PlacedSection(front + "\n\n", rendered, "");
    }
  }

  predicate AllFeeds(s: string) {
    forall i :: 0 <= i < |s| ==> s[i] == '\n'
  }

  lemma {:induction false} StripLeftIs(feeds: string, rest: string)
    requires AllFeeds(feeds) && (rest == "" || rest[0] != '\n')
    ensures StripLeft(feeds + rest) == rest
  {
    if feeds == "" {
      assert feeds + rest == rest;
    } else {
      assert (feeds + rest)[1..] == feeds[1..] + rest;
      StripLeftIs(feeds[1..], rest);
    }
  }

  lemma {:induction false} LeadingFeeds(s: string) returns (feeds: string, rest: string)
    ensures s == feeds + rest && AllFeeds(feeds) && (rest == "" || rest[0] != '\n')
  {
    if s != "" && s[0] == '\n' {
      feeds, rest := LeadingFeeds(s[1..]);
      feeds := "\n" + feeds;
      assert s == feeds + rest;
    } else {
      feeds, rest := "", s;
    }
  }

  lemma {:induction false} TrailingFeeds(s: string) returns (front: string, feeds: string)
    ensures s == front + feeds && AllFeeds(feeds) && (front == "" || front[|front| - 1] != '\n') && StripRight(s) == front
  {
    if s != "" && s[|s| - 1] == '\n' {
      front, feeds := TrailingFeeds(s[..|s| - 1]);
      feeds := feeds + "\n";
      assert s == front + feeds;
    } else {
      front, feeds := s, "";
    }
  }

  /** A section is there exactly when the first end marker stands behind the first begin marker. */
  lemma FoundExactly(text: string)
    ensures Found(text) <==> 0 <= Find(text, BeginMark()) < Find(text, EndMark())
  {
    hide BeginMark, EndMark, Find;
  }

  /** The parts of a text with a section: what precedes the first begin marker, the section up to
      the end of the first end marker, line feeds, and the rest. */
  ghost predicate Parts(text: string, before: string, section: string, feeds: string, rest: string) {
    && text == before + (section + (feeds + rest))
    && |before| == Find(text, BeginMark()) && |before| + |section| == Find(text, EndMark()) + |EndMark()|
    && AllFeeds(feeds) && (rest == "" || rest[0] != '\n')
  }

  lemma SectionParts(text: string) returns (before: string, section: string, feeds: string, rest: string)
    requires Found(text)
    ensures Parts(text, before, section, feeds, rest)
    ensures SplitSection(text).before == before && StripLeft(SplitSection(text).after) == rest
  {
    hide BeginMark, EndMark, Find, StripLeft;
    MarkFacts();
    var b, e := Find(text, BeginMark()), Find(text, EndMark());
    var stop := e + |EndMark()|;
    before, section := text[..b], text[b..stop];
    feeds, rest := LeadingFeeds(text[stop..]);
    assert text == before + (section + (feeds + rest));
    var after := SplitSection(text).after;
    if stop < |text| && text[stop] == '\n' {
      assert feeds != "" by {
        assert text[stop..][0] == '\n';
      }
      assert after == text[stop..][1..] == feeds[1..] + rest;
      StripLeftIs(feeds[1..], rest);
    } else {
      assert after == feeds + rest;
      StripLeftIs(feeds, rest);
    }
  }

  /** A run replaces the section, and of what follows drops the line feeds in front alone. */
  lemma SurroundingsKept(text: string, rendered: string)
    requires Found(text)
    ensures exists before, section, feeds, rest ::
              Parts(text, before, section, feeds, rest) && Regenerate(text, rendered) == before + (rendered + rest)
  {
    hide SplitSection, Regenerate, Parts, StripLeft;
    var before, section, feeds, rest := SectionParts(text);
    Replaced(text, rendered);
    assert Parts(text, before, section, feeds, rest) && Regenerate(text, rendered) == before + (rendered + rest);
  }

  /** Without a section the run appends one, behind the text without its trailing line feeds and a
      blank line. */
  lemma AppendedBehind(text: string, rendered: string)
    requires !Found(text)
    ensures exists front, feeds ::
              text == front + feeds && AllFeeds(feeds) && (front == "" || front[|front| - 1] != '\n')
              && Regenerate(text, rendered) == front + ("\n\n" + rendered)
  {
    hide SplitSection, Regenerate, StripRight;
    var front, feeds := TrailingFeeds(text);
    Appended(text, rendered);
    assert (front + "\n\n") + (rendered + "") == front + ("\n\n" + rendered);
    assert text == front + feeds && AllFeeds(feeds) && (front == "" || front[|front| - 1] != '\n')
      && Regenerate(text, rendered) == front + ("\n\n" + rendered);
  }

  lemma Replaced(text: string, rendered: string)
    requires Found(text)
    ensures var parts := SplitSection(text); Regenerate(text, rendered) == parts.before + (rendered + StripLeft(parts.after))
  {
    hide SplitSection;
  }

  lemma Appended(text: string, rendered: string)
    requires !Found(text)
    ensures Regenerate(text, rendered) == (StripRight(text) + "\n\n") + (rendered + "")
  {
    hide SplitSection, StripRight;
    UnfoundParts(text);
    assert StripLeft("") == "";
    assert StripRight(text) + ("\n\n" + (rendered + "")) == (StripRight(text) + "\n\n") + (rendered + "");
  }

  lemma FixedWhenFoundOrUnmarked(text: string, rendered: string)
    requires Proper(rendered) && (Found(text) || Unmarked(text))
    ensures Regenerate(Regenerate(text, rendered), rendered) == Regenerate(text, rendered)
  {
    hide SplitSection, Proper, Regenerate, StripRight, StripLeft, Unmarked;
    var parts := SplitSection(text);
    RegeneratedSplits(text, rendered);
    Replaced(Regenerate(text, rendered), rendered);
    StripLeftTwice(parts.after);
    if Found(text) {
      Replaced(text, rendered);
    } else {
      Appended(text, rendered);
      UnfoundParts(text);
      NothingToStrip();
    }
  }

  lemma NothingToStrip()
    ensures StripLeft("") == ""
  {
  }

  lemma UnfoundParts(text: string)
    requires !Found(text)
    ensures SplitSection(text) == Sections(text, None, "")
  {
  }

  lemma LastLine(s: string, i: nat)
    requires i < |s| && s[i] != '\n'
    ensures i < |StripRight(s)|
  {
    StripRightShape(s);
  }

  /** A section that reaches to the end of the text. */
  lemma SectionToEnd(text: string, b: nat)
    requires Find(text, BeginMark()) == b < Find(text, EndMark()) == |text| - |EndMark()| - 1 && text[|text| - 1] == '\n'
    ensures SplitSection(text) == Sections(text[..b], Some(text[b..]), "")
  {
    hide BeginMark, EndMark, Find;
    assert text[b..|text|] == text[b..] && text[|text|..] == "";
  }

  lemma ProperEnds(before: string, rendered: string)
    requires Proper(rendered)
    ensures var text := before + (rendered + ""); text != "" && text[|text| - 1] == '\n'
  {
    hide BeginMark, EndMark, Find;
  }

  /** A begin marker without an end: what was appended is then taken for its section. */
  lemma StrayBeginFound(text: string, rendered: string)
    requires Proper(rendered) && Find(text, BeginMark()) >= 0 && Find(text, EndMark()) == -1
    ensures var b, front := Find(text, BeginMark()), StripRight(text);
            b < |front| && SplitSection(Regenerate(text, rendered)) == Sections(front[..b], Some((front[b..] + "\n\n") + rendered), "")
  {
    MarkFacts();
    hide BeginMark, EndMark, NoBreaks, Find, StripRight, StripLeft, Regenerate, Proper;
    var front := StripRight(text);
    var once := Regenerate(text, rendered);
    StripRightShape(text);
    Appended(text, rendered);
    UnendedIsUnfound(text);
    assert once == front + ("\n\n" + (rendered + ""));
    MarkerStays(text, "\n\n" + (rendered + ""), BeginMark());
    forall i | 0 <= i < |front + "\n\n"| ensures !HasAt(once, EndMark(), i) {
      NoneBefore(text, front, rendered + "", EndMark(), i);
    }
    EndFoundAt(front + "\n\n", rendered, "");
    ProperEnds(front + "\n\n", rendered);
    SizedProperly(rendered);
    var b := Find(text, BeginMark());
    SectionToEnd(once, b);
    assert once[..b] == front[..b];
    assert once[b..] == (front[b..] + "\n\n") + rendered;
  }

  lemma UnendedIsUnfound(text: string)
    requires Find(text, EndMark()) == -1
    ensures !Found(text)
  {
    hide BeginMark, EndMark, Find;
  }

  lemma StrayBegin(text: string, rendered: string)
    requires Proper(rendered) && Find(text, BeginMark()) >= 0 && Find(text, EndMark()) == -1
    ensures |Regenerate(Regenerate(text, rendered), rendered)| < |Regenerate(text, rendered)|
  {
    hide BeginMark, EndMark, Find, StripRight, StripLeft, Regenerate, Proper, SplitSection;
    StrayBeginFound(text, rendered);
    UnendedIsUnfound(text);
    Appended(text, rendered);
    Replaced(Regenerate(text, rendered), rendered);
    NothingToStrip();
  }

  lemma SizedProperly(rendered: string)
    requires Proper(rendered)
    ensures |rendered| > |EndMark()| + 1
  {
    hide BeginMark, EndMark, Find;
  }

  /** An end marker that no begin marker precedes hides what was appended. */
  lemma StrayEndStays(text: string, rendered: string)
    requires Proper(rendered) && Find(text, EndMark()) >= 0 && !Found(text)
    ensures !Found(Regenerate(text, rendered))
  {
    MarkFacts();
    hide BeginMark, EndMark, NoBreaks, Find, StripRight, StripLeft, Regenerate, Proper;
    var front := StripRight(text);
    var rest := "\n\n" + (rendered + "");
    var once := Regenerate(text, rendered);
    StripRightShape(text);
    Appended(text, rendered);
    assert once == front + rest;
    MarkerStays(text, rest, EndMark());
    if Find(text, BeginMark()) >= 0 {
      MarkerStays(text, rest, BeginMark());
    } else {
      forall i | 0 <= i < |front| ensures !HasAt(once, BeginMark(), i) {
        NoneBefore(text, front, rendered + "", BeginMark(), i);
      }
    }
  }

  /** So every run appends once more. */
  lemma StrayEnd(text: string, rendered: string)
    requires Proper(rendered) && Find(text, EndMark()) >= 0 && !Found(text)
    ensures |Regenerate(Regenerate(text, rendered), rendered)| > |Regenerate(text, rendered)|
  {
    hide BeginMark, EndMark, Find, StripRight, Regenerate, Proper, Found;
    var once := Regenerate(text, rendered);
    StrayEndStays(text, rendered);
    Appended(text, rendered);
    Appended(once, rendered);
    EndsWithMark(rendered);
    var last := |once| - 2;
    assert once[last] == rendered[|rendered| - 2];
    LastLine(once, last);
  }

  lemma EndsWithMark(rendered: string)
    requires Proper(rendered)
    ensures |rendered| >= 2 && rendered[|rendered| - 2] != '\n'
  {
    MarkFacts();
    hide BeginMark, EndMark, Find;
    var n, k := |EndMark()|, |rendered| - |EndMark()| - 1;
    assert HasAt(rendered, EndMark(), k);
    assert rendered[k..k + n][n - 1] == rendered[|rendered| - 2] == EndMark()[n - 1];
    assert !IsBreak(EndMark()[n - 1]);
  }

  /** A second run changes nothing if and only if the first found a section or no marker at all. */
  lemma FixedPointExactly(text: string, rendered: string)
    requires Proper(rendered)
    ensures Regenerate(Regenerate(text, rendered), rendered) == Regenerate(text, rendered) <==> Found(text) || Unmarked(text)
  {
    hide Regenerate, Proper, Found, BeginMark, EndMark;
    if Found(text) || Unmarked(text) {
      FixedWhenFoundOrUnmarked(text, rendered);
    } else if Find(text, EndMark()) >= 0 {
      StrayEnd(text, rendered);
    } else {
      StrayBegin(text, rendered);
    }
  }

  // ---------------------------------------------------------------- a rendered section is proper

  lemma OneAngle()
    ensures '<' !in Opening()[1..] && '<' !in Script()
  {
  }

  lemma PlainHasNoAngle()
    ensures '<' !in "BEGIN — generated by " && '<' !in ", do not hand-edit -->"
  {
  }

  lemma BeginHoldsNoEnd(i: nat)
    ensures !HasAt(BeginMark(), EndMark(), i)
  {
    PieceFacts();
    OneAngle();
    PlainHasNoAngle();
    hide Opening, Script, NoBreaks;
    if i == 0 {
      var n := |Opening()|;
      assert BeginMark()[n] == 'B' && EndMark()[n] == 'E';
      assert |EndMark()| <= |BeginMark()| ==> BeginMark()[0..0 + |EndMark()|][n] == BeginMark()[n];
    } else if i + |EndMark()| <= |BeginMark()| {
      assert EndMark()[0] == '<';
      assert BeginMark()[1..] == Opening()[1..] + ("BEGIN — generated by " + (Script() + ", do not hand-edit -->"));
      assert BeginMark()[i] == BeginMark()[1..][i - 1];
      assert BeginMark()[i..i + |EndMark()|][0] == BeginMark()[i];
    }
  }

  lemma Lengths()
    ensures |EndMark()| == 26 && |Heading()| == 11
  {
    PieceFacts();
  }

  lemma HeadHoldsNoEnd(rest: string, i: nat)
    requires i < |Head()|
    ensures !HasAt(Head() + rest, EndMark(), i)
  {
    MarkFacts();
    Lengths();
    hide BeginMark, EndMark, Heading, NoBreaks;
    var text, b := Head() + rest, |BeginMark()|;
    assert text[b] == '\n' && text[b + 1] == '\n' && text[b + 13] == '\n' && text[b + 14] == '\n';
    if i + |EndMark()| <= b {
      assert text[i..i + |EndMark()|] == BeginMark()[i..i + |EndMark()|];
      HasAtSame(text, i, BeginMark(), i, EndMark());
      BeginHoldsNoEnd(i);
    } else {
      NotAcross(text, EndMark(), i, if i <= b then b else if i == b + 1 then b + 1 else if i <= b + 13 then b + 13 else b + 14);
    }
  }

  lemma NoEndBefore(inner: string, rest: string, i: nat)
    requires Find(inner, EndMark()) == -1 && inner != "" && inner[|inner| - 1] == '\n' && i < |Head()| + |inner|
    ensures !HasAt(Head() + (inner + rest), EndMark(), i)
  {
    MarkFacts();
    hide BeginMark, EndMark, Heading, NoBreaks, Find, Head;
    var text, h, n := Head() + (inner + rest), |Head()|, |inner|;
    if i < h {
      HeadHoldsNoEnd(inner + rest, i);
    } else if i - h + |EndMark()| <= n {
      assert text[i..i + |EndMark()|] == inner[i - h..i - h + |EndMark()|];
      HasAtSame(text, i, inner, i - h, EndMark());
    } else {
      assert text[h + n - 1] == '\n';
      NotAcross(text, EndMark(), i, h + n - 1);
    }
  }

  lemma HeadStarts()
    ensures BeginMark() <= Head()
  {
    hide BeginMark, Heading;
    assert Head()[..|BeginMark()|] == BeginMark();
  }

  /** Without an end marker in the stamp or the body, a rendered section is a proper one. */
  lemma RenderIsProper(body: string, stamp: string)
    requires Find(StampLine(stamp) + body, EndMark()) == -1 && (body == "" || body[|body| - 1] == '\n')
    ensures Proper(Render(body, stamp))
  {
    MarkFacts();
    HeadStarts();
    hide BeginMark, EndMark, Heading, NoBreaks, Find, StampPrefix, Head;
    var inner, end := StampLine(stamp) + body, EndMark() + "\n";
    var text := Render(body, stamp);
    var k := |Head()| + |inner|;
    assert text == Head() + (inner + end);
    assert text[k..k + |EndMark()|] == EndMark();
    forall i | 0 <= i < k ensures !HasAt(text, EndMark(), i) {
      NoEndBefore(inner, end, i);
    }
    FindIs(text, EndMark(), k);
  }

  // ---------------------------------------------------------------- the check

  /** The length of the first line, its break included. */
  function FirstLine(s: string): (n: nat)
    ensures n <= |s| && (s != "" ==> n > 0)
  {
    if s == "" then 0
    else if |s| > 1 && s[0] == '\r' && s[1] == '\n' then 2
    else if IsBreak(s[0]) then 1
    else 1 + FirstLine(s[1..])
  }

  /** The lines of a text, their breaks kept. */
  function Lines(s: string): seq<string> {
    if s == "" then [] else [s[..FirstLine(s)]] + Lines(s[FirstLine(s)..])
  }

  function Concat(lines: seq<string>): string {
    if lines == [] then "" else lines[0] + Concat(lines[1..])
  }

  /** The lines without the first one that carries the stamp. */
  function DropStamp(lines: seq<string>): seq<string> {
    if lines == [] then [] else if StampPrefix() <= lines[0] then lines[1..] else [lines[0]] + DropStamp(lines[1..])
  }

  function WithoutStamp(section: string): string {
    Concat(DropStamp(Lines(section)))
  }

  method RemoveStamp(section: string) returns (r: string)
    ensures r == WithoutStamp(section)
  {
    hide StampPrefix, Lines, Concat, DropStamp;
    var lines := Lines(section);
    var i := 0;
    assert lines[0..] == lines && lines[..0] + DropStamp(lines) == DropStamp(lines);
    while i < |lines|
      invariant 0 <= i <= |lines|
      invariant DropStamp(lines) == lines[..i] + DropStamp(lines[i..])
    {
      DropStampAt(lines, i);
      if StampPrefix() <= lines[i] {
        return Concat(lines[..i] + lines[i + 1..]);
      }
      assert lines[..i] + ([lines[i]] + DropStamp(lines[i + 1..])) == lines[..i + 1] + DropStamp(lines[i + 1..]);
      i := i + 1;
    }
    assert lines[i..] == [] && lines[..i] + [] == lines;
    NothingToDrop();
    r := Concat(lines);
  }

  lemma NothingToDrop()
    ensures DropStamp([]) == []
  {
  }

  lemma DropStampAt(lines: seq<string>, i: nat)
    requires i < |lines|
    ensures DropStamp(lines[i..]) == if StampPrefix() <= lines[i] then lines[i + 1..] else [lines[i]] + DropStamp(lines[i + 1..])
  {
    hide StampPrefix;
    assert lines[i..][1..] == lines[i + 1..];
  }

  /** The verdict of a check run: no section yet, or one that matches but for its stamp. */
  predicate CheckPasses(text: string, rendered: string) {
    var section := SplitSection(text).section;
    section.None? || WithoutStamp(section.value) == WithoutStamp(rendered)
  }

  lemma {:induction false} FirstLineInside(a: string, b: string)
    requires a != "" && a[|a| - 1] == '\n'
    ensures FirstLine(a + b) == FirstLine(a)
  {
    assert (a + b)[1..] == a[1..] + b;
    if |a| > 1 {
      FirstLineInside(a[1..], b);
    }
  }

  /** Text is cut into lines on both sides of a line feed separately. */
  lemma {:induction false} LinesConcat(a: string, b: string)
    requires a == "" || a[|a| - 1] == '\n'
    ensures Lines(a + b) == Lines(a) + Lines(b)
  {
    hide FirstLine, Lines;
    if a == "" {
      NoLines();
      assert a + b == b && [] + Lines(b) == Lines(b);
    } else {
      var n := FirstLine(a);
      FirstLineInside(a, b);
      assert n < |a| ==> a[n..][|a| - n - 1] == '\n';
      LinesConcat(a[n..], b);
      LinesStep(a);
      LinesStep(a + b);
      assert (a + b)[..n] == a[..n] && (a + b)[n..] == a[n..] + b;
      assert [a[..n]] + (Lines(a[n..]) + Lines(b)) == ([a[..n]] + Lines(a[n..])) + Lines(b);
    }
  }

  lemma NoLines()
    ensures Lines("") == []
  {
  }

  lemma LinesStep(s: string)
    requires s != ""
    ensures Lines(s) == [s[..FirstLine(s)]] + Lines(s[FirstLine(s)..])
  {
  }

  lemma {:induction false} OneLineEnds(s: string)
    requires NoBreaks(s)
    ensures FirstLine(s + "\n") == |s| + 1
  {
    if s != "" {
      OneLineEnds(s[1..]);
      assert (s + "\n")[1..] == s[1..] + "\n";
    }
  }

  lemma OneLine(s: string)
    requires NoBreaks(s)
    ensures Lines(s + "\n") == [s + "\n"]
  {
    hide FirstLine;
    OneLineEnds(s);
    var line := s + "\n";
    assert line[..|line|] == line && line[|line|..] == "";
  }

  lemma HeadLines()
    ensures Lines(Head()) == [BeginMark() + "\n", "\n", Heading() + "\n", "\n"]
  {
    MarkFacts();
    TextFacts();
    hide BeginMark, Heading, EndMark, Lines, NoBreaks;
    var b, h := BeginMark() + "\n", Heading() + "\n";
    OneLine(BeginMark());
    OneLine(Heading());
    NoText();
    OneLine("");
    assert "" + "\n" == "\n";
    assert Head() == b + ("\n" + (h + "\n"));
    LinesConcat(b, "\n" + (h + "\n"));
    LinesConcat("\n", h + "\n");
    LinesConcat(h, "\n");
  }

  lemma NoText()
    ensures NoBreaks("")
  {
  }

  lemma {:induction false} DropConcat(a: seq<string>, line: string, b: seq<string>)
    requires (forall i :: 0 <= i < |a| ==> !(StampPrefix() <= a[i])) && StampPrefix() <= line
    ensures DropStamp(a + ([line] + b)) == a + b
  {
    hide StampPrefix;
    var all := a + ([line] + b);
    if a == [] {
      assert all == [line] + b && all[1..] == b;
    } else {
      assert all[1..] == a[1..] + ([line] + b);
      DropConcat(a[1..], line, b);
      assert [a[0]] + (a[1..] + b) == a + b;
    }
  }

  /** What a stamp leaves behind when its first line goes: nothing, unless it holds a line break. */
  function Leftover(stamp: string): string {
    (stamp + "\n")[FirstLine(stamp + "\n")..]
  }

  lemma OneLineLeavesNothing(stamp: string)
    requires NoBreaks(stamp)
    ensures Leftover(stamp) == ""
  {
    OneLineEnds(stamp);
  }

  lemma {:induction false} FirstLinePrefixed(p: string, t: string)
    requires NoBreaks(p)
    ensures FirstLine(p + t) == |p| + FirstLine(t)
  {
    if p == "" {
      assert p + t == t;
    } else {
      assert (p + t)[1..] == p[1..] + t && (p + t)[0] == p[0];
      FirstLinePrefixed(p[1..], t);
    }
  }

  /** The comparison sees the head, the rest, and what the stamp leaves behind. */
  lemma StampIsInvisible(body: string, stamp: string)
    ensures WithoutStamp(Render(body, stamp)) == Head() + (Leftover(stamp) + (body + (EndMark() + "\n")))
  {
    HeadLines();
    MarkFacts();
    TextFacts();
    hide BeginMark, Heading, EndMark, StampPrefix, Lines, Concat, DropStamp, Leftover;
    var rest := body + (EndMark() + "\n");
    var line, left := StampLine(stamp), Leftover(stamp);
    var first := StampLineSplits(stamp);
    HeadEnds();
    LinesConcat(Head(), line + rest);
    LinesConcat(line, rest);
    NotStamped(BeginMark() + "\n");
    NotStamped("\n");
    NotStamped(Heading() + "\n");
    var head := Lines(Head());
    assert forall i :: 0 <= i < |head| ==> !(StampPrefix() <= head[i]);
    assert ([first] + Lines(left)) + Lines(rest) == [first] + (Lines(left) + Lines(rest));
    DropConcat(head, first, Lines(left) + Lines(rest));
    ConcatAppend(head, Lines(left) + Lines(rest));
    ConcatAppend(Lines(left), Lines(rest));
    ConcatLines(Head());
    ConcatLines(left);
    ConcatLines(rest);
  }

  lemma HeadEnds()
    ensures Head() != "" && Head()[|Head()| - 1] == '\n'
  {
    hide BeginMark, Heading;
  }

  lemma NotStamped(line: string)
    requires line != "" && line[0] != '生'
    ensures !(StampPrefix() <= line)
  {
    TextFacts();
  }

  lemma StampLineSplits(stamp: string) returns (first: string)
    ensures Lines(StampLine(stamp)) == [first] + Lines(Leftover(stamp)) && StampPrefix() <= first
    ensures StampLine(stamp) != "" && StampLine(stamp)[|StampLine(stamp)| - 1] == '\n'
  {
    TextFacts();
    hide StampPrefix, Lines, FirstLine;
    var t, line := stamp + "\n", StampLine(stamp);
    var n := FirstLine(line);
    FirstLinePrefixed(StampPrefix(), t);
    LinesStep(line);
    first := line[..n];
    assert line[n..] == t[FirstLine(t)..];
    assert first[..|StampPrefix()|] == line[..|StampPrefix()|] == StampPrefix();
  }

  lemma {:induction false} ConcatLines(s: string)
    ensures Concat(Lines(s)) == s
  {
    hide FirstLine;
    if s != "" {
      ConcatLines(s[FirstLine(s)..]);
      assert s == s[..FirstLine(s)] + s[FirstLine(s)..];
    }
  }

  lemma {:induction false} ConcatAppend(a: seq<string>, b: seq<string>)
    ensures Concat(a + b) == Concat(a) + Concat(b)
  {
    if a == [] {
      assert a + b == b;
    } else {
      assert (a + b)[1..] == a[1..] + b;
      ConcatAppend(a[1..], b);
    }
  }

  /** The stamp is dropped from the first part that has one. */
  lemma {:induction false} DropEither(a: seq<string>, b: seq<string>)
    ensures DropStamp(a + b) == DropStamp(a) + b || DropStamp(a + b) == a + DropStamp(b)
  {
    hide StampPrefix;
    if a == [] {
      assert a + b == b && [] + DropStamp(b) == DropStamp(b);
    } else {
      assert (a + b)[1..] == a[1..] + b;
      if !(StampPrefix() <= a[0]) {
        DropEither(a[1..], b);
        assert [a[0]] + (a[1..] + DropStamp(b)) == a + DropStamp(b);
        assert [a[0]] + (DropStamp(a[1..]) + b) == ([a[0]] + DropStamp(a[1..])) + b;
      }
    }
  }

  /** Text in front of a rendered section shows, whichever stamp line is dropped. */
  lemma FrontShows(front: string, body: string, stamp: string, later: string)
    requires NoBreaks(stamp) && NoBreaks(later) && front != "" && front[|front| - 1] == '\n'
    ensures |WithoutStamp(front + Render(body, stamp))| > |WithoutStamp(Render(body, later))|
  {
    hide BeginMark, Heading, EndMark, StampPrefix, Lines, Concat, DropStamp, NoBreaks, Head, Leftover;
    var rest := body + (EndMark() + "\n");
    var rendered := Render(body, stamp);
    StampIsInvisible(body, stamp);
    StampIsInvisible(body, later);
    OneLineLeavesNothing(stamp);
    OneLineLeavesNothing(later);
    LinesConcat(front, rendered);
    DropEither(Lines(front), Lines(rendered));
    ConcatAppend(DropStamp(Lines(front)), Lines(rendered));
    ConcatAppend(Lines(front), DropStamp(Lines(rendered)));
    ConcatLines(front);
    ConcatLines(rendered);
    assert |rendered| == |Head()| + |StampLine(stamp)| + |rest|;
  }

  lemma SameMiddle(a: string, x: string, y: string, b: string)
    ensures a + (x + b) == a + (y + b) <==> x == y
  {
    if a + (x + b) == a + (y + b) {
      assert |x| == |y|;
      assert (a + (x + b))[|a|..|a| + |x|] == x && (a + (y + b))[|a|..|a| + |y|] == y;
    }
  }

  /** After a run over a text with a section or without any marker a check passes, for any two
      stamps, exactly when they leave the same text behind: always, when they are single lines. */
  lemma CheckAfterRunForAnyStamps(text: string, body: string, stamp: string, later: string)
    requires Proper(Render(body, stamp)) && (Found(text) || Unmarked(text))
    ensures CheckPasses(Regenerate(text, Render(body, stamp)), Render(body, later)) <==> Leftover(stamp) == Leftover(later)
  {
    hide SplitSection, Proper, Render, WithoutStamp, Found, Unmarked, Regenerate, Leftover, Head, EndMark;
    RegeneratedSplits(text, Render(body, stamp));
    StampIsInvisible(body, stamp);
    StampIsInvisible(body, later);
    SameMiddle(Head(), Leftover(stamp), Leftover(later), body + (EndMark() + "\n"));
  }

  /** For stamps of one line, a check after a run passes if and only if the text held an end
      marker or no begin marker. */
  lemma CheckAfterRunExactly(text: string, body: string, stamp: string, later: string)
    requires NoBreaks(stamp) && NoBreaks(later) && Proper(Render(body, stamp))
    ensures CheckPasses(Regenerate(text, Render(body, stamp)), Render(body, later))
       <==> Find(text, EndMark()) >= 0 || Find(text, BeginMark()) == -1
  {
    hide SplitSection, Proper, Render, WithoutStamp, Found, Regenerate, NoBreaks, StripRight, StripLeft, BeginMark, EndMark, Leftover;
    var rendered := Render(body, stamp);
    OneLineLeavesNothing(stamp);
    OneLineLeavesNothing(later);
    if Found(text) || Unmarked(text) {
      CheckAfterRunForAnyStamps(text, body, stamp, later);
      FoundHasEnd(text);
    } else if Find(text, EndMark()) >= 0 {
      StrayEndStays(text, rendered);
      UnfoundParts(Regenerate(text, rendered));
    } else {
      StrayBeginFound(text, rendered);
      FrontShows(StripRight(text)[Find(text, BeginMark())..] + "\n\n", body, stamp, later);
    }
  }

  lemma FoundHasEnd(text: string)
    ensures Found(text) ==> Find(text, EndMark()) >= 0
  {
    hide BeginMark, EndMark, Find;
  }
}
