/** Parse, print and archive footer undo one another (scripts/fix-changelogs.ts). */
module ChangelogRoundTrip {
  import opened Prelude
  import opened LineSplit
  import opened ChangelogDocument
  import opened ChangelogRender

  // ---------------------------------------------------------------- tidy and spaced documents keep their shape

  lemma {:induction false} TidySubsectionsShape(subs: seq<Subsection<Line>>)
    requires ShapedSubsections(subs)
    ensures TidySubs(TidySubsections(subs)) && ShapedSubsections(TidySubsections(subs))
  {
    if subs != [] {
      TidySubsectionsShape(subs[1..]);
      TrimIsTrimmed(subs[0].lines);
      TrimOfNoHead(subs[0].lines, IsSubHead(Same));
      TrimOfNoHead(subs[0].lines, IsRelease(Same));
      assert Trim(subs[0].lines) != [] ==> TidySubsections(subs)[1..] == TidySubsections(subs[1..]);
    }
  }

  lemma {:induction false} TidySectionsShape(sections: seq<ReleaseSection<Line>>)
    requires ShapedSections(sections)
    ensures TidySecs(TidySections(sections)) && ShapedSections(TidySections(sections))
  {
    if sections != [] {
      TidySectionsShape(sections[1..]);
      TidySubsectionsShape(sections[0].subsections);
      TrimIsTrimmed(sections[0].leading);
      TrimOfNoHead(sections[0].leading, IsSubHead(Same));
      TrimOfNoHead(sections[0].leading, IsRelease(Same));
      assert TidySections(sections)[1..] == TidySections(sections[1..]);
    }
  }

  lemma {:induction false} PaddedNoHead(lines: seq<Line>, before: bool, after: bool, head: Line -> bool)
    requires NoHead(lines, head) && !head(EMPTY)
    ensures NoHead(Padded(lines, before, after), head)
  {
    assert [EMPTY][1..] == [];
    var top, bottom: seq<Line> := if before then [EMPTY] else [], if after then [EMPTY] else [];
    NoHeadJoin(top, lines, head);
    NoHeadJoin(top + lines, bottom, head);
  }

  lemma {:induction false} SpaceSubsectionsShape(subs: seq<Subsection<Line>>, last: bool)
    requires ShapedSubsections(subs)
    ensures ShapedSubsections(SpaceSubsections(subs, last))
  {
    if subs != [] {
      SpaceSubsectionsShape(subs[1..], last);
      Heads();
      PaddedNoHead(subs[0].lines, true, !last || |subs| > 1, IsSubHead(Same));
      PaddedNoHead(subs[0].lines, true, !last || |subs| > 1, IsRelease(Same));
      assert SpaceSubsections(subs, last)[1..] == SpaceSubsections(subs[1..], last);
    }
  }

  lemma {:induction false} SpaceSectionsShape(sections: seq<ReleaseSection<Line>>)
    requires ShapedSections(sections)
    ensures ShapedSections(SpaceSections(sections))
  {
    if sections != [] {
      var s, last := sections[0], |sections| == 1;
      SpaceSectionsShape(sections[1..]);
      SpaceSubsectionsShape(s.subsections, last);
      Heads();
      PaddedNoHead(s.leading, s.leading != [], !last || s.subsections != [], IsSubHead(Same));
      PaddedNoHead(s.leading, s.leading != [], !last || s.subsections != [], IsRelease(Same));
      assert SpaceSections(sections)[1..] == SpaceSections(sections[1..]);
    }
  }

  lemma {:induction false} SpaceShape(d: Document<Line>)
    requires Shaped(d)
    ensures Shaped(Space(Tidy(d))) && Trimmed(Tidy(d).prefix) && TidySecs(Tidy(d).sections)
  {
    var t := Tidy(d);
    TrimIsTrimmed(d.prefix);
    TrimOfNoHead(d.prefix, IsRelease(Same));
    TidySectionsShape(d.sections);
    SpaceSectionsShape(t.sections);
    Heads();
    assert NoHead([EMPTY], IsRelease(Same)) by {
      assert [EMPTY][1..] == [];
    }
    PaddedNoHead(t.prefix, false, t.prefix != [], IsRelease(Same));
  }

  // ---------------------------------------------------------------- the round trip

  /** Parsing a printed document finds it again, up to blank margins and empty subsections. */
  lemma {:induction false} ParseOfPrint(d: Document<Line>)
    requires Shaped(d)
    ensures Tidy(ParseLines(Print(d), Same)) == Tidy(d)
  {
    SpaceShape(d);
    PrintTidy(d);
    PrintIsSpaced(Tidy(d));
    ParseOfLines(Space(Tidy(d)));
    TidyOfSpace(Tidy(d));
  }

  /** Printing is idempotent: a printed file, parsed and printed again, is the same file. */
  lemma {:induction false} PrintIsStable(content: seq<Line>)
    ensures var printed := Print(ParseLines(content, Same)); Print(ParseLines(printed, Same)) == printed
  {
    var d := ParseLines(content, Same);
    LinesOfParse(content);
    ParseOfPrint(d);
    PrintTidy(d);
    PrintTidy(ParseLines(Print(d), Same));
  }

  // ---------------------------------------------------------------- line numbers

  function SubsectionTexts(subs: seq<Subsection<NumberedLine>>): seq<Subsection<Line>> {
    if subs == [] then [] else [Subsection(subs[0].title, Untag(subs[0].lines, LineOf))] + SubsectionTexts(subs[1..])
  }

  function SectionText(s: ReleaseSection<NumberedLine>): ReleaseSection<Line> {
    ReleaseSection(s.title, s.rest, Untag(s.leading, LineOf), SubsectionTexts(s.subsections))
  }

  function SectionTexts(sections: seq<ReleaseSection<NumberedLine>>): seq<ReleaseSection<Line>> {
    if sections == [] then [] else [SectionText(sections[0])] + SectionTexts(sections[1..])
  }

  function DocumentText(d: Document<NumberedLine>): Document<Line> {
    Document(Untag(d.prefix, LineOf), SectionTexts(d.sections))
  }

  lemma {:induction false} HeadsOfNumbered(lines: seq<NumberedLine>)
    ensures forall i :: 0 <= i < |lines| ==> IsRelease(LineOf)(lines[i]) == IsRelease(Same)(LineOf(lines[i]))
    ensures forall i :: 0 <= i < |lines| ==> IsSubHead(LineOf)(lines[i]) == IsSubHead(Same)(LineOf(lines[i]))
  {
    Heads();
  }

  lemma {:induction false} SubsectionsText(parts: seq<Part<NumberedLine>>)
    ensures SubsectionTexts(SubsectionsOf(parts, LineOf)) == SubsectionsOf(UntagParts(parts, LineOf), Same)
  {
    if parts != [] {
      SubsectionsText(parts[1..]);
      assert SubsectionsOf(parts, LineOf)[1..] == SubsectionsOf(parts[1..], LineOf);
      assert UntagParts(parts, LineOf)[1..] == UntagParts(parts[1..], LineOf);
    }
  }

  lemma {:induction false} SectionOfText(p: Part<NumberedLine>)
    ensures SectionText(SectionOf(p, LineOf)) == SectionOf(Part(LineOf(p.head), Untag(p.body, LineOf)), Same)
  {
    HeadsOfNumbered(p.body);
    SplitUntag(p.body, LineOf, IsSubHead(Same), IsSubHead(LineOf));
    SubsectionsText(SplitOf(p.body, IsSubHead(LineOf)).parts);
  }

  lemma {:induction false} SectionsText(parts: seq<Part<NumberedLine>>)
    ensures SectionTexts(SectionsOf(parts, LineOf)) == SectionsOf(UntagParts(parts, LineOf), Same)
  {
    if parts != [] {
      SectionsText(parts[1..]);
      SectionOfText(parts[0]);
      assert SectionsOf(parts, LineOf)[1..] == SectionsOf(parts[1..], LineOf);
      assert UntagParts(parts, LineOf)[1..] == UntagParts(parts[1..], LineOf);
    }
  }

  lemma {:induction false} NumberText(content: seq<Line>, first: nat)
    ensures Untag(Number(content, first), LineOf) == content
  {
    if content != [] {
      NumberText(content[1..], first + 1);
      assert Number(content, first)[1..] == Number(content[1..], first + 1);
    }
  }

  /** Numbering the lines does not change what is parsed. */
  lemma {:induction false} ParsedText(content: seq<Line>)
    ensures DocumentText(ParseLines(Number(content, 1), LineOf)) == ParseLines(content, Same)
  {
    var lines := Number(content, 1);
    NumberText(content, 1);
    HeadsOfNumbered(lines);
    SplitUntag(lines, LineOf, IsRelease(Same), IsRelease(LineOf));
    SectionsText(SplitOf(lines, IsRelease(LineOf)).parts);
  }

  // ---------------------------------------------------------------- the archive footer

  /** `splitArchiveFooter` on a file's lines: the body, and the archive link if the last line that is not blank is one. */
  method SplitArchiveFooter(lines: seq<Line>, isLink: Line -> bool) returns (body: seq<Line>, archiveLink: Option<Line>)
    ensures (body, archiveLink) == SplitFooter(lines, isLink)
  {
    var end := SkipBlanks(lines, |lines|);
    assert lines[..|lines|] == lines;
    if end == 0 || !isLink(lines[end - 1]) {
      return lines, None;
    }
    var bodyEnd := SkipBlanks(lines, end - 1);
    assert TrimEnd(lines)[..end - 1] == lines[..end - 1];
    return if bodyEnd == 0 then [EMPTY] else lines[..bodyEnd], Some(lines[end - 1]);
  }

  /** Back over the blank lines before `from`. */
  method SkipBlanks(lines: seq<Line>, from: nat) returns (end: nat)
    requires from <= |lines|
    ensures end <= from && lines[..end] == TrimEnd(lines[..from])
  {
    end := from;
    while end > 0 && lines[end - 1].Blank?
      invariant end <= from && TrimEnd(lines[..end]) == TrimEnd(lines[..from])
    {
      assert lines[..end][..end - 1] == lines[..end - 1];
      end := end - 1;
    }
  }

  function SplitFooter(lines: seq<Line>, isLink: Line -> bool): (seq<Line>, Option<Line>) {
    var kept := TrimEnd(lines);
    if kept == [] || !isLink(kept[|kept| - 1]) then (lines, None)
    else
      var body := TrimEnd(kept[..|kept| - 1]);
      (if body == [] then [EMPTY] else body, Some(kept[|kept| - 1]))
  }

  function AppendFooter(body: seq<Line>, archiveLink: Line): seq<Line> {
    body + [EMPTY, archiveLink]
  }

  lemma {:induction false} TrimEndSame(lines: seq<Line>)
    ensures TrimEnd(lines) == lines <==> lines == [] || !lines[|lines| - 1].Blank?
  {
    TrimEndIs(lines);
    TrimEndShort(lines);
  }

  lemma {:induction false} TrimEndShort(lines: seq<Line>)
    ensures |TrimEnd(lines)| <= |lines|
  {
    TrimEndIs(lines);
  }

  /** Splitting undoes appending exactly for bodies without trailing blank lines, and for the empty file. */
  lemma {:induction false} FooterRoundTrip(body: seq<Line>, archiveLink: Line, isLink: Line -> bool)
    requires isLink(archiveLink) && !archiveLink.Blank?
    ensures SplitFooter(AppendFooter(body, archiveLink), isLink) == (body, Some(archiveLink)) <==>
            body == [EMPTY] || (body != [] && !body[|body| - 1].Blank?)
  {
    var lines := AppendFooter(body, archiveLink);
    assert TrimEnd(lines) == lines;
    assert lines[..|lines| - 1] == body + [EMPTY];
    TrimEndBeforeEmpty(body);
    TrimEndSame(body);
    TrimEndIs(body);
  }

  /** Every printed changelog is such a body. */
  lemma {:induction false} FooterOfPrinted(d: Document<Line>, archiveLink: Line, isLink: Line -> bool)
    requires Shaped(d) && isLink(archiveLink) && !archiveLink.Blank?
    ensures SplitFooter(AppendFooter(Print(d), archiveLink), isLink) == (Print(d), Some(archiveLink))
  {
    SpaceShape(d);
    PrintTidy(d);
    PrintEnds(Tidy(d));
    FooterRoundTrip(Print(d), archiveLink, isLink);
  }

  lemma {:induction false} PrintEnds(d: Document<Line>)
    requires Trimmed(d.prefix) && TidySecs(d.sections)
    ensures Print(d) == [EMPTY] || (Print(d) != [] && !Print(d)[|Print(d)| - 1].Blank?)
  {
    PrintIsSpaced(d);
    if d.sections != [] {
      SectionsEnd(d.sections);
    }
  }
}
