/** The file the changelog fixer writes, read again (scripts/fix-changelogs.ts). */
module ChangelogFixedFile {
  import opened LineSplit
  import opened ChangelogDocument
  import opened ChangelogRender
  import opened ChangelogRoundTrip
  import opened ChangelogItems
  import opened ChangelogKeys
  import opened ChangelogNormalize
  import opened ChangelogMoves
  import opened ChangelogPromote
  import opened ChangelogFix
  import opened ChangelogConservation
  import VersionOrder

  // ---------------------------------------------------------------- reading the fixed file

  lemma {:induction false} NoHeadFromSolid(lines: seq<Line>, head: Line -> bool)
    requires (forall x :: x in Solid(lines) ==> !head(x)) && forall spaces :: !head(Blank(spaces))
    ensures NoHead(lines, head)
  {
    if lines != [] {
      assert lines[0].Blank? ==> lines[0] == Blank(lines[0].spaces);
      assert forall x :: x in Solid(lines[1..]) ==> x in Solid(lines);
      NoHeadFromSolid(lines[1..], head);
    }
  }

  lemma {:induction false} NoHeadInSolid(lines: seq<Line>, head: Line -> bool, x: Line)
    requires NoHead(lines, head) && x in Solid(lines)
    ensures !head(x)
  {
    if x != lines[0] {
      NoHeadInSolid(lines[1..], head, x);
    }
  }

  ghost predicate NoHeading(x: Line) {
    !x.Release? && !x.SubHead?
  }

  lemma {:induction false} ShapedSubsAt(subs: seq<Sub>, k: nat)
    requires ShapedSubsections(SubsectionTexts(subs)) && k < |subs|
    ensures NoHead(Texts(subs[k].lines), IsSubHead(Same)) && NoHead(Texts(subs[k].lines), IsRelease(Same))
  {
    assert SubsectionTexts(subs)[1..] == SubsectionTexts(subs[1..]);
    if k > 0 {
      ShapedSubsAt(subs[1..], k - 1);
    }
  }

  lemma {:induction false} ShapedAt(sections: seq<Section>, i: nat)
    requires ShapedSections(SectionTexts(sections)) && i < |sections|
    ensures ShapedSection(SectionText(sections[i]))
  {
    assert SectionTexts(sections)[1..] == SectionTexts(sections[1..]);
    if i > 0 {
      ShapedAt(sections[1..], i - 1);
    }
  }

  lemma {:induction false} ParsedIsShaped(content: seq<Line>)
    ensures Shaped(DocumentText(Parsed(content)))
  {
    ParsedText(content);
    LinesOfParse(content);
  }

  /** No line of text of a parsed file is a heading. */
  lemma {:induction false} ParsedHasNoHeading(content: seq<Line>, x: Line)
    requires InSections(Parsed(content).sections, x)
    ensures NoHeading(x)
  {
    var sections := Parsed(content).sections;
    ParsedIsShaped(content);
    Heads();
    var i :| 0 <= i < |sections| && InSubs(sections[i].subsections, x);
    var k :| 0 <= k < |sections[i].subsections| && x in Solid(Texts(sections[i].subsections[k].lines));
    ShapedAt(sections, i);
    ShapedSubsAt(sections[i].subsections, k);
    NoHeadInSolid(Texts(sections[i].subsections[k].lines), IsSubHead(Same), x);
    NoHeadInSolid(Texts(sections[i].subsections[k].lines), IsRelease(Same), x);
  }

  /** A line of leading text in some section. */
  ghost predicate InLeading(sections: seq<Section>, x: Line) {
    exists i :: 0 <= i < |sections| && x in Solid(Texts(sections[i].leading))
  }

  lemma {:induction false} ParsedLeading(content: seq<Line>, x: Line)
    requires InLeading(Parsed(content).sections, x)
    ensures NoHeading(x)
  {
    var sections := Parsed(content).sections;
    ParsedIsShaped(content);
    Heads();
    var i :| 0 <= i < |sections| && x in Solid(Texts(sections[i].leading));
    ShapedAt(sections, i);
    NoHeadInSolid(Texts(sections[i].leading), IsSubHead(Same), x);
    NoHeadInSolid(Texts(sections[i].leading), IsRelease(Same), x);
  }

  lemma {:induction false} ArrangedLeading(t: seq<Section>, parts: VersionOrder.Parts, x: Line) returns (p: nat)
    requires InLeading(Arrange(t, parts), x)
    ensures p < |t| && x in Solid(Texts(t[p].leading))
  {
    hide Arrange, Solid, Texts;
    var r := Arrange(t, parts);
    var j :| 0 <= j < |r| && x in Solid(Texts(r[j].leading));
    ArrangePermutes(t, parts);
    assert r[j] in multiset(t);
    p :| 0 <= p < |t| && t[p] == r[j];
  }

  /** Leading text stays with its section. */
  lemma {:induction false} LeadingKept(content: seq<Line>, promotable: set<nat>, historical: set<Key>, parts: VersionOrder.Parts,
                                       t: seq<Section>, fixed: seq<Line>, x: Line)
    requires Fixes(content, promotable, historical, parts, t, fixed) && InLeading(Arrange(t, parts), x)
    ensures InLeading(Parsed(content).sections, x)
  {
    hide AddMoves, Arrange, StripTo, Parsed, Promoted;
    var sections, now := Deduplicated(content, historical), Moved(content, promotable, historical);
    var p := ArrangedLeading(t, parts, x);
    NormalSectionKeeps(now[p]);
    MovedLeading(sections, StartIn(promotable), p, x);
    var i :| 0 <= i < |sections| && x in Solid(Texts(sections[i].leading));
    assert sections[i].leading == Parsed(content).sections[i].leading;
  }

  lemma {:induction false} MovedLeading(sections: seq<Section>, q: Test, p: nat, x: Line)
    requires p < |Promoted(sections, q, |sections|)| && x in Solid(Texts(Promoted(sections, q, |sections|)[p].leading))
    ensures InLeading(sections, x)
  {
    hide AddMoves, StripTo;
    FirstOfStripped(sections, q, |sections|);
    assert Texts([]) == [];
    var i := if Created(sections, q, |sections|) then p - 1 else p;
    assert i >= 0;
    assert x in Solid(Texts(sections[i].leading));
  }

  lemma {:induction false} NoHeadingsInside(lines: seq<Line>)
    requires forall x :: x in Solid(lines) ==> NoHeading(x)
    ensures NoHead(lines, IsSubHead(Same)) && NoHead(lines, IsRelease(Same))
  {
    Heads();
    NoHeadFromSolid(lines, IsSubHead(Same));
    NoHeadFromSolid(lines, IsRelease(Same));
  }

  lemma {:induction false} ShapedSubsFrom(subs: seq<Sub>)
    requires forall k, x :: 0 <= k < |subs| && x in Solid(Texts(subs[k].lines)) ==> NoHeading(x)
    ensures ShapedSubsections(SubsectionTexts(subs))
  {
    if subs != [] {
      NoHeadingsInside(Texts(subs[0].lines));
      ShapedSubsFrom(subs[1..]);
      assert SubsectionTexts(subs)[1..] == SubsectionTexts(subs[1..]);
    }
  }

  lemma {:induction false} ShapedFrom(sections: seq<Section>)
    requires forall i :: 0 <= i < |sections| ==> ShapedSection(SectionText(sections[i]))
    ensures ShapedSections(SectionTexts(sections))
  {
    if sections != [] {
      ShapedFrom(sections[1..]);
      assert SectionTexts(sections)[1..] == SectionTexts(sections[1..]);
    }
  }

  /** The sections of the fixed file, as text. */
  function FixedText(content: seq<Line>, parts: VersionOrder.Parts, t: seq<Section>): Document<Line> {
    DocumentText(Document(Parsed(content).prefix, Arrange(t, parts)))
  }

  lemma {:induction false} FixedIsShaped(content: seq<Line>, promotable: set<nat>, historical: set<Key>, parts: VersionOrder.Parts,
                                         t: seq<Section>, fixed: seq<Line>)
    requires Fixes(content, promotable, historical, parts, t, fixed)
    ensures Shaped(FixedText(content, parts, t))
  {
    var r := Arrange(t, parts);
    ParsedIsShaped(content);
    forall i | 0 <= i < |r| ensures ShapedSection(SectionText(r[i])) {
      forall x | x in Solid(Texts(r[i].leading)) ensures NoHeading(x) {
        LeadingKept(content, promotable, historical, parts, t, fixed, x);
        ParsedLeading(content, x);
      }
      NoHeadingsInside(Texts(r[i].leading));
      forall k, x | 0 <= k < |r[i].subsections| && x in Solid(Texts(r[i].subsections[k].lines)) ensures NoHeading(x) {
        assert InSubs(r[i].subsections, x);
        NothingInvented(content, promotable, historical, parts, t, fixed, x);
        ParsedHasNoHeading(content, x);
      }
      ShapedSubsFrom(r[i].subsections);
    }
    ShapedFrom(r);
  }

  /**
   Reading the fixed file finds the sections the fix left, up to blank margins and empty subsections, and printing them
   gives the file again.
   */
  lemma {:induction false} FixedFileReadsBack(content: seq<Line>, promotable: set<nat>, historical: set<Key>, parts: VersionOrder.Parts,
                                              t: seq<Section>, fixed: seq<Line>)
    requires Fixes(content, promotable, historical, parts, t, fixed)
    ensures Tidy(ParseLines(fixed, Same)) == Tidy(FixedText(content, parts, t))
    ensures Print(ParseLines(fixed, Same)) == fixed
  {
    FixedIsShaped(content, promotable, historical, parts, t, fixed);
    ParseOfPrint(FixedText(content, parts, t));
    PrintTidy(FixedText(content, parts, t));
    PrintTidy(ParseLines(fixed, Same));
  }
}
