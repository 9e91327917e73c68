/** Every line of text of a changelog is in the fixed file, and no other (scripts/fix-changelogs.ts). */
module ChangelogText {
  import opened LineSplit
  import opened ChangelogDocument
  import opened ChangelogRender
  import opened ChangelogRoundTrip
  import opened ChangelogItems
  import opened ChangelogKeys
  import opened ChangelogNormalize
  import opened ChangelogMoves
  import opened ChangelogPromote
  import opened ChangelogFix
  import opened ChangelogConservation
  import opened ChangelogFixedFile
  import VersionOrder

  // ---------------------------------------------------------------- text of a document

  ghost predicate InSubsections(subs: seq<Subsection<Line>>, x: Line) {
    exists k :: 0 <= k < |subs| && x in Solid(subs[k].lines)
  }

  ghost predicate InBody(s: ReleaseSection<Line>, x: Line) {
    x in Solid(s.leading) || InSubsections(s.subsections, x)
  }

  ghost predicate InBodies(sections: seq<ReleaseSection<Line>>, x: Line) {
    exists i :: 0 <= i < |sections| && InBody(sections[i], x)
  }

  /** `x` stands before the first release, or in the leading text or a subsection of a section. */
  ghost predicate InDocument(d: Document<Line>, x: Line) {
    x in Solid(d.prefix) || InBodies(d.sections, x)
  }

  lemma {:induction false} SolidIs(lines: seq<Line>, x: Line)
    ensures x in Solid(lines) <==> x in lines && !x.Blank?
  {
    if lines != [] {
      SolidIs(lines[1..], x);
    }
  }

  lemma {:induction false} SubsectionsMore(subs: seq<Subsection<Line>>, x: Line)
    requires subs != []
    ensures InSubsections(subs, x) <==> x in Solid(subs[0].lines) || InSubsections(subs[1..], x)
  {
    if InSubsections(subs[1..], x) {
      var k :| 0 <= k < |subs[1..]| && x in Solid(subs[1..][k].lines);
      assert subs[k + 1] == subs[1..][k];
    }
    if InSubsections(subs, x) && x !in Solid(subs[0].lines) {
      var k :| 0 <= k < |subs| && x in Solid(subs[k].lines);
      assert subs[1..][k - 1] == subs[k];
    }
  }

  lemma {:induction false} BodiesMore(sections: seq<ReleaseSection<Line>>, x: Line)
    requires sections != []
    ensures InBodies(sections, x) <==> InBody(sections[0], x) || InBodies(sections[1..], x)
  {
    if InBodies(sections[1..], x) {
      var k :| 0 <= k < |sections[1..]| && InBody(sections[1..][k], x);
      assert sections[k + 1] == sections[1..][k];
    }
    if InBodies(sections, x) && !InBody(sections[0], x) {
      var k :| 0 <= k < |sections| && InBody(sections[k], x);
      assert sections[1..][k - 1] == sections[k];
    }
  }

  // ---------------------------------------------------------------- the lines of a document

  lemma {:induction false} SubsectionLinesHave(subs: seq<Subsection<Line>>, x: Line)
    requires !x.Blank? && NoHeading(x)
    ensures x in SubsectionLines(subs) <==> InSubsections(subs, x)
  {
    if subs != [] {
      SubsectionLinesHave(subs[1..], x);
      SubsectionsMore(subs, x);
      SolidIs(subs[0].lines, x);
    }
  }

  lemma {:induction false} SectionLinesHave(sections: seq<ReleaseSection<Line>>, x: Line)
    requires !x.Blank? && NoHeading(x)
    ensures x in SectionLines(sections) <==> InBodies(sections, x)
  {
    if sections != [] {
      SectionLinesHave(sections[1..], x);
      BodiesMore(sections, x);
      SubsectionLinesHave(sections[0].subsections, x);
      SolidIs(sections[0].leading, x);
    }
  }

  lemma {:induction false} PlainHas(lines: seq<Line>, x: Line)
    requires NoHeading(x)
    ensures x in Plain(lines) <==> x in lines
  {
    if lines != [] {
      PlainHas(lines[1..], x);
    }
  }

  /** Parsing finds exactly the text of the file. */
  lemma {:induction false} ParseFinds(content: seq<Line>, x: Line)
    requires !x.Blank? && NoHeading(x)
    ensures x in Solid(content) <==> InDocument(ParseLines(content, Same), x)
  {
    var d := ParseLines(content, Same);
    LinesOfParse(content);
    PlainHas(content, x);
    PlainHas(DocumentLines(d), x);
    SolidIs(content, x);
    SolidIs(d.prefix, x);
    SectionLinesHave(d.sections, x);
  }

  // ---------------------------------------------------------------- tidying

  lemma {:induction false} TidySubsectionsHave(subs: seq<Subsection<Line>>, x: Line)
    ensures InSubsections(TidySubsections(subs), x) <==> InSubsections(subs, x)
  {
    if subs != [] {
      var t := TidySubsections(subs);
      TidySubsectionsHave(subs[1..], x);
      SubsectionsMore(subs, x);
      SolidTrim(subs[0].lines);
      if Trim(subs[0].lines) != [] {
        SubsectionsMore(t, x);
        assert t[1..] == TidySubsections(subs[1..]);
      }
    }
  }

  lemma {:induction false} TidySectionsHave(sections: seq<ReleaseSection<Line>>, x: Line)
    ensures InBodies(TidySections(sections), x) <==> InBodies(sections, x)
  {
    if sections != [] {
      var t := TidySections(sections);
      TidySectionsHave(sections[1..], x);
      BodiesMore(sections, x);
      BodiesMore(t, x);
      assert t[1..] == TidySections(sections[1..]);
      SolidTrim(sections[0].leading);
      TidySubsectionsHave(sections[0].subsections, x);
    }
  }

  lemma {:induction false} TidyHas(d: Document<Line>, x: Line)
    ensures InDocument(Tidy(d), x) <==> InDocument(d, x)
  {
    SolidTrim(d.prefix);
    TidySectionsHave(d.sections, x);
  }

  // ---------------------------------------------------------------- numbered documents

  lemma {:induction false} SubsectionTextsAt(subs: seq<Sub>, k: nat)
    ensures |SubsectionTexts(subs)| == |subs|
    ensures k < |subs| ==> SubsectionTexts(subs)[k].lines == Texts(subs[k].lines)
  {
    if subs != [] {
      SubsectionTextsAt(subs[1..], if k > 0 then k - 1 else 0);
      assert SubsectionTexts(subs)[1..] == SubsectionTexts(subs[1..]);
    }
  }

  lemma {:induction false} SectionTextsAt(sections: seq<Section>, i: nat)
    ensures |SectionTexts(sections)| == |sections|
    ensures i < |sections| ==> SectionTexts(sections)[i] == SectionText(sections[i])
  {
    if sections != [] {
      SectionTextsAt(sections[1..], if i > 0 then i - 1 else 0);
      assert SectionTexts(sections)[1..] == SectionTexts(sections[1..]);
    }
  }

  lemma {:induction false} SectionTextHas(s: Section, x: Line)
    ensures InBody(SectionText(s), x) <==> x in Solid(Texts(s.leading)) || InSubs(s.subsections, x)
  {
    var subs := SubsectionTexts(s.subsections);
    SubsectionTextsAt(s.subsections, 0);
    forall k: nat | k < |subs| ensures subs[k].lines == Texts(s.subsections[k].lines) {
      SubsectionTextsAt(s.subsections, k);
    }
  }

  /** Text of numbered sections is leading text, or text under a heading. */
  lemma {:induction false} SectionTextsHave(sections: seq<Section>, x: Line)
    ensures InBodies(SectionTexts(sections), x) <==> InLeading(sections, x) || InSections(sections, x)
  {
    var texts := SectionTexts(sections);
    SectionTextsAt(sections, 0);
    forall i: nat | i < |texts|
      ensures InBody(texts[i], x) <==> x in Solid(Texts(sections[i].leading)) || InSubs(sections[i].subsections, x)
    {
      SectionTextsAt(sections, i);
      SectionTextHas(sections[i], x);
    }
  }

  // ---------------------------------------------------------------- leading text survives

  /** Every section is there after the promotion, with its leading text. */
  lemma {:induction false} LeadingPromoted(sections: seq<Section>, q: Test, i: nat) returns (p: nat)
    requires i < |sections|
    ensures p < |Promoted(sections, q, |sections|)| && Promoted(sections, q, |sections|)[p].leading == sections[i].leading
  {
    hide AddMoves, StripTo;
    FirstOfStripped(sections, q, |sections|);
    p := NowAt(sections, q, i);
    assert StripAll(sections, q, |sections|)[i].leading == sections[i].leading;
  }

  /** No section loses leading text. */
  lemma {:induction false} LeadingStays(content: seq<Line>, promotable: set<nat>, historical: set<Key>, parts: VersionOrder.Parts,
                                        t: seq<Section>, fixed: seq<Line>, x: Line)
    requires Fixes(content, promotable, historical, parts, t, fixed) && InLeading(Parsed(content).sections, x)
    ensures InLeading(Arrange(t, parts), x)
  {
    hide AddMoves, Arrange, StripTo, Promoted;
    var sections := Deduplicated(content, historical);
    var i :| 0 <= i < |Parsed(content).sections| && x in Solid(Texts(Parsed(content).sections[i].leading));
    assert sections[i].leading == Parsed(content).sections[i].leading;
    var p := LeadingPromoted(sections, StartIn(promotable), i);
    NormalSectionKeeps(Moved(content, promotable, historical)[p]);
    var j := ArrangedAt(t, parts, p);
  }

  // ---------------------------------------------------------------- the whole fix

  /** The text of the fixed file is that of the sections the fix left. */
  lemma {:induction false} FixedHas(content: seq<Line>, promotable: set<nat>, historical: set<Key>, parts: VersionOrder.Parts,
                                    t: seq<Section>, fixed: seq<Line>, x: Line)
    requires Fixes(content, promotable, historical, parts, t, fixed) && !x.Blank? && NoHeading(x)
    ensures x in Solid(fixed) <==>
            x in Solid(Texts(Parsed(content).prefix)) || InLeading(Arrange(t, parts), x) || InSections(Arrange(t, parts), x)
  {
    ParseFinds(fixed, x);
    TidyHas(ParseLines(fixed, Same), x);
    FixedFileReadsBack(content, promotable, historical, parts, t, fixed);
    TidyHas(FixedText(content, parts, t), x);
    SectionTextsHave(Arrange(t, parts), x);
  }

  /** The text of the file is that of its sections. */
  lemma {:induction false} ContentHas(content: seq<Line>, x: Line)
    requires !x.Blank? && NoHeading(x)
    ensures x in Solid(content) <==>
            var d := Parsed(content); x in Solid(Texts(d.prefix)) || InLeading(d.sections, x) || InSections(d.sections, x)
  {
    ParseFinds(content, x);
    ParsedText(content);
    SectionTextsHave(Parsed(content).sections, x);
  }

  /**
   Without historical entries, the lines of text of the fixed file are exactly those of the file it was given: before
   the first release, as leading text of any section, and under any heading.
   */
  lemma {:induction false} FixKeepsText(content: seq<Line>, promotable: set<nat>, parts: VersionOrder.Parts, t: seq<Section>,
                                        fixed: seq<Line>, x: Line)
    requires Fixes(content, promotable, {}, parts, t, fixed) && NoHeading(x)
    ensures x in Solid(fixed) <==> x in Solid(content)
  {
    if x.Blank? {
      SolidIs(fixed, x);
      SolidIs(content, x);
    } else {
      hide Fixes, InLeading, InSections;
      FixedHas(content, promotable, {}, parts, t, fixed, x);
      ContentHas(content, x);
      TextIsConserved(content, promotable, parts, t, fixed, x);
      if InLeading(Arrange(t, parts), x) {
        LeadingKept(content, promotable, {}, parts, t, fixed, x);
      }
      if InLeading(Parsed(content).sections, x) {
        LeadingStays(content, promotable, {}, parts, t, fixed, x);
      }
    }
  }

  /** With historical entries, no line of text of the fixed file is new. */
  lemma {:induction false} FixInventsNoText(content: seq<Line>, promotable: set<nat>, historical: set<Key>, parts: VersionOrder.Parts,
                                            t: seq<Section>, fixed: seq<Line>, x: Line)
    requires Fixes(content, promotable, historical, parts, t, fixed) && NoHeading(x) && x in Solid(fixed)
    ensures x in Solid(content)
  {
    SolidIs(fixed, x);
    hide Fixes, InLeading, InSections;
    FixedHas(content, promotable, historical, parts, t, fixed, x);
    ContentHas(content, x);
    if InLeading(Arrange(t, parts), x) {
      LeadingKept(content, promotable, historical, parts, t, fixed, x);
    } else if InSections(Arrange(t, parts), x) {
      NothingInvented(content, promotable, historical, parts, t, fixed, x);
    }
  }

  // ---------------------------------------------------------------- the sections of the fixed file

  lemma {:induction false} TidySectionsAt(sections: seq<ReleaseSection<Line>>, i: nat)
    ensures |TidySections(sections)| == |sections|
    ensures i < |sections| ==> TidySections(sections)[i] == TidySection(sections[i])
  {
    if sections != [] {
      TidySectionsAt(sections[1..], if i > 0 then i - 1 else 0);
    }
  }

  /** Two lists of sections that print alike. */
  ghost predicate Alike(a: seq<Section>, b: seq<Section>) {
    |a| == |b| && forall i :: 0 <= i < |a| ==> TidySection(SectionText(a[i])) == TidySection(SectionText(b[i]))
  }

  lemma {:induction false} TidyAlike(a: seq<Section>, b: seq<Section>)
    requires TidySections(SectionTexts(a)) == TidySections(SectionTexts(b))
    ensures Alike(a, b)
  {
    SectionTextsAt(a, 0);
    SectionTextsAt(b, 0);
    TidySectionsAt(SectionTexts(a), 0);
    TidySectionsAt(SectionTexts(b), 0);
    hide TidySection, SectionText, TidySections, SectionTexts;
    forall i | 0 <= i < |a| ensures TidySection(SectionText(a[i])) == TidySection(SectionText(b[i])) {
      SectionTextsAt(a, i);
      SectionTextsAt(b, i);
      TidySectionsAt(SectionTexts(a), i);
      TidySectionsAt(SectionTexts(b), i);
    }
  }

  /** What parsing finds in the fixed file. */
  lemma {:induction false} FixedParsed(content: seq<Line>, promotable: set<nat>, historical: set<Key>, parts: VersionOrder.Parts)
    ensures var fixed := FixedContent(content, promotable, historical, parts);
            && Alike(Parsed(fixed).sections, Arrange(FixedSections(content, promotable, historical), parts))
            && Trim(Texts(Parsed(fixed).prefix)) == Trim(Texts(Parsed(content).prefix))
  {
    var t, fixed := FixedSections(content, promotable, historical), FixedContent(content, promotable, historical, parts);
    FixedFileReadsBack(content, promotable, historical, parts, t, fixed);
    ParsedText(fixed);
    hide FixedSections, FixedContent, Parsed, Arrange, TidySections, SectionTexts;
    TidyAlike(Parsed(fixed).sections, Arrange(t, parts));
  }

  /** In the fixed file [Unreleased] stands before all releases, and no release before a newer one. */
  lemma {:induction false} FixedIsOrdered(content: seq<Line>, promotable: set<nat>, historical: set<Key>, parts: VersionOrder.Parts,
                                          i: nat, j: nat)
    requires i < j < |Parsed(FixedContent(content, promotable, historical, parts)).sections|
    ensures var now := Parsed(FixedContent(content, promotable, historical, parts)).sections;
            && (now[j].title == UNRELEASED ==> now[i].title == UNRELEASED)
            && (now[i].title != UNRELEASED ==> !VersionOrder.Newer(parts(now[j].title), parts(now[i].title)))
  {
    var now, t := Parsed(FixedContent(content, promotable, historical, parts)).sections, FixedSections(content, promotable, historical);
    FixedParsed(content, promotable, historical, parts);
    var a := Arrange(t, parts);
    assert TidySection(SectionText(now[i])) == TidySection(SectionText(a[i]));
    assert TidySection(SectionText(now[j])) == TidySection(SectionText(a[j]));
    assert now[i].title == a[i].title && now[j].title == a[j].title;
    hide *;
    NewestFirst(t, parts, i, j);
  }
}
