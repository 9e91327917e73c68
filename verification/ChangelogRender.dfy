/** Printing a changelog, and why printing a parsed one again changes nothing (scripts/fix-changelogs.ts). */
module ChangelogRender {
  import opened LineSplit
  import opened ChangelogDocument

  // ---------------------------------------------------------------- trimming

  function TrimStart(lines: seq<Line>): seq<Line> {
    if lines != [] && lines[0].Blank? then TrimStart(lines[1..]) else lines
  }

  function TrimEnd(lines: seq<Line>): seq<Line> {
    if lines != [] && lines[|lines| - 1].Blank? then TrimEnd(lines[..|lines| - 1]) else lines
  }

  function Trim(lines: seq<Line>): seq<Line> {
    TrimEnd(TrimStart(lines))
  }

  predicate Trimmed(lines: seq<Line>) {
    lines == [] || (!lines[0].Blank? && !lines[|lines| - 1].Blank?)
  }

  lemma {:induction false} TrimStartDone(lines: seq<Line>, start: nat)
    requires start <= |lines| && TrimStart(lines[start..]) == TrimStart(lines)
    requires start == |lines| || !lines[start].Blank?
    ensures lines[start..|lines|] == TrimStart(lines)
  {
    assert lines[start..|lines|] == lines[start..];
  }

  method TrimBlankLines(lines: seq<Line>) returns (r: seq<Line>)
    ensures r == Trim(lines)
  {
    var start, end := 0, |lines|;
    while start < end && lines[start].Blank?
      invariant start <= end
      invariant TrimStart(lines[start..]) == TrimStart(lines)
    {
      assert lines[start..][1..] == lines[start + 1..];
      start := start + 1;
    }
    TrimStartDone(lines, start);
    while end > start && lines[end - 1].Blank?
      invariant start <= end <= |lines|
      invariant TrimEnd(lines[start..end]) == Trim(lines)
    {
      assert lines[start..end][..end - start - 1] == lines[start..end - 1];
      end := end - 1;
    }
    return lines[start..end];
  }

  lemma {:induction false} TrimStartIs(lines: seq<Line>)
    ensures var r := TrimStart(lines); r == [] || !r[0].Blank?
  {
    if lines != [] && lines[0].Blank? {
      TrimStartIs(lines[1..]);
    }
  }

  lemma {:induction false} TrimEndIs(lines: seq<Line>)
    ensures var r := TrimEnd(lines); r <= lines && (r == [] || !r[|r| - 1].Blank?)
  {
    if lines != [] && lines[|lines| - 1].Blank? {
      TrimEndIs(lines[..|lines| - 1]);
    }
  }

  lemma {:induction false} TrimIsTrimmed(lines: seq<Line>)
    ensures Trimmed(Trim(lines))
  {
    TrimStartIs(lines);
    TrimEndIs(TrimStart(lines));
  }

  lemma {:induction false} TrimOfTrimmed(lines: seq<Line>)
    requires Trimmed(lines)
    ensures Trim(lines) == lines
  {
  }

  lemma {:induction false} TrimStartOfNoHead(lines: seq<Line>, head: Line -> bool)
    requires NoHead(lines, head)
    ensures NoHead(TrimStart(lines), head)
  {
    if lines != [] && lines[0].Blank? {
      TrimStartOfNoHead(lines[1..], head);
    }
  }

  lemma {:induction false} NoHeadTake(lines: seq<Line>, n: nat, head: Line -> bool)
    requires NoHead(lines, head) && n <= |lines|
    ensures NoHead(lines[..n], head)
  {
    assert lines == lines[..n] + lines[n..];
    NoHeadSplit(lines[..n], lines[n..], head);
  }

  lemma {:induction false} TrimOfNoHead(lines: seq<Line>, head: Line -> bool)
    requires NoHead(lines, head)
    ensures NoHead(Trim(lines), head)
  {
    TrimStartOfNoHead(lines, head);
    TrimEndIs(TrimStart(lines));
    NoHeadTake(TrimStart(lines), |Trim(lines)|, head);
    assert TrimStart(lines)[..|Trim(lines)|] == Trim(lines);
  }

  lemma {:induction false} TrimStartAfterEmpty(lines: seq<Line>)
    ensures TrimStart([EMPTY] + lines) == TrimStart(lines)
  {
    assert ([EMPTY] + lines)[1..] == lines;
  }

  lemma {:induction false} TrimEndBeforeEmpty(lines: seq<Line>)
    ensures TrimEnd(lines + [EMPTY]) == TrimEnd(lines)
  {
    assert (lines + [EMPTY])[..|lines + [EMPTY]| - 1] == lines;
  }

  lemma {:induction false} TrimAfter(lines: seq<Line>)
    requires Trimmed(lines)
    ensures Trim(lines + [EMPTY]) == lines
  {
    if lines == [] {
      TrimStartAfterEmpty([]);
      assert lines + [EMPTY] == [EMPTY] + [];
    } else {
      assert TrimStart(lines + [EMPTY]) == lines + [EMPTY];
      TrimEndBeforeEmpty(lines);
    }
  }

  /** Blank lines around a block are trimmed away again. */
  lemma {:induction false} TrimPadded(lines: seq<Line>, before: bool, after: bool)
    requires Trimmed(lines)
    ensures Trim((if before then [EMPTY] else []) + lines + (if after then [EMPTY] else [])) == lines
  {
    var tail := lines + if after then [EMPTY] else [];
    assert Trim(tail) == lines by {
      if after {
        TrimAfter(lines);
      } else {
        assert tail == lines;
      }
    }
    if before {
      TrimStartAfterEmpty(tail);
      assert [EMPTY] + lines + (if after then [EMPTY] else []) == [EMPTY] + tail;
    } else {
      assert [] + lines + (if after then [EMPTY] else []) == tail;
    }
  }

  // ---------------------------------------------------------------- printing

  function PrintSubsections(subs: seq<Subsection<Line>>): seq<Line> {
    if subs == [] then []
    else
      var lines := Trim(subs[0].lines);
      (if lines == [] then [] else [EMPTY, SubHead(subs[0].title, ""), EMPTY] + lines) + PrintSubsections(subs[1..])
  }

  function PrintSection(s: ReleaseSection<Line>): seq<Line> {
    var leading := Trim(s.leading);
    [s.Heading()] + (if leading == [] then [] else [EMPTY] + leading) + PrintSubsections(s.subsections) + [EMPTY]
  }

  function PrintSections(sections: seq<ReleaseSection<Line>>): seq<Line> {
    if sections == [] then [] else PrintSection(sections[0]) + PrintSections(sections[1..])
  }

  function PrintPrefix(prefix: seq<Line>): seq<Line> {
    if Trim(prefix) == [] then [] else Trim(prefix) + [EMPTY]
  }

  /** `while (output[output.length - 1] === "") output.pop()` */
  function PopEmpty(lines: seq<Line>): seq<Line> {
    if lines != [] && lines[|lines| - 1] == EMPTY then PopEmpty(lines[..|lines| - 1]) else lines
  }

  /** The lines of the printed file: a file always has one, even if it is empty. */
  function Print(d: Document<Line>): seq<Line> {
    var output := PopEmpty(PrintPrefix(d.prefix) + PrintSections(d.sections));
    if output == [] then [EMPTY] else output
  }

  method RenderChangelog(d: Document<Line>) returns (output: seq<Line>)
    ensures output == Print(d)
  {
    output := [];
    var prefix := TrimBlankLines(d.prefix);
    if |prefix| > 0 {
      output := output + prefix + [EMPTY];
    }
    assert output == PrintPrefix(d.prefix);
    output := RenderSections(d.sections, output);
    while |output| > 0 && output[|output| - 1] == EMPTY
      invariant PopEmpty(output) == PopEmpty(PrintPrefix(d.prefix) + PrintSections(d.sections))
    {
      output := output[..|output| - 1];
    }
    if output == [] {
      output := [EMPTY];
    }
  }

  method RenderSections(sections: seq<ReleaseSection<Line>>, output0: seq<Line>) returns (output: seq<Line>)
    ensures output == output0 + PrintSections(sections)
  {
    output := output0;
    for i := 0 to |sections|
      invariant output + PrintSections(sections[i..]) == output0 + PrintSections(sections)
    {
      assert sections[i..][1..] == sections[i + 1..];
      output := RenderSection(sections[i], output);
    }
    assert sections[|sections|..] == [];
  }

  method RenderSection(s: ReleaseSection<Line>, output0: seq<Line>) returns (output: seq<Line>)
    ensures output == output0 + PrintSection(s)
  {
    output := output0 + [s.Heading()];
    var leading := TrimBlankLines(s.leading);
    if |leading| > 0 {
      output := output + ([EMPTY] + leading);
    }
    output := RenderSubsections(s.subsections, output);
    output := output + [EMPTY];
    PrintSectionParts(s, output0);
  }

  lemma {:induction false} PrintSectionParts(s: ReleaseSection<Line>, output0: seq<Line>)
    ensures var leading := Trim(s.leading);
            output0 + PrintSection(s) ==
              output0 + [s.Heading()] + (if leading == [] then [] else [EMPTY] + leading) + PrintSubsections(s.subsections) + [EMPTY]
  {
  }

  method RenderSubsections(subs: seq<Subsection<Line>>, output0: seq<Line>) returns (output: seq<Line>)
    ensures output == output0 + PrintSubsections(subs)
  {
    output := output0;
    for i := 0 to |subs|
      invariant output + PrintSubsections(subs[i..]) == output0 + PrintSubsections(subs)
    {
      assert subs[i..][1..] == subs[i + 1..];
      var lines := TrimBlankLines(subs[i].lines);
      if |lines| == 0 {
        continue;
      }
      output := output + ([EMPTY, SubHead(subs[i].title, ""), EMPTY] + lines);
    }
    assert subs[|subs|..] == [];
  }

  // ---------------------------------------------------------------- what printing keeps

  function TidySubsections(subs: seq<Subsection<Line>>): seq<Subsection<Line>> {
    if subs == [] then []
    else if Trim(subs[0].lines) == [] then TidySubsections(subs[1..])
    else [Subsection(subs[0].title, Trim(subs[0].lines))] + TidySubsections(subs[1..])
  }

  function TidySection(s: ReleaseSection<Line>): ReleaseSection<Line> {
    ReleaseSection(s.title, s.rest, Trim(s.leading), TidySubsections(s.subsections))
  }

  function TidySections(sections: seq<ReleaseSection<Line>>): seq<ReleaseSection<Line>> {
    if sections == [] then [] else [TidySection(sections[0])] + TidySections(sections[1..])
  }

  /** A document without the blank lines around its blocks, and without empty subsections. */
  function Tidy(d: Document<Line>): Document<Line> {
    Document(Trim(d.prefix), TidySections(d.sections))
  }

  lemma {:induction false} PrintSubsectionsTidy(subs: seq<Subsection<Line>>)
    ensures PrintSubsections(TidySubsections(subs)) == PrintSubsections(subs)
  {
    if subs != [] {
      PrintSubsectionsTidy(subs[1..]);
      var lines := Trim(subs[0].lines);
      if lines != [] {
        TrimIsTrimmed(subs[0].lines);
        TrimOfTrimmed(lines);
        assert TidySubsections(subs)[1..] == TidySubsections(subs[1..]);
      }
    }
  }

  lemma {:induction false} PrintSectionsTidy(sections: seq<ReleaseSection<Line>>)
    ensures PrintSections(TidySections(sections)) == PrintSections(sections)
  {
    if sections != [] {
      PrintSectionsTidy(sections[1..]);
      PrintSubsectionsTidy(sections[0].subsections);
      TrimIsTrimmed(sections[0].leading);
      TrimOfTrimmed(Trim(sections[0].leading));
      assert TidySections(sections)[1..] == TidySections(sections[1..]);
    }
  }

  /** Documents that differ in blank margins and empty subsections only print alike. */
  lemma {:induction false} PrintTidy(d: Document<Line>)
    ensures Print(Tidy(d)) == Print(d)
  {
    PrintSectionsTidy(d.sections);
    TrimIsTrimmed(d.prefix);
    TrimOfTrimmed(Trim(d.prefix));
  }

  // ---------------------------------------------------------------- parsing what was printed

  function Padded(lines: seq<Line>, before: bool, after: bool): seq<Line> {
    (if before then [EMPTY] else []) + lines + (if after then [EMPTY] else [])
  }

  /** The subsections of a tidy document as printed: a blank line above each block, and below it unless the file ends. */
  function SpaceSubsections(subs: seq<Subsection<Line>>, last: bool): seq<Subsection<Line>> {
    if subs == [] then []
    else [Subsection(subs[0].title, Padded(subs[0].lines, true, !last || |subs| > 1))] + SpaceSubsections(subs[1..], last)
  }

  function SpaceSection(s: ReleaseSection<Line>, last: bool): ReleaseSection<Line> {
    ReleaseSection(s.title, s.rest, Padded(s.leading, s.leading != [], !last || s.subsections != []),
                   SpaceSubsections(s.subsections, last))
  }

  function SpaceSections(sections: seq<ReleaseSection<Line>>): seq<ReleaseSection<Line>> {
    if sections == [] then [] else [SpaceSection(sections[0], |sections| == 1)] + SpaceSections(sections[1..])
  }

  predicate TidySubs(subs: seq<Subsection<Line>>) {
    subs == [] || (subs[0].lines != [] && Trimmed(subs[0].lines) && TidySubs(subs[1..]))
  }

  predicate TidySecs(sections: seq<ReleaseSection<Line>>) {
    sections == [] || (Trimmed(sections[0].leading) && TidySubs(sections[0].subsections) && TidySecs(sections[1..]))
  }

  // printing is laying out the spaced document

  lemma {:induction false} SubsectionJoin(head: Line, lines: seq<Line>, pad: seq<Line>, rest: seq<Line>, tail: seq<Line>, printed: seq<Line>)
    requires pad + rest + tail == printed + [EMPTY]
    ensures [EMPTY] + ([head] + ([EMPTY] + lines + pad) + rest) + tail == [EMPTY, head, EMPTY] + lines + printed + [EMPTY]
  {
    assert [EMPTY] + ([head] + ([EMPTY] + lines + pad) + rest) + tail == [EMPTY, head, EMPTY] + lines + (pad + rest + tail);
  }

  lemma {:induction false} PrintSubsectionsSpaced(subs: seq<Subsection<Line>>, last: bool)
    requires TidySubs(subs) && subs != []
    ensures [EMPTY] + SubsectionLines(SpaceSubsections(subs, last)) + (if last then [EMPTY] else []) ==
            PrintSubsections(subs) + [EMPTY]
  {
    var lines, head, tail := subs[0].lines, SubHead(subs[0].title, ""), if last then [EMPTY] else [];
    var pad := if !last || |subs| > 1 then [EMPTY] else [];
    TrimOfTrimmed(lines);
    assert SpaceSubsections(subs, last)[1..] == SpaceSubsections(subs[1..], last);
    var rest := SubsectionLines(SpaceSubsections(subs[1..], last));
    if |subs| > 1 {
      PrintSubsectionsSpaced(subs[1..], last);
    } else {
      assert rest == [] && PrintSubsections(subs[1..]) == [];
    }
    SubsectionJoin(head, lines, pad, rest, tail, PrintSubsections(subs[1..]));
  }

  lemma {:induction false} SectionJoin(head: Line, leading: seq<Line>, pad: seq<Line>, subs: seq<Line>, tail: seq<Line>, printed: seq<Line>)
    requires pad + subs + tail == printed + [EMPTY]
    ensures [head] + ((leading + pad) + subs) + tail == [head] + leading + printed + [EMPTY]
  {
    assert [head] + ((leading + pad) + subs) + tail == [head] + leading + (pad + subs + tail);
  }

  lemma {:induction false} PrintSectionSpaced(s: ReleaseSection<Line>, last: bool)
    requires Trimmed(s.leading) && TidySubs(s.subsections)
    ensures [s.Heading()] + SectionBody(SpaceSection(s, last)) + (if last then [EMPTY] else []) == PrintSection(s)
  {
    TrimOfTrimmed(s.leading);
    var leading, tail := if s.leading == [] then [] else [EMPTY] + s.leading, if last then [EMPTY] else [];
    var pad := if !last || s.subsections != [] then [EMPTY] else [];
    var subs := SubsectionLines(SpaceSubsections(s.subsections, last));
    if s.subsections == [] {
      assert subs == [] && PrintSubsections(s.subsections) == [];
    } else {
      PrintSubsectionsSpaced(s.subsections, last);
    }
    SectionJoin(s.Heading(), leading, pad, subs, tail, PrintSubsections(s.subsections));
    assert SpaceSection(s, last).leading == leading + pad;
  }

  lemma {:induction false} SectionsJoin(first: seq<Line>, tail: seq<Line>, rest: seq<Line>, printedFirst: seq<Line>, printedRest: seq<Line>)
    requires first + tail == printedFirst && tail + printedRest == rest + [EMPTY]
    requires tail == [] || (rest == [] && printedRest == [])
    ensures first + rest + [EMPTY] == printedFirst + printedRest
  {
    assert first + rest + [EMPTY] == first + (rest + [EMPTY]);
    assert first + (tail + printedRest) == (first + tail) + printedRest;
  }

  lemma {:induction false} PrintSectionsSpaced(sections: seq<ReleaseSection<Line>>)
    requires TidySecs(sections) && sections != []
    ensures SectionLines(SpaceSections(sections)) + [EMPTY] == PrintSections(sections)
  {
    var last := |sections| == 1;
    var first := [sections[0].Heading()] + SectionBody(SpaceSection(sections[0], last));
    var rest := SectionLines(SpaceSections(sections[1..]));
    PrintSectionSpaced(sections[0], last);
    assert SpaceSections(sections)[1..] == SpaceSections(sections[1..]);
    if last {
      assert rest == [] && PrintSections(sections[1..]) == [];
    } else {
      PrintSectionsSpaced(sections[1..]);
    }
    SectionsJoin(first, if last then [EMPTY] else [], rest, PrintSection(sections[0]), PrintSections(sections[1..]));
  }

  /** A printed section does not end in a blank line of its own. */
  lemma {:induction false} SubsectionsEnd(subs: seq<Subsection<Line>>)
    requires TidySubs(subs) && subs != []
    ensures var lines := SubsectionLines(SpaceSubsections(subs, true)); lines != [] && !lines[|lines| - 1].Blank?
  {
    var lines := SubsectionLines(SpaceSubsections(subs, true));
    assert SpaceSubsections(subs, true)[1..] == SpaceSubsections(subs[1..], true);
    if |subs| > 1 {
      SubsectionsEnd(subs[1..]);
    } else {
      assert SpaceSubsections(subs, true)[1..] == [];
      assert lines == [SubHead(subs[0].title, "")] + Padded(subs[0].lines, true, false);
    }
  }

  lemma {:induction false} SectionsEnd(sections: seq<ReleaseSection<Line>>)
    requires TidySecs(sections) && sections != []
    ensures var lines := SectionLines(SpaceSections(sections)); lines != [] && !lines[|lines| - 1].Blank?
  {
    var lines := SectionLines(SpaceSections(sections));
    assert SpaceSections(sections)[1..] == SpaceSections(sections[1..]);
    if |sections| > 1 {
      SectionsEnd(sections[1..]);
    } else {
      var s := sections[0];
      assert SpaceSections(sections)[1..] == [];
      assert lines == [s.Heading()] + SectionBody(SpaceSection(s, true));
      if s.subsections != [] {
        SubsectionsEnd(s.subsections);
      } else if s.leading != [] {
        assert SectionBody(SpaceSection(s, true)) == [EMPTY] + s.leading;
      } else {
        assert SectionBody(SpaceSection(s, true)) == [];
      }
    }
  }

  function Space(d: Document<Line>): Document<Line> {
    Document(if d.sections == [] then (if d.prefix == [] then [EMPTY] else d.prefix) else Padded(d.prefix, false, d.prefix != []),
             SpaceSections(d.sections))
  }

  lemma {:induction false} PopOne(lines: seq<Line>)
    requires lines == [] || !lines[|lines| - 1].Blank?
    ensures PopEmpty(lines) == lines && PopEmpty(lines + [EMPTY]) == lines
  {
    assert (lines + [EMPTY])[..|lines|] == lines;
  }

  lemma {:induction false} PrintIsSpaced(d: Document<Line>)
    requires Trimmed(d.prefix) && TidySecs(d.sections)
    ensures Print(d) == DocumentLines(Space(d))
  {
    TrimOfTrimmed(d.prefix);
    if d.sections == [] {
      PopOne(d.prefix);
      PrintPrefixOnly(d.prefix);
    } else {
      var prefix, lines := PrintPrefix(d.prefix), SectionLines(SpaceSections(d.sections));
      PrintSectionsSpaced(d.sections);
      SectionsEnd(d.sections);
      PopLast(prefix, lines, PrintSections(d.sections));
      SpacedLines(d);
      hide PopEmpty, PrintPrefix, SectionLines, SpaceSections, TidySecs, Padded, PrintSections, Space;
    }
  }

  lemma {:induction false} SpacedLines(d: Document<Line>)
    requires d.sections != [] && Trim(d.prefix) == d.prefix
    ensures DocumentLines(Space(d)) == PrintPrefix(d.prefix) + SectionLines(SpaceSections(d.sections))
  {
    hide SpaceSections, SectionLines;
    assert Padded(d.prefix, false, d.prefix != []) == PrintPrefix(d.prefix);
  }

  lemma {:induction false} PopLast(prefix: seq<Line>, lines: seq<Line>, printed: seq<Line>)
    requires lines != [] && !lines[|lines| - 1].Blank? && lines + [EMPTY] == printed
    ensures PopEmpty(prefix + printed) == prefix + lines
  {
    assert prefix + printed == (prefix + lines) + [EMPTY];
    PopOne(prefix + lines);
  }

  lemma {:induction false} PrintPrefixOnly(prefix: seq<Line>)
    requires Trimmed(prefix)
    ensures Print(Document(prefix, [])) == if prefix == [] then [EMPTY] else prefix
  {
    TrimOfTrimmed(prefix);
    PopOne(prefix);
    assert PrintPrefix(prefix) + PrintSections([]) == PrintPrefix(prefix);
  }

  // spacing is undone by tidying

  lemma {:induction false} TidyOfSpaceSubsections(subs: seq<Subsection<Line>>, last: bool)
    requires TidySubs(subs)
    ensures TidySubsections(SpaceSubsections(subs, last)) == subs
  {
    if subs != [] {
      TrimPadded(subs[0].lines, true, !last || |subs| > 1);
      TidyOfSpaceSubsections(subs[1..], last);
      assert SpaceSubsections(subs, last)[1..] == SpaceSubsections(subs[1..], last);
    }
  }

  lemma {:induction false} TidyOfSpaceSections(sections: seq<ReleaseSection<Line>>)
    requires TidySecs(sections)
    ensures TidySections(SpaceSections(sections)) == sections
  {
    if sections != [] {
      var s, last := sections[0], |sections| == 1;
      TrimPadded(s.leading, s.leading != [], !last || s.subsections != []);
      TidyOfSpaceSubsections(s.subsections, last);
      TidyOfSpaceSections(sections[1..]);
      assert SpaceSections(sections)[1..] == SpaceSections(sections[1..]);
    }
  }

  lemma {:induction false} TidyOfSpace(d: Document<Line>)
    requires Trimmed(d.prefix) && TidySecs(d.sections)
    ensures Tidy(Space(d)) == d
  {
    TidyOfSpaceSections(d.sections);
    TrimPadded(d.prefix, false, d.prefix != []);
    TrimOfTrimmed(d.prefix);
    if d.sections == [] && d.prefix == [] {
      TrimAfter([]);
      assert [] + [EMPTY] == [EMPTY];
    }
  }
}
