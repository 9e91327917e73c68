/** The parsed form of a changelog, and its printer (scripts/fix-changelogs.ts). */
module ChangelogDocument {
  import opened LineSplit

  /**
   A line by what the parser sees in it: `## [title]rest`, `###` and a title, a bullet, blank, or other text. `spelling`
   is how a `###` line differs from `### title`.
   */
  datatype Line =
    | Release(title: string, rest: string)
    | SubHead(title: string, spelling: string)
    | Item(text: string)
    | Blank(spaces: string)
    | Text(text: string)

  const EMPTY: Line := Blank("")

  datatype NumberedLine = NumberedLine(line: Line, number: nat)

  datatype Subsection<L> = Subsection(title: string, lines: seq<L>)

  datatype ReleaseSection<L> = ReleaseSection(title: string, rest: string, leading: seq<L>, subsections: seq<Subsection<L>>) {
    function Heading(): Line {
      Release(title, rest)
    }
  }

  datatype Document<L> = Document(prefix: seq<L>, sections: seq<ReleaseSection<L>>)

  // ---------------------------------------------------------------- parsing

  function LineOf(n: NumberedLine): Line {
    n.line
  }

  function Same(l: Line): Line {
    l
  }

  function IsRelease<L>(lineOf: L -> Line): L -> bool {
    (l: L) => lineOf(l).Release?
  }

  function IsSubHead<L>(lineOf: L -> Line): L -> bool {
    (l: L) => lineOf(l).SubHead?
  }

  function TitleOf(l: Line): string {
    if l.Release? || l.SubHead? then l.title else ""
  }

  function RestOf(l: Line): string {
    if l.Release? then l.rest else ""
  }

  function SubsectionsOf<L>(parts: seq<Part<L>>, lineOf: L -> Line): seq<Subsection<L>> {
    if parts == [] then []
    else [Subsection(TitleOf(lineOf(parts[0].head)), parts[0].body)] + SubsectionsOf(parts[1..], lineOf)
  }

  function SectionOf<L>(p: Part<L>, lineOf: L -> Line): ReleaseSection<L> {
    var s := SplitOf(p.body, IsSubHead(lineOf));
    ReleaseSection(TitleOf(lineOf(p.head)), RestOf(lineOf(p.head)), s.before, SubsectionsOf(s.parts, lineOf))
  }

  function SectionsOf<L>(parts: seq<Part<L>>, lineOf: L -> Line): seq<ReleaseSection<L>> {
    if parts == [] then [] else [SectionOf(parts[0], lineOf)] + SectionsOf(parts[1..], lineOf)
  }

  function ParseLines<L>(lines: seq<L>, lineOf: L -> Line): Document<L> {
    var s := SplitOf(lines, IsRelease(lineOf));
    Document(s.before, SectionsOf(s.parts, lineOf))
  }

  function Number(content: seq<Line>, first: nat): seq<NumberedLine> {
    if content == [] then [] else [NumberedLine(content[0], first)] + Number(content[1..], first + 1)
  }

  method ParseChangelog(content: seq<Line>) returns (d: Document<NumberedLine>)
    ensures d == ParseLines(Number(content, 1), LineOf)
  {
    var numberedLines := NumberLines(content);
    var s := SplitAtHeadings(numberedLines, IsRelease(LineOf));
    var sections: seq<ReleaseSection<NumberedLine>> := [];
    for i := 0 to |s.parts|
      invariant sections + SectionsOf(s.parts[i..], LineOf) == SectionsOf(s.parts, LineOf)
    {
      var section := ParseReleaseSection(s.parts[i].head, s.parts[i].body);
      assert s.parts[i..][1..] == s.parts[i + 1..];
      sections := sections + [section];
    }
    d := Document(s.before, sections);
  }

  method NumberLines(content: seq<Line>) returns (numbered: seq<NumberedLine>)
    ensures numbered == Number(content, 1)
  {
    numbered := [];
    for i := 0 to |content|
      invariant numbered + Number(content[i..], i + 1) == Number(content, 1)
    {
      assert content[i..][1..] == content[i + 1..];
      numbered := numbered + [NumberedLine(content[i], i + 1)];
    }
  }

  method ParseReleaseSection(heading: NumberedLine, body: seq<NumberedLine>) returns (section: ReleaseSection<NumberedLine>)
    ensures section == SectionOf(Part(heading, body), LineOf)
  {
    var s := SplitAtHeadings(body, IsSubHead(LineOf));
    var subsections: seq<Subsection<NumberedLine>> := [];
    for i := 0 to |s.parts|
      invariant subsections + SubsectionsOf(s.parts[i..], LineOf) == SubsectionsOf(s.parts, LineOf)
    {
      assert s.parts[i..][1..] == s.parts[i + 1..];
      subsections := subsections + [Subsection(TitleOf(s.parts[i].head.line), s.parts[i].body)];
    }
    section := ReleaseSection(TitleOf(heading.line), RestOf(heading.line), s.before, subsections);
  }

  // ---------------------------------------------------------------- the document's lines

  function SubsectionLines(subs: seq<Subsection<Line>>): seq<Line> {
    if subs == [] then [] else [SubHead(subs[0].title, "")] + subs[0].lines + SubsectionLines(subs[1..])
  }

  function SectionBody(s: ReleaseSection<Line>): seq<Line> {
    s.leading + SubsectionLines(s.subsections)
  }

  function SectionLines(sections: seq<ReleaseSection<Line>>): seq<Line> {
    if sections == [] then [] else [sections[0].Heading()] + SectionBody(sections[0]) + SectionLines(sections[1..])
  }

  /** All lines of a document, in order, with plain `###` lines. */
  function DocumentLines(d: Document<Line>): seq<Line> {
    d.prefix + SectionLines(d.sections)
  }

  predicate ShapedSubsections(subs: seq<Subsection<Line>>) {
    subs == [] ||
    (&& NoHead(subs[0].lines, IsSubHead(Same)) && NoHead(subs[0].lines, IsRelease(Same))
     && ShapedSubsections(subs[1..]))
  }

  predicate ShapedSection(s: ReleaseSection<Line>) {
    NoHead(s.leading, IsSubHead(Same)) && NoHead(s.leading, IsRelease(Same)) && ShapedSubsections(s.subsections)
  }

  predicate ShapedSections(sections: seq<ReleaseSection<Line>>) {
    sections == [] || (ShapedSection(sections[0]) && ShapedSections(sections[1..]))
  }

  /** No line of the document is out of place: headings occur as headings only. */
  predicate Shaped(d: Document<Line>) {
    NoHead(d.prefix, IsRelease(Same)) && ShapedSections(d.sections)
  }

  lemma {:induction false} Heads()
    ensures forall l :: IsRelease(Same)(l) == l.Release? && IsSubHead(Same)(l) == l.SubHead?
  {
    forall l ensures IsRelease(Same)(l) == l.Release? && IsSubHead(Same)(l) == l.SubHead? {
      assert Same(l) == l;
    }
  }

  // parsing undoes DocumentLines

  function SubsectionParts(subs: seq<Subsection<Line>>): seq<Part<Line>> {
    if subs == [] then [] else [Part(SubHead(subs[0].title, ""), subs[0].lines)] + SubsectionParts(subs[1..])
  }

  lemma {:induction false} SubsectionPartsFit(subs: seq<Subsection<Line>>)
    requires ShapedSubsections(subs)
    ensures var parts := SubsectionParts(subs);
            && ProperParts(parts, IsSubHead(Same)) && FlatParts(parts) == SubsectionLines(subs)
            && SubsectionsOf(parts, Same) == subs
  {
    Heads();
    if subs != [] {
      SubsectionPartsFit(subs[1..]);
      assert SubsectionParts(subs)[1..] == SubsectionParts(subs[1..]);
    }
  }

  lemma {:induction false} NoHeadJoin<L>(a: seq<L>, b: seq<L>, head: L -> bool)
    requires NoHead(a, head) && NoHead(b, head)
    ensures NoHead(a + b, head)
  {
    if a == [] {
      assert a + b == b;
    } else {
      NoHeadJoin(a[1..], b, head);
      assert (a + b)[1..] == a[1..] + b;
    }
  }

  lemma {:induction false} NoReleaseInSubsections(subs: seq<Subsection<Line>>)
    requires ShapedSubsections(subs)
    ensures NoHead(SubsectionLines(subs), IsRelease(Same))
  {
    Heads();
    if subs != [] {
      NoReleaseInSubsections(subs[1..]);
      var head := [SubHead(subs[0].title, "")];
      assert NoHead(head, IsRelease(Same)) by {
        assert head[1..] == [];
      }
      NoHeadJoin(head, subs[0].lines, IsRelease(Same));
      NoHeadJoin(head + subs[0].lines, SubsectionLines(subs[1..]), IsRelease(Same));
    }
  }

  lemma {:induction false} SectionFits(s: ReleaseSection<Line>)
    requires ShapedSection(s)
    ensures NoHead(SectionBody(s), IsRelease(Same)) && SectionOf(Part(s.Heading(), SectionBody(s)), Same) == s
  {
    NoReleaseInSubsections(s.subsections);
    NoHeadJoin(s.leading, SubsectionLines(s.subsections), IsRelease(Same));
    SubsectionPartsFit(s.subsections);
    SplitOfFlat(Split(s.leading, SubsectionParts(s.subsections)), IsSubHead(Same));
  }

  function SectionParts(sections: seq<ReleaseSection<Line>>): seq<Part<Line>> {
    if sections == [] then [] else [Part(sections[0].Heading(), SectionBody(sections[0]))] + SectionParts(sections[1..])
  }

  lemma {:induction false} SectionPartsFit(sections: seq<ReleaseSection<Line>>)
    requires ShapedSections(sections)
    ensures var parts := SectionParts(sections);
            && ProperParts(parts, IsRelease(Same)) && FlatParts(parts) == SectionLines(sections)
            && SectionsOf(parts, Same) == sections
  {
    Heads();
    if sections != [] {
      hide SectionBody, ShapedSection, SplitOf;
      SectionPartsFit(sections[1..]);
      SectionFits(sections[0]);
      assert SectionParts(sections)[1..] == SectionParts(sections[1..]);
    }
  }

  /** Parsing the lines of a shaped document gives the document back. */
  lemma {:induction false} ParseOfLines(d: Document<Line>)
    requires Shaped(d)
    ensures ParseLines(DocumentLines(d), Same) == d
  {
    SectionPartsFit(d.sections);
    SplitOfFlat(Split(d.prefix, SectionParts(d.sections)), IsRelease(Same));
  }

  // ... and DocumentLines undoes parsing

  function Plain(lines: seq<Line>): seq<Line> {
    if lines == [] then []
    else [if lines[0].SubHead? then SubHead(lines[0].title, "") else lines[0]] + Plain(lines[1..])
  }

  lemma {:induction false} PlainJoin(a: seq<Line>, b: seq<Line>)
    ensures Plain(a + b) == Plain(a) + Plain(b)
  {
    if a == [] {
      assert a + b == b;
    } else {
      PlainJoin(a[1..], b);
      assert (a + b)[1..] == a[1..] + b;
    }
  }

  lemma {:induction false} PlainOfNoHead(lines: seq<Line>)
    requires NoHead(lines, IsSubHead(Same))
    ensures Plain(lines) == lines
  {
    Heads();
    if lines != [] {
      PlainOfNoHead(lines[1..]);
    }
  }

  lemma {:induction false} SubsectionsKeep(parts: seq<Part<Line>>)
    requires ProperParts(parts, IsSubHead(Same)) && NoHead(FlatParts(parts), IsRelease(Same))
    ensures SubsectionLines(SubsectionsOf(parts, Same)) == Plain(FlatParts(parts))
    ensures ShapedSubsections(SubsectionsOf(parts, Same))
  {
    if parts != [] {
      var head, rest := [parts[0].head], FlatParts(parts[1..]);
      NoHeadSplit(head + parts[0].body, rest, IsRelease(Same));
      NoHeadSplit(head, parts[0].body, IsRelease(Same));
      SubsectionsKeep(parts[1..]);
      PlainOfNoHead(parts[0].body);
      PlainJoin(head + parts[0].body, rest);
      PlainJoin(head, parts[0].body);
      assert head[1..] == [];
      assert SubsectionsOf(parts, Same)[1..] == SubsectionsOf(parts[1..], Same);
    }
  }

  lemma {:induction false} NoHeadSplit<L>(a: seq<L>, b: seq<L>, head: L -> bool)
    requires NoHead(a + b, head)
    ensures NoHead(a, head) && NoHead(b, head)
  {
    if a == [] {
      assert a + b == b;
    } else {
      assert (a + b)[1..] == a[1..] + b;
      NoHeadSplit(a[1..], b, head);
    }
  }

  lemma {:induction false} SectionKeeps(p: Part<Line>)
    requires p.head.Release? && NoHead(p.body, IsRelease(Same))
    ensures SectionOf(p, Same).Heading() == p.head
    ensures SectionBody(SectionOf(p, Same)) == Plain(p.body) && ShapedSection(SectionOf(p, Same))
  {
    var s := SplitOf(p.body, IsSubHead(Same));
    FlatOfSplit(p.body, IsSubHead(Same));
    NoHeadSplit(s.before, FlatParts(s.parts), IsRelease(Same));
    SubsectionsKeep(s.parts);
    PlainOfNoHead(s.before);
    PlainJoin(s.before, FlatParts(s.parts));
  }

  lemma {:induction false} SectionsKeep(parts: seq<Part<Line>>)
    requires ProperParts(parts, IsRelease(Same))
    ensures SectionLines(SectionsOf(parts, Same)) == Plain(FlatParts(parts)) && ShapedSections(SectionsOf(parts, Same))
  {
    Heads();
    if parts != [] {
      var head, rest := [parts[0].head], FlatParts(parts[1..]);
      SectionsKeep(parts[1..]);
      SectionKeeps(parts[0]);
      PlainJoin(head + parts[0].body, rest);
      PlainJoin(head, parts[0].body);
      assert head[1..] == [];
      assert SectionsOf(parts, Same)[1..] == SectionsOf(parts[1..], Same);
    }
  }

  /** Parsing keeps every line of the file, in order: only the spelling of `###` lines is lost. */
  lemma {:induction false} LinesOfParse(content: seq<Line>)
    ensures var d := ParseLines(content, Same);
            Shaped(d) && Plain(DocumentLines(d)) == Plain(content) && d.prefix <= content
  {
    var s := SplitOf(content, IsRelease(Same));
    FlatOfSplit(content, IsRelease(Same));
    SectionsKeep(s.parts);
    PlainJoin(s.before, FlatParts(s.parts));
    PlainJoin(s.before, Plain(FlatParts(s.parts)));
    PlainTwice(FlatParts(s.parts));
  }

  lemma {:induction false} PlainTwice(lines: seq<Line>)
    ensures Plain(Plain(lines)) == Plain(lines)
  {
    if lines != [] {
      PlainTwice(lines[1..]);
      assert Plain(lines)[1..] == Plain(lines[1..]);
    }
  }
}
