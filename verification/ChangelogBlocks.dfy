/** The layout of a printed changelog (scripts/fix-changelogs.ts). */
module ChangelogBlocks {
  import opened ChangelogDocument
  import opened ChangelogRender

  function TextBlock(lines: seq<Line>): seq<seq<Line>> {
    if Trim(lines) == [] then [] else [Trim(lines)]
  }

  function SubsectionBlocks(subs: seq<Subsection<Line>>): seq<seq<Line>> {
    if subs == [] then []
    else
      (if Trim(subs[0].lines) == [] then [] else [[SubHead(subs[0].title, "")], Trim(subs[0].lines)]) + SubsectionBlocks(subs[1..])
  }

  function SectionBlocks(sections: seq<ReleaseSection<Line>>): seq<seq<Line>> {
    if sections == [] then []
    else
      [[sections[0].Heading()]] + TextBlock(sections[0].leading) + SubsectionBlocks(sections[0].subsections)
      + SectionBlocks(sections[1..])
  }

  /** Headings and texts of a document, in order: text that is blank is none, and its heading goes with it. */
  function Blocks(d: Document<Line>): seq<seq<Line>> {
    TextBlock(d.prefix) + SectionBlocks(d.sections)
  }

  /** Blocks one below the other, with one empty line below each. */
  function Stacked(blocks: seq<seq<Line>>): seq<Line> {
    if blocks == [] then [] else blocks[0] + [EMPTY] + Stacked(blocks[1..])
  }

  /** ... and with one empty line above each. */
  function Led(blocks: seq<seq<Line>>): seq<Line> {
    if blocks == [] then [] else [EMPTY] + blocks[0] + Led(blocks[1..])
  }

  lemma {:induction false} JoinFour<T>(a: seq<T>, b: seq<T>, c: seq<T>, d: seq<T>)
    ensures a + b + (c + d) == (a + b + c) + d
  {
  }

  lemma {:induction false} StackedJoin(a: seq<seq<Line>>, b: seq<seq<Line>>)
    ensures Stacked(a + b) == Stacked(a) + Stacked(b)
  {
    if a == [] {
      assert a + b == b;
    } else {
      StackedJoin(a[1..], b);
      assert (a + b)[1..] == a[1..] + b;
      JoinFour(a[0], [EMPTY], Stacked(a[1..]), Stacked(b));
    }
  }

  lemma {:induction false} LedJoin(a: seq<seq<Line>>, b: seq<seq<Line>>)
    ensures Led(a + b) == Led(a) + Led(b)
  {
    if a == [] {
      assert a + b == b;
    } else {
      LedJoin(a[1..], b);
      assert (a + b)[1..] == a[1..] + b;
      JoinFour([EMPTY], a[0], Led(a[1..]), Led(b));
    }
  }

  lemma {:induction false} LedIsStacked(blocks: seq<seq<Line>>)
    ensures Led(blocks) + [EMPTY] == [EMPTY] + Stacked(blocks)
  {
    if blocks != [] {
      LedIsStacked(blocks[1..]);
      JoinFour([EMPTY], blocks[0], Led(blocks[1..]), [EMPTY]);
      assert [EMPTY] + blocks[0] + ([EMPTY] + Stacked(blocks[1..])) == [EMPTY] + (blocks[0] + [EMPTY] + Stacked(blocks[1..]));
    }
  }

  lemma {:induction false} SubsectionsAreLed(subs: seq<Subsection<Line>>)
    ensures PrintSubsections(subs) == Led(SubsectionBlocks(subs))
  {
    if subs != [] {
      SubsectionsAreLed(subs[1..]);
      var head, lines := [SubHead(subs[0].title, "")], Trim(subs[0].lines);
      if lines != [] {
        LedJoin([head, lines], SubsectionBlocks(subs[1..]));
        LedPair(head, lines);
        assert [EMPTY] + head + [EMPTY] == [EMPTY, SubHead(subs[0].title, ""), EMPTY];
      } else {
        assert SubsectionBlocks(subs) == SubsectionBlocks(subs[1..]) && PrintSubsections(subs) == PrintSubsections(subs[1..]);
      }
    }
  }

  lemma {:induction false} LedOne(a: seq<Line>)
    ensures Led([a]) == [EMPTY] + a
  {
    assert [a][1..] == [];
  }

  lemma {:induction false} LedPair(a: seq<Line>, b: seq<Line>)
    ensures Led([a, b]) == [EMPTY] + a + [EMPTY] + b
  {
    assert [a, b] == [a] + [b];
    LedJoin([a], [b]);
    LedOne(a);
    LedOne(b);
  }

  lemma {:induction false} SectionIsStacked(s: ReleaseSection<Line>)
    ensures PrintSection(s) == Stacked([[s.Heading()]] + TextBlock(s.leading) + SubsectionBlocks(s.subsections))
  {
    var head, leading, below := [s.Heading()], TextBlock(s.leading), SubsectionBlocks(s.subsections);
    PrintedSection(s);
    hide *;
    LedJoin(leading, below);
    LedIsStacked(leading + below);
    StackedFrom(head, leading + below);
    assert [head] + leading + below == [head] + (leading + below);
    JoinFour(head, Led(leading), Led(below), [EMPTY]);
    assert head + (Led(leading) + Led(below)) == head + Led(leading) + Led(below);
    assert head + (Led(leading + below) + [EMPTY]) == (head + Led(leading + below)) + [EMPTY];
  }

  lemma {:induction false} StackedFrom(head: seq<Line>, blocks: seq<seq<Line>>)
    ensures Stacked([head] + blocks) == head + ([EMPTY] + Stacked(blocks))
  {
    assert ([head] + blocks)[1..] == blocks;
  }

  lemma {:induction false} PrintedSection(s: ReleaseSection<Line>)
    ensures PrintSection(s) == [s.Heading()] + Led(TextBlock(s.leading)) + Led(SubsectionBlocks(s.subsections)) + [EMPTY]
  {
    SubsectionsAreLed(s.subsections);
    hide PrintSubsections, SubsectionBlocks;
    if Trim(s.leading) != [] {
      LedOne(Trim(s.leading));
    }
  }

  lemma {:induction false} SectionsAreStacked(sections: seq<ReleaseSection<Line>>)
    ensures PrintSections(sections) == Stacked(SectionBlocks(sections))
  {
    if sections != [] {
      var s := sections[0];
      SectionsAreStacked(sections[1..]);
      SectionIsStacked(s);
      StackedJoin([[s.Heading()]] + TextBlock(s.leading) + SubsectionBlocks(s.subsections), SectionBlocks(sections[1..]));
    }
  }

  lemma {:induction false} PrefixIsStacked(prefix: seq<Line>)
    ensures PrintPrefix(prefix) == Stacked(TextBlock(prefix))
  {
    assert [Trim(prefix)][1..] == [] && Stacked([]) == [];
  }

  /** Blocks with one empty line between them. */
  function Spaced(blocks: seq<seq<Line>>): seq<Line> {
    if blocks == [] then [] else if |blocks| == 1 then blocks[0] else blocks[0] + [EMPTY] + Spaced(blocks[1..])
  }

  predicate AllFilled(blocks: seq<seq<Line>>) {
    forall i :: 0 <= i < |blocks| ==> blocks[i] != [] && Trimmed(blocks[i])
  }

  lemma {:induction false} StackedIsSpaced(blocks: seq<seq<Line>>)
    requires AllFilled(blocks) && blocks != []
    ensures Stacked(blocks) == Spaced(blocks) + [EMPTY]
    ensures Spaced(blocks) != [] && !Spaced(blocks)[|Spaced(blocks)| - 1].Blank?
  {
    if |blocks| > 1 {
      StackedIsSpaced(blocks[1..]);
      assert blocks[0] + [EMPTY] + (Spaced(blocks[1..]) + [EMPTY]) == (blocks[0] + [EMPTY] + Spaced(blocks[1..])) + [EMPTY];
    } else {
      assert blocks[1..] == [] && Stacked([]) == [];
    }
  }

  lemma {:induction false} FilledJoin(a: seq<seq<Line>>, b: seq<seq<Line>>)
    requires AllFilled(a) && AllFilled(b)
    ensures AllFilled(a + b)
  {
  }

  lemma {:induction false} SubsectionsFilled(subs: seq<Subsection<Line>>)
    ensures AllFilled(SubsectionBlocks(subs))
  {
    if subs != [] {
      SubsectionsFilled(subs[1..]);
      TrimIsTrimmed(subs[0].lines);
    }
  }

  lemma {:induction false} SectionsFilled(sections: seq<ReleaseSection<Line>>)
    ensures AllFilled(SectionBlocks(sections))
  {
    if sections != [] {
      SectionsFilled(sections[1..]);
      SubsectionsFilled(sections[0].subsections);
      TrimIsTrimmed(sections[0].leading);
    }
  }

  /**
   A printed file is its headings and texts, each a block without blank lines at its ends, with exactly one empty line
   between two of them, and none at either end; a file without any is one empty line.
   */
  lemma {:induction false} PrintIsBlocks(d: Document<Line>)
    ensures AllFilled(Blocks(d))
    ensures Print(d) == if Blocks(d) == [] then [EMPTY] else Spaced(Blocks(d))
  {
    var blocks := Blocks(d);
    PrintedFile(d);
    BlocksFilled(d);
    hide *;
    if blocks != [] {
      StackedIsSpaced(blocks);
      PopOne(Spaced(blocks));
    }
  }

  lemma {:induction false} PrintedFile(d: Document<Line>)
    ensures var output := PopEmpty(Stacked(Blocks(d)));
            Print(d) == (if output == [] then [EMPTY] else output) && (Blocks(d) == [] ==> output == [])
  {
    PrefixIsStacked(d.prefix);
    SectionsAreStacked(d.sections);
    StackedJoin(TextBlock(d.prefix), SectionBlocks(d.sections));
    hide PrintPrefix, PrintSections, SectionBlocks, TextBlock;
  }

  lemma {:induction false} BlocksFilled(d: Document<Line>)
    ensures AllFilled(Blocks(d))
  {
    SectionsFilled(d.sections);
    TrimIsTrimmed(d.prefix);
    FilledJoin(TextBlock(d.prefix), SectionBlocks(d.sections));
  }
}
