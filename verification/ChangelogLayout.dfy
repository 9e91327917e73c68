/** The order of headings that normalizing leaves, and why normalizing again changes nothing (scripts/fix-changelogs.ts). */
module ChangelogLayout {
  import opened LineSplit
  import opened ChangelogDocument
  import opened ChangelogRender
  import opened ChangelogRoundTrip
  import opened ChangelogItems
  import opened ChangelogKeys
  import opened ChangelogNormalize
  import StableSort

  // ---------------------------------------------------------------- the order of headings

  predicate Filled(x: Sub) {
    Solid(Texts(x.lines)) != []
  }

  /** The first subsection with a title that is not empty; `n` if the first `n` have none. */
  function FirstFilled(given: seq<Sub>, n: nat, title: string): (k: nat)
    requires n <= |given|
    ensures k <= n && (k < n ==> given[k].title == title && Filled(given[k]))
    ensures forall i :: 0 <= i < k && given[i].title == title ==> !Filled(given[i])
  {
    if n == 0 then 0
    else
      var k := FirstFilled(given, n - 1, title);
      if k < n - 1 || (given[n - 1].title == title && Filled(given[n - 1])) then k else n
  }

  lemma {:induction false} FirstFilledNext(given: seq<Sub>, n: nat, title: string)
    requires n < |given|
    ensures FirstFilled(given, n, title) < n ==> FirstFilled(given, n + 1, title) == FirstFilled(given, n, title)
    ensures FirstFilled(given, n, title) == n ==>
              FirstFilled(given, n + 1, title) == if given[n].title == title && Filled(given[n]) then n else n + 1
  {
  }

  function Before(given: seq<Sub>): (Sub, Sub) -> bool {
    (x: Sub, y: Sub) => FirstFilled(given, |given|, x.title) < FirstFilled(given, |given|, y.title)
  }

  /** The subsections gathered from the first `n` are those with a title that is not empty, in order. */
  ghost predicate InOrder(subs: seq<Sub>, given: seq<Sub>, n: nat)
    requires n <= |given|
  {
    && (forall i :: 0 <= i < |subs| ==> FirstFilled(given, n, subs[i].title) < n)
    && (forall i, j :: 0 <= i < j < |subs| ==> FirstFilled(given, n, subs[i].title) < FirstFilled(given, n, subs[j].title))
    && (forall k :: 0 <= k < n && Filled(given[k]) ==> IndexOf(subs, given[k].title) < |subs|)
  }

  lemma {:induction false} NoneInOrder(given: seq<Sub>)
    ensures InOrder(NormalTo(given, 0), given, 0)
  {
  }

  lemma {:induction false} GatheredInOrder(given: seq<Sub>, n: nat)
    requires n <= |given|
    ensures InOrder(NormalTo(given, n), given, n)
  {
    hide *;
    if n == 0 {
      NoneInOrder(given);
    } else {
      NormalUnfolds(given, n);
      GatheredInOrder(given, n - 1);
      GatherInOrder(NormalTo(given, n - 1), given, n - 1);
    }
  }

  lemma {:induction false} IndexIs(subs: seq<Sub>, k: nat)
    requires k < |subs|
    ensures IndexOf(subs, subs[k].title) < |subs|
  {
    if k > 0 {
      IndexIs(subs[1..], k - 1);
    }
  }

  lemma {:induction false} IndexWith(subs: seq<Sub>, now: seq<Sub>, title: string)
    requires |subs| <= |now| && (forall i :: 0 <= i < |subs| ==> now[i].title == subs[i].title)
    requires IndexOf(subs, title) < |subs|
    ensures IndexOf(now, title) < |now|
  {
    IndexIs(now, IndexOf(subs, title));
  }

  lemma {:induction false} NotBefore(subs: seq<Sub>, given: seq<Sub>, n: nat)
    requires n < |given| && InOrder(subs, given, n) && IndexOf(subs, given[n].title) == |subs|
    ensures FirstFilled(given, n, given[n].title) == n
  {
    forall k | 0 <= k < n && Filled(given[k]) ensures given[k].title != given[n].title {
      assert IndexOf(subs, given[k].title) < |subs|;
    }
  }

  lemma {:induction false} GatherInOrder(subs: seq<Sub>, given: seq<Sub>, n: nat)
    requires n < |given| && InOrder(subs, given, n)
    ensures InOrder(Gather(subs, given[n]), given, n + 1)
  {
    var x, now := given[n], Gather(subs, given[n]);
    CompactedSolid(x);
    GatheredTitles(subs, x);
    hide IndexOf, Compact, Trim, Gather, Filled, FirstFilled;
    forall i | 0 <= i < |now|
      ensures FirstFilled(given, n + 1, now[i].title) == if i < |subs| then FirstFilled(given, n, subs[i].title) else n
    {
      FirstFilledNext(given, n, now[i].title);
      if i == |subs| {
        NotBefore(subs, given, n);
      }
    }
    forall k | 0 <= k < n + 1 && Filled(given[k]) ensures IndexOf(now, given[k].title) < |now| {
      if k < n {
        IndexWith(subs, now, given[k].title);
      }
    }
    StillInOrder(subs, now, given, n);
  }

  lemma {:induction false} StillInOrder(subs: seq<Sub>, now: seq<Sub>, given: seq<Sub>, n: nat)
    requires n < |given| && InOrder(subs, given, n) && |subs| <= |now| <= |subs| + 1
    requires forall i :: 0 <= i < |now| ==>
               FirstFilled(given, n + 1, now[i].title) == if i < |subs| then FirstFilled(given, n, subs[i].title) else n
    requires forall k :: 0 <= k < n + 1 && Filled(given[k]) ==> IndexOf(now, given[k].title) < |now|
    ensures InOrder(now, given, n + 1)
  {
    hide IndexOf, Filled, FirstFilled;
  }

  /** Titles stay where they are, and a new one comes last. */
  lemma {:induction false} GatheredTitles(subs: seq<Sub>, x: Sub)
    ensures var now := Gather(subs, x);
            && |subs| <= |now| <= |subs| + 1 && (forall i :: 0 <= i < |subs| ==> now[i].title == subs[i].title)
            && (|now| > |subs| ==> now[|subs|].title == x.title && IndexOf(subs, x.title) == |subs| && Filled(x))
            && (Filled(x) ==> IndexOf(now, x.title) < |now|)
  {
    var now, k := Gather(subs, x), IndexOf(subs, x.title);
    CompactedSolid(x);
    if k < |subs| {
      AppendedText(subs[k], Compact(Trim(Texts(x.lines))));
    }
    hide Compact, Trim, AppendTo, IndexOf;
    if Filled(x) {
      IndexIs(now, k);
    }
  }

  /**
   The headings of a normalized section come in the order in which they are first not empty; those of [Unreleased] in the
   order of the known titles, and all others after them in the order in which they are first not empty.
   */
  lemma {:induction false} HeadingOrder(s: Section, i: nat, j: nat)
    requires i < j < |NormalSection(s).subsections|
    ensures var given, t := s.subsections, NormalSection(s).subsections;
            var a, b := FirstFilled(given, |given|, t[i].title), FirstFilled(given, |given|, t[j].title);
            && a < |given| && b < |given|
            && if s.title == UNRELEASED then
                 TitleOrder(t[i].title) < TitleOrder(t[j].title) || (TitleOrder(t[i].title) == TitleOrder(t[j].title) && a < b)
               else a < b
  {
    var given, t := s.subsections, NormalSection(s).subsections;
    var subs := NormalSubs(given);
    GatheredInOrder(given, |given|);
    hide FirstFilled, NormalSubs, IndexOf;
    if s.title == UNRELEASED {
      StableSort.SortInTurn(subs, ByTitle(), Before(given));
      StableSort.SortSorts(subs, ByTitle());
      StableSort.OrderedFrom(t, ByTitle(), i, j);
      assert t[i] in subs && t[j] in subs;
      assert ByTitle()(t[j], t[i]) ==> Before(given)(t[i], t[j]);
    }
  }

  // ---------------------------------------------------------------- normalizing again

  /** Items that are trimmed blocks, one after another, have no blank line at either end. */
  lemma {:induction false} FlattenTrimmed(parts: seq<Part<Line>>)
    requires ProperParts(parts, IsItem(Same))
    ensures Trim(Flatten(KeysOf(parts))) == Flatten(KeysOf(parts))
  {
    var flat := Flatten(KeysOf(parts));
    if parts != [] {
      KeysFlattened(parts);
      FlattenEnds(parts);
      TrimOfTrimmed(flat);
    }
  }

  lemma {:induction false} FlattenEnds(parts: seq<Part<Line>>)
    requires ProperParts(parts, IsItem(Same)) && parts != []
    ensures var flat := Flatten(KeysOf(parts)); flat != [] && !flat[|flat| - 1].Blank?
  {
    var block, rest := Trim(PartLines(parts[0])), Flatten(KeysOf(parts[1..]));
    ItemHeads();
    PartIsBlock(parts[0]);
    assert KeysOf(parts)[1..] == KeysOf(parts[1..]);
    if parts[1..] != [] {
      FlattenEnds(parts[1..]);
    } else {
      TrimIsTrimmed(PartLines(parts[0]));
    }
  }

  /** Compacting twice is compacting once. */
  lemma {:induction false} CompactTwice(lines: seq<Line>)
    ensures Compact(Compact(lines)) == Compact(lines) && Trim(Compact(lines)) == Compact(lines)
  {
    var trimmed := Trim(lines);
    TrimIsTrimmed(lines);
    TrimOfTrimmed(trimmed);
    if trimmed != [] && trimmed[0].Item? {
      var s := ItemParts(trimmed);
      ItemHeads();
      FlatOfSplit(trimmed, IsItem(Same));
      KeysFlattened(s.parts);
      FlattenTrimmed(s.parts);
    }
  }

  /** A subsection that normalizing leaves as it is. */
  predicate Settled(x: Sub) {
    x.lines != [] && x.lines == Synthetic(Compact(Trim(Texts(x.lines))))
  }

  predicate AllSettled(subs: seq<Sub>) {
    forall i :: 0 <= i < |subs| ==> Settled(subs[i])
  }

  lemma {:induction false} CompactedSettled(title: string, lines: seq<Line>)
    requires Compact(Trim(lines)) != []
    ensures Settled(Subsection(title, Synthetic(Compact(Trim(lines)))))
  {
    var c := Compact(Trim(lines));
    CompactTwice(Trim(lines));
    SyntheticTexts(c);
    assert Synthetic(c) != [];
  }

  /** No two subsections that are not empty have the same title. */
  predicate NoRepeats(subs: seq<Sub>) {
    forall i, j :: 0 <= i < j < |subs| && Filled(subs[i]) && Filled(subs[j]) ==> subs[i].title != subs[j].title
  }

  lemma {:induction false} NotYet(subs: seq<Sub>, given: seq<Sub>, n: nat)
    requires n < |given| && NoRepeats(given) && InOrder(subs, given, n) && Filled(given[n])
    ensures IndexOf(subs, given[n].title) == |subs|
  {
    forall i | 0 <= i < |subs| ensures subs[i].title != given[n].title {
      var f := FirstFilled(given, n, subs[i].title);
      assert Filled(given[f]) && given[f].title == subs[i].title;
    }
  }

  lemma {:induction false} SettledPush(subs: seq<Sub>, x: Sub)
    requires AllSettled(subs) && (Filled(x) ==> IndexOf(subs, x.title) == |subs|)
    ensures AllSettled(Gather(subs, x))
  {
    CompactedSolid(x);
    hide Compact, Trim, IndexOf, Settled, Texts, Synthetic, Solid;
    if Filled(x) {
      CompactedSettled(x.title, Texts(x.lines));
    }
  }

  lemma {:induction false} NoneSettled(given: seq<Sub>)
    ensures AllSettled(NormalTo(given, 0))
  {
  }

  /** Without repeated headings, nothing is put below what is compacted. */
  lemma {:induction false} GatheredSettled(given: seq<Sub>, n: nat)
    requires n <= |given| && NoRepeats(given)
    ensures AllSettled(NormalTo(given, n))
  {
    hide *;
    if n == 0 {
      NoneSettled(given);
    } else {
      NormalUnfolds(given, n);
      GatheredSettled(given, n - 1);
      GatheredInOrder(given, n - 1);
      if Filled(given[n - 1]) {
        NotYet(NormalTo(given, n - 1), given, n - 1);
      }
      SettledPush(NormalTo(given, n - 1), given[n - 1]);
    }
  }

  lemma {:induction false} IndexPast(subs: seq<Sub>, n: nat)
    requires DistinctTitles(subs) && n < |subs|
    ensures IndexOf(subs[..n], subs[n].title) == n
  {
    var before := subs[..n];
    forall i | 0 <= i < n ensures before[i].title != subs[n].title {
      assert before[i] == subs[i];
    }
  }

  lemma {:induction false} SettledStays(subs: seq<Sub>, x: Sub)
    requires Settled(x) && IndexOf(subs, x.title) == |subs|
    ensures Gather(subs, x) == subs + [x]
  {
    assert Synthetic([]) == [];
    hide Compact, Trim, IndexOf, Texts;
  }

  lemma {:induction false} SettledAgain(subs: seq<Sub>, n: nat)
    requires n <= |subs| && DistinctTitles(subs) && AllSettled(subs)
    ensures NormalTo(subs, n) == subs[..n]
  {
    hide *;
    if n == 0 {
      NormalOfNone(subs);
    } else {
      SettledAgain(subs, n - 1);
      NormalUnfolds(subs, n);
      IndexPast(subs, n - 1);
      SettledAt(subs, n - 1);
      SettledStays(subs[..n - 1], subs[n - 1]);
      assert subs[..n] == subs[..n - 1] + [subs[n - 1]];
    }
  }

  lemma {:induction false} NormalOfNone(subs: seq<Sub>)
    ensures NormalTo(subs, 0) == subs[..0]
  {
  }

  lemma {:induction false} SettledAt(subs: seq<Sub>, n: nat)
    requires AllSettled(subs) && n < |subs|
    ensures Settled(subs[n])
  {
  }

  /** Normalizing a normalized section changes nothing, unless a heading was repeated. */
  lemma {:induction false} NormalTwice(s: Section)
    requires NoRepeats(s.subsections)
    ensures NormalSection(NormalSection(s)) == NormalSection(s)
  {
    var given, t := s.subsections, NormalSection(s);
    GatheredSettled(given, |given|);
    NormalSectionKeeps(s);
    LeadingTwice(s);
    var subs := NormalSubs(given);
    assert AllSettled(subs);
    hide NormalSubs, Settled, Trim, SameText, LastKept, NoneEmpty;
    if s.title == UNRELEASED {
      SortSettled(subs);
      StableSort.SortSorts(subs, ByTitle());
    }
    SettledSubs(t.subsections);
    if s.title == UNRELEASED {
      StableSort.SortOrdered(t.subsections, ByTitle());
    }
  }

  lemma {:induction false} LeadingTwice(s: Section)
    ensures Synthetic(Trim(Texts(NormalSection(s).leading))) == NormalSection(s).leading
  {
    var l := Trim(Texts(s.leading));
    SyntheticTexts(l);
    TrimIsTrimmed(Texts(s.leading));
    TrimOfTrimmed(l);
  }

  lemma {:induction false} SettledSubs(subs: seq<Sub>)
    requires DistinctTitles(subs) && AllSettled(subs)
    ensures NormalSubs(subs) == subs
  {
    SettledAgain(subs, |subs|);
    assert subs[..|subs|] == subs;
  }

  lemma {:induction false} SortSettled(subs: seq<Sub>)
    requires AllSettled(subs)
    ensures AllSettled(StableSort.Sort(subs, ByTitle()))
  {
    var sorted := StableSort.Sort(subs, ByTitle());
    StableSort.SortSorts(subs, ByTitle());
    hide Settled;
    forall i | 0 <= i < |sorted| ensures Settled(sorted[i]) {
      assert sorted[i] in multiset(subs);
    }
  }

  // ---------------------------------------------------------------- no blank line above a bullet

  lemma {:induction false} NoHeadAt(lines: seq<Line>, i: nat)
    requires NoHead(lines, IsItem(Same)) && i < |lines|
    ensures !lines[i].Item?
  {
    ItemHeads();
    if i > 0 {
      NoHeadAt(lines[1..], i - 1);
    }
  }

  lemma {:induction false} FlattenTight(parts: seq<Part<Line>>, i: nat)
    requires ProperParts(parts, IsItem(Same))
    requires var flat := Flatten(KeysOf(parts)); 0 < i < |flat| && flat[i].Item?
    ensures !Flatten(KeysOf(parts))[i - 1].Blank?
  {
    var block := Trim(PartLines(parts[0]));
    ItemHeads();
    PartIsBlock(parts[0]);
    assert KeysOf(parts)[1..] == KeysOf(parts[1..]);
    if i < |block| {
      NoHeadAt(block[1..], i - 1);
    } else if i > |block| {
      FlattenTight(parts[1..], i - |block|);
    }
  }

  /** In a compacted block of entries, no blank line stands right above a bullet; all entries are the ones there were. */
  lemma {:induction false} CompactTight(lines: seq<Line>, i: nat)
    requires StartsWithItem(Trim(lines))
    ensures Keys(Compact(lines)) == Keys(lines) && StartsWithItem(Compact(lines))
    ensures 0 < i < |Compact(lines)| && Compact(lines)[i].Item? ==> !Compact(lines)[i - 1].Blank?
  {
    var trimmed := Trim(lines);
    KeysOfCompact(lines);
    SplitStartingWithItem(trimmed);
    KeysFlattened(ItemParts(trimmed).parts);
    if 0 < i < |Compact(lines)| && Compact(lines)[i].Item? {
      FlattenTight(ItemParts(trimmed).parts, i);
    }
  }

  lemma {:induction false} SettledTight(x: Sub, i: nat)
    requires Settled(x) && StartsWithItem(Texts(x.lines)) && 0 < i < |Texts(x.lines)| && Texts(x.lines)[i].Item?
    ensures !Texts(x.lines)[i - 1].Blank?
  {
    var lines := Texts(x.lines);
    SyntheticTexts(Compact(Trim(lines)));
    CompactTwice(Trim(lines));
    assert Trim(lines) == lines && Compact(lines) == lines;
    CompactTight(lines, i);
  }

  lemma {:induction false} NormalSettled(s: Section)
    requires NoRepeats(s.subsections)
    ensures AllSettled(NormalSection(s).subsections)
  {
    GatheredSettled(s.subsections, |s.subsections|);
    hide Settled, NormalTo;
    if s.title == UNRELEASED {
      SortSettled(NormalSubs(s.subsections));
    }
  }

  /** Where no heading was repeated, an entry of a normalized section follows the one above it without a blank line. */
  lemma {:induction false} NormalTight(s: Section, k: nat, i: nat)
    requires NoRepeats(s.subsections) && k < |NormalSection(s).subsections|
    requires var lines := Texts(NormalSection(s).subsections[k].lines); StartsWithItem(lines) && 0 < i < |lines| && lines[i].Item?
    ensures !Texts(NormalSection(s).subsections[k].lines)[i - 1].Blank?
  {
    hide *;
    NormalSettled(s);
    SettledAt(NormalSection(s).subsections, k);
    SettledTight(NormalSection(s).subsections[k], i);
  }
}
