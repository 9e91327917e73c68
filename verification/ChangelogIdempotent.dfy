/** Fixing a fixed changelog again (scripts/fix-changelogs.ts). */
module ChangelogIdempotent {
  import opened LineSplit
  import opened ChangelogDocument
  import opened ChangelogRender
  import opened ChangelogRoundTrip
  import opened ChangelogItems
  import opened ChangelogKeys
  import opened ChangelogNormalize
  import opened ChangelogLayout
  import opened ChangelogMoves
  import opened ChangelogPromote
  import opened ChangelogFix
  import opened ChangelogConservation
  import opened ChangelogFixedFile
  import opened ChangelogOnce
  import opened ChangelogText
  import StableSort
  import VersionOrder

  // ---------------------------------------------------------------- what a section depends on

  function Tidied(subs: seq<Sub>): seq<Subsection<Line>> {
    TidySubsections(SubsectionTexts(subs))
  }

  lemma {:induction false} TidiedUnfolds(subs: seq<Sub>)
    requires subs != []
    ensures var x, lines := subs[0], Trim(Texts(subs[0].lines));
            Tidied(subs) == (if lines == [] then [] else [Subsection(x.title, lines)]) + Tidied(subs[1..])
  {
    assert SubsectionTexts(subs)[1..] == SubsectionTexts(subs[1..]);
  }

  /** The rest of the loop over subsections. */
  function NormalFrom(subs: seq<Sub>, given: seq<Sub>): seq<Sub>
    decreases |given|
  {
    if given == [] then subs else NormalFrom(Gather(subs, given[0]), given[1..])
  }

  lemma {:induction false} NormalFromTo(given: seq<Sub>, n: nat)
    requires n <= |given|
    ensures NormalFrom(NormalTo(given, n), given[n..]) == NormalSubs(given)
    decreases |given| - n
  {
    hide Gather;
    if n == |given| {
      assert given[n..] == [];
    } else {
      assert given[n..][1..] == given[n + 1..];
      NormalFromTo(given, n + 1);
    }
  }

  lemma {:induction false} GatherAlike(subs: seq<Sub>, x: Sub, y: Sub)
    ensures Trim(Texts(x.lines)) == [] ==> Gather(subs, x) == subs
    ensures x.title == y.title && Trim(Texts(x.lines)) == Trim(Texts(y.lines)) ==> Gather(subs, x) == Gather(subs, y)
  {
    assert Compact([]) == [];
  }

  lemma {:induction false} NormalFromSame(subs: seq<Sub>, a: seq<Sub>, b: seq<Sub>)
    requires Tidied(a) == Tidied(b)
    ensures NormalFrom(subs, a) == NormalFrom(subs, b)
    decreases |a| + |b|
  {
    if a != [] {
      TidiedUnfolds(a);
      GatherAlike(subs, a[0], if b == [] then a[0] else b[0]);
    }
    if b != [] {
      TidiedUnfolds(b);
      GatherAlike(subs, b[0], b[0]);
    }
    assert Tidied([]) == [];
    hide Tidied, Gather, Trim, Texts;
    if a != [] && Trim(Texts(a[0].lines)) == [] {
      NormalFromSame(subs, a[1..], b);
    } else if b != [] && Trim(Texts(b[0].lines)) == [] {
      NormalFromSame(subs, a, b[1..]);
    } else if a != [] && b != [] {
      assert Tidied(a)[1..] == Tidied(a[1..]) && Tidied(b)[1..] == Tidied(b[1..]);
      assert Tidied(a)[0] == Tidied(b)[0];
      NormalFromSame(Gather(subs, a[0]), a[1..], b[1..]);
    }
  }

  /** Normalizing does not see line numbers, blank margins and empty subsections. */
  lemma {:induction false} NormalSame(a: Section, b: Section)
    requires TidySection(SectionText(a)) == TidySection(SectionText(b))
    ensures NormalSection(a) == NormalSection(b)
  {
    NormalFromTo(a.subsections, 0);
    NormalFromTo(b.subsections, 0);
    assert a.subsections[0..] == a.subsections && b.subsections[0..] == b.subsections;
    assert Texts(a.leading) == SectionText(a).leading && Texts(b.leading) == SectionText(b).leading;
    hide NormalSubs, NormalFrom, Trim;
    NormalFromSame([], a.subsections, b.subsections);
  }

  // ---------------------------------------------------------------- entries

  /** An entry stands in some subsection. */
  predicate KeyIn(subs: seq<Sub>, key: Key) {
    exists k :: 0 <= k < |subs| && key in Keys(Texts(subs[k].lines))
  }

  predicate TextKeyIn(subs: seq<Subsection<Line>>, key: Key) {
    subs != [] && (key in Keys(subs[0].lines) || TextKeyIn(subs[1..], key))
  }

  lemma {:induction false} KeyInFirst(subs: seq<Sub>, key: Key)
    requires subs != []
    ensures KeyIn(subs, key) <==> key in Keys(Texts(subs[0].lines)) || KeyIn(subs[1..], key)
  {
    hide Keys;
    if KeyIn(subs, key) {
      var k :| 0 <= k < |subs| && key in Keys(Texts(subs[k].lines));
      assert k > 0 ==> subs[1..][k - 1] == subs[k];
    }
    if KeyIn(subs[1..], key) {
      var k :| 0 <= k < |subs[1..]| && key in Keys(Texts(subs[1..][k].lines));
      assert subs[k + 1] == subs[1..][k];
    }
  }

  lemma {:induction false} KeyOfTidied(subs: seq<Sub>, key: Key)
    ensures KeyIn(subs, key) <==> TextKeyIn(Tidied(subs), key)
  {
    if subs != [] {
      KeyInFirst(subs, key);
      TidiedUnfolds(subs);
      KeysOfTrim(Texts(subs[0].lines));
      KeyOfTidied(subs[1..], key);
      assert Keys([]) == [];
      hide Keys, KeyIn, Tidied, Trim;
      if Trim(Texts(subs[0].lines)) != [] {
        assert Tidied(subs)[1..] == Tidied(subs[1..]);
      } else {
        assert Tidied(subs) == Tidied(subs[1..]);
      }
    }
  }

  lemma {:induction false} KeyOfPush(subs: seq<Sub>, x: Sub, key: Key)
    ensures KeyIn(subs + [x], key) <==> KeyIn(subs, key) || key in Keys(Texts(x.lines))
  {
    hide Keys;
    if KeyIn(subs, key) {
      var k :| 0 <= k < |subs| && key in Keys(Texts(subs[k].lines));
      assert (subs + [x])[k] == subs[k];
    }
    if key in Keys(Texts(x.lines)) {
      assert (subs + [x])[|subs|] == x;
    }
  }

  lemma {:induction false} KeyGathered(subs: seq<Sub>, x: Sub, key: Key)
    requires Filled(x) ==> IndexOf(subs, x.title) == |subs|
    ensures KeyIn(Gather(subs, x), key) <==> KeyIn(subs, key) || key in Keys(Texts(x.lines))
  {
    var lines := Compact(Trim(Texts(x.lines)));
    CompactedSolid(x);
    KeysOfCompact(Trim(Texts(x.lines)));
    KeysOfTrim(Texts(x.lines));
    SyntheticTexts(lines);
    assert Keys([]) == [];
    hide Keys, KeyIn, Compact, Trim, IndexOf;
    if lines != [] {
      KeyOfPush(subs, Subsection(x.title, Synthetic(lines)), key);
    }
  }

  /** Without repeated headings, normalizing leaves the entries as they are. */
  lemma {:induction false} KeyNormal(given: seq<Sub>, n: nat, key: Key)
    requires n <= |given| && NoRepeats(given)
    ensures KeyIn(NormalTo(given, n), key) <==> KeyIn(given[..n], key)
  {
    hide *;
    if n == 0 {
      NormalOfNone(given);
    } else {
      NormalUnfolds(given, n);
      KeyNormal(given, n - 1, key);
      GatheredInOrder(given, n - 1);
      if Filled(given[n - 1]) {
        NotYet(NormalTo(given, n - 1), given, n - 1);
      }
      KeyGathered(NormalTo(given, n - 1), given[n - 1], key);
      KeyOfPush(given[..n - 1], given[n - 1], key);
      assert given[..n] == given[..n - 1] + [given[n - 1]];
    }
  }

  lemma {:induction false} KeyOfBag(a: seq<Sub>, b: seq<Sub>, key: Key)
    requires multiset(a) == multiset(b) && KeyIn(a, key)
    ensures KeyIn(b, key)
  {
    hide Keys;
    var k :| 0 <= k < |a| && key in Keys(Texts(a[k].lines));
    assert a[k] in multiset(b);
    var j :| 0 <= j < |b| && b[j] == a[k];
  }

  lemma {:induction false} KeyOfNormal(s: Section, key: Key)
    requires NoRepeats(s.subsections) && KeyIn(NormalSection(s).subsections, key)
    ensures KeyIn(s.subsections, key)
  {
    var subs := NormalSubs(s.subsections);
    assert s.subsections[..|s.subsections|] == s.subsections;
    KeyNormal(s.subsections, |s.subsections|, key);
    assert KeyIn(NormalSubs(s.subsections), key) ==> KeyIn(s.subsections, key);
    hide NormalSubs, KeyIn, Trim, NoRepeats;
    if s.title == UNRELEASED {
      StableSort.SortSorts(subs, ByTitle());
      KeyOfBag(NormalSection(s).subsections, subs, key);
    }
  }

  // ---------------------------------------------------------------- nothing to drop, nothing to move

  lemma {:induction false} NothingPicked(lines: seq<NumberedLine>, keys: set<Key>)
    requires forall key :: key in Keys(Texts(lines)) ==> key !in keys
    ensures Picked(lines, InKeys(keys)) == []
  {
    hide Picked, Keys;
    if Picked(lines, InKeys(keys)) != [] {
      PickedInKeys(lines, InKeys(keys), 0);
    }
  }

  lemma {:induction false} NothingDropped(sections: seq<Section>, keys: set<Key>)
    requires First(sections) >= 0 ==> forall key :: KeyIn(sections[First(sections)].subsections, key) ==> key !in keys
    ensures Dropped(sections, keys) == sections
  {
    var u := First(sections);
    if u >= 0 {
      var subs := sections[u].subsections;
      hide Picked, Keys, FirstFrom, StripTo;
      forall i | 0 <= i < |subs| ensures Picked(subs[i].lines, InKeys(keys)) == [] {
        forall key | key in Keys(Texts(subs[i].lines)) ensures key !in keys {
          assert KeyIn(subs, key);
        }
        NothingPicked(subs[i].lines, keys);
      }
      NonePicked(subs, InKeys(keys), |subs|);
      assert sections == sections[u := sections[u]];
    }
  }

  lemma {:induction false} NoneStart(lines: seq<NumberedLine>)
    ensures Picked(lines, StartIn({})) == []
  {
    hide Picked;
    if Picked(lines, StartIn({})) != [] {
      PickedInKeys(lines, StartIn({}), 0);
    }
  }

  lemma {:induction false} NothingMoves(sections: seq<Section>, n: nat)
    requires n <= |sections|
    ensures AllMoves(sections, StartIn({}), n) == [] && StripAll(sections, StartIn({}), n) == sections
  {
    hide Picked, SubMoves, StripTo, StartIn;
    forall i | 0 <= i < |sections|
      ensures SubMoves(sections[i].subsections, StartIn({}), |sections[i].subsections|) == [] && StripSection(sections[i], StartIn({})) == sections[i]
    {
      var subs := sections[i].subsections;
      forall k | 0 <= k < |subs| ensures Picked(subs[k].lines, StartIn({})) == [] {
        NoneStart(subs[k].lines);
      }
      NonePicked(subs, StartIn({}), |subs|);
    }
    if n > 0 {
      NothingMoves(sections, n - 1);
    }
  }

  /** Without promotable lines, only duplicates are taken out. */
  lemma {:induction false} MovedNone(content: seq<Line>, historical: set<Key>)
    ensures Moved(content, {}, historical) == Deduplicated(content, historical)
  {
    var sections := Deduplicated(content, historical);
    NothingMoves(sections, |sections|);
  }

  // ---------------------------------------------------------------- arranging again

  lemma {:induction false} OnlyJoin<T>(a: seq<T>, b: seq<T>, p: T -> bool)
    ensures StableSort.Only(a + b, p) == StableSort.Only(a, p) + StableSort.Only(b, p)
  {
    if a == [] {
      assert a + b == b;
    } else {
      OnlyJoin(a[1..], b, p);
      assert (a + b)[1..] == a[1..] + b;
      Associates([a[0]], StableSort.Only(a[1..], p), StableSort.Only(b, p));
    }
  }

  lemma {:induction false} OnlyAll<T>(a: seq<T>, p: T -> bool)
    requires forall i :: 0 <= i < |a| ==> p(a[i])
    ensures StableSort.Only(a, p) == a
  {
    if a != [] {
      OnlyAll(a[1..], p);
    }
  }

  lemma {:induction false} OnlyNone<T>(a: seq<T>, p: T -> bool)
    requires forall i :: 0 <= i < |a| ==> !p(a[i])
    ensures StableSort.Only(a, p) == []
  {
    if a != [] {
      OnlyNone(a[1..], p);
    }
  }

  /** Arranging what is arranged changes nothing. */
  lemma {:induction false} ArrangeTwice(t: seq<Section>, parts: VersionOrder.Parts)
    ensures Arrange(Arrange(t, parts), parts) == Arrange(t, parts)
  {
    var u, r := StableSort.Only(t, IsUnreleased()), StableSort.Sort(StableSort.Only(t, IsReleased()), ByVersion(parts));
    Halves(t, parts);
    OnlyJoin(u, r, IsUnreleased());
    OnlyJoin(u, r, IsReleased());
    OnlyAll(u, IsUnreleased());
    OnlyNone(r, IsUnreleased());
    OnlyNone(u, IsReleased());
    OnlyAll(r, IsReleased());
    StableSort.SortOrdered(r, ByVersion(parts));
    assert [] + r == r && u + [] == u;
  }

  lemma {:induction false} OnlyFirst(t: seq<Section>, k: nat)
    requires k < |t| && t[k].title == UNRELEASED && forall i :: 0 <= i < k ==> t[i].title != UNRELEASED
    ensures StableSort.Only(t, IsUnreleased()) != [] && StableSort.Only(t, IsUnreleased())[0] == t[k]
  {
    if k > 0 {
      OnlyFirst(t[1..], k - 1);
    }
  }

  /** The first [Unreleased] stays the first. */
  lemma {:induction false} FirstArranged(t: seq<Section>, parts: VersionOrder.Parts)
    requires First(Arrange(t, parts)) >= 0
    ensures First(t) >= 0 && Arrange(t, parts)[First(Arrange(t, parts))] == t[First(t)]
  {
    var a := Arrange(t, parts);
    var k := First(a);
    Halves(t, parts);
    ArrangePermutes(t, parts);
    assert a[k] in multiset(t);
    var p :| 0 <= p < |t| && t[p] == a[k];
    OnlyFirst(t, First(t));
    assert a[0] == t[First(t)];
    FirstAt(a, 0);
  }

  // ---------------------------------------------------------------- the fixed file again

  /** No section of the file repeats a heading that has text under it. */
  predicate HeadingsOnce(content: seq<Line>) {
    forall i :: 0 <= i < |Parsed(content).sections| ==> NoRepeats(Parsed(content).sections[i].subsections)
  }

  lemma {:induction false} StrippedFilled(x: Sub, q: Test)
    requires Filled(Strip(x, q))
    ensures Filled(x)
  {
    StripText(x, q, Solid(Texts(Strip(x, q).lines))[0]);
  }

  lemma {:induction false} DeduplicatedOnce(content: seq<Line>, historical: set<Key>, p: nat)
    requires HeadingsOnce(content) && p < |Deduplicated(content, historical)|
    ensures NoRepeats(Deduplicated(content, historical)[p].subsections)
  {
    var sections, now := Parsed(content).sections, Deduplicated(content, historical);
    var u, keys := First(sections), ReleasedKeys(sections, |sections|) + historical;
    var subs, left := sections[p].subsections, now[p].subsections;
    assert NoRepeats(subs);
    hide Strip, Filled, ReleasedKeys, FirstFrom;
    if p == u {
      forall i, j | 0 <= i < j < |left| && Filled(left[i]) && Filled(left[j]) ensures left[i].title != left[j].title {
        assert left[i] == Strip(subs[i], InKeys(keys)) && left[j] == Strip(subs[j], InKeys(keys));
        StrippedFilled(subs[i], InKeys(keys));
        StrippedFilled(subs[j], InKeys(keys));
        StripTitle(subs[i], InKeys(keys));
        StripTitle(subs[j], InKeys(keys));
      }
    }
  }

  lemma {:induction false} StripTitle(x: Sub, q: Test)
    ensures Strip(x, q).title == x.title
  {
  }

  /** Every section of the fixed file is a normalized section of the original, without its duplicates. */
  lemma {:induction false} FixedSource(content: seq<Line>, historical: set<Key>, parts: VersionOrder.Parts, i: nat) returns (p: nat)
    requires HeadingsOnce(content) && i < |Arrange(FixedSections(content, {}, historical), parts)|
    ensures p < |Deduplicated(content, historical)| && NoRepeats(Deduplicated(content, historical)[p].subsections)
    ensures Arrange(FixedSections(content, {}, historical), parts)[i] == NormalSection(Deduplicated(content, historical)[p])
  {
    var t := FixedSections(content, {}, historical);
    MovedNone(content, historical);
    ArrangePermutes(t, parts);
    hide Arrange, Moved, Deduplicated, HeadingsOnce, NoRepeats, NormalSection;
    assert Arrange(t, parts)[i] in multiset(t);
    p :| 0 <= p < |t| && t[p] == Arrange(t, parts)[i];
    DeduplicatedOnce(content, historical, p);
  }

  lemma {:induction false} AlikeKeys(a: Section, b: Section, key: Key)
    requires TidySection(SectionText(a)) == TidySection(SectionText(b)) && KeyIn(a.subsections, key)
    ensures KeyIn(b.subsections, key)
  {
    KeyOfTidied(a.subsections, key);
    KeyOfTidied(b.subsections, key);
  }

  /** An entry that a release of the fixed file has is one that a release of the original has. */
  lemma {:induction false} ReleasedSource(content: seq<Line>, historical: set<Key>, parts: VersionOrder.Parts, key: Key)
    requires HeadingsOnce(content)
    requires var now := Parsed(FixedContent(content, {}, historical, parts)).sections; key in ReleasedKeys(now, |now|)
    ensures key in ReleasedKeys(Parsed(content).sections, |Parsed(content).sections|)
  {
    var now := Parsed(FixedContent(content, {}, historical, parts)).sections;
    var sections, s1 := Parsed(content).sections, Deduplicated(content, historical);
    var i, k := KeySource(now, |now|, key);
    assert KeyIn(now[i].subsections, key);
    FixedParsed(content, {}, historical, parts);
    var p := FixedSource(content, historical, parts, i);
    AlikeKeys(now[i], NormalSection(s1[p]), key);
    assert now[i].title == s1[p].title;
    hide *;
    KeyOfNormal(s1[p], key);
    KeptRelease(content, historical, p, key);
  }

  lemma {:induction false} KeptRelease(content: seq<Line>, historical: set<Key>, p: nat, key: Key)
    requires p < |Deduplicated(content, historical)| && Deduplicated(content, historical)[p].title != UNRELEASED
    requires KeyIn(Deduplicated(content, historical)[p].subsections, key)
    ensures key in ReleasedKeys(Parsed(content).sections, |Parsed(content).sections|)
  {
    var sections, s1 := Parsed(content).sections, Deduplicated(content, historical);
    assert s1[p] == sections[p];
    hide Keys, ReleasedKeys, Strip;
    var j :| 0 <= j < |s1[p].subsections| && key in Keys(Texts(s1[p].subsections[j].lines));
    ReleasedKeyHolds(sections, |sections|, p, j, key);
  }

  /** No entry of the [Unreleased] of the fixed file is one that was to be dropped. */
  lemma {:induction false} UnreleasedSource(content: seq<Line>, historical: set<Key>, parts: VersionOrder.Parts, key: Key)
    requires HeadingsOnce(content)
    requires var now := Parsed(FixedContent(content, {}, historical, parts)).sections;
             First(now) >= 0 && KeyIn(now[First(now)].subsections, key)
    ensures key !in ReleasedKeys(Parsed(content).sections, |Parsed(content).sections|) + historical
  {
    var now := Parsed(FixedContent(content, {}, historical, parts)).sections;
    var sections, s1, t := Parsed(content).sections, Deduplicated(content, historical), FixedSections(content, {}, historical);
    var u := First(now);
    FixedParsed(content, {}, historical, parts);
    MovedNone(content, historical);
    var a := Arrange(t, parts);
    AlikeFirst(now, a);
    FirstArranged(t, parts);
    AlikeKeys(now[u], a[u], key);
    FirstNormal(s1);
    var v := First(s1);
    DeduplicatedOnce(content, historical, v);
    KeyOfNormal(s1[v], key);
    UnreleasedStripped(content, historical, key);
  }

  lemma {:induction false} AlikeFirst(a: seq<Section>, b: seq<Section>)
    requires Alike(a, b)
    ensures First(a) == First(b)
  {
    assert forall i :: 0 <= i < |a| ==> a[i].title == b[i].title by {
      forall i | 0 <= i < |a| ensures a[i].title == b[i].title {
        assert TidySection(SectionText(a[i])) == TidySection(SectionText(b[i]));
      }
    }
    TitlesFirst(a, b);
  }

  lemma {:induction false} TitlesFirst(a: seq<Section>, b: seq<Section>)
    requires |a| == |b| && forall i :: 0 <= i < |a| ==> a[i].title == b[i].title
    ensures First(a) == First(b)
  {
    if First(a) < 0 {
      FirstNone(b);
    } else {
      FirstAt(b, First(a));
    }
  }

  lemma {:induction false} FirstNormal(sections: seq<Section>)
    ensures First(NormalSections(sections)) == First(sections)
  {
    hide NormalSubs;
    TitlesFirst(NormalSections(sections), sections);
  }

  lemma {:induction false} UnreleasedStripped(content: seq<Line>, historical: set<Key>, key: Key)
    requires var s1 := Deduplicated(content, historical); First(s1) >= 0 && KeyIn(s1[First(s1)].subsections, key)
    ensures key !in ReleasedKeys(Parsed(content).sections, |Parsed(content).sections|) + historical
  {
    var sections, s1 := Parsed(content).sections, Deduplicated(content, historical);
    var keys := ReleasedKeys(sections, |sections|) + historical;
    TitlesFirst(s1, sections);
    var u := First(sections);
    assert s1[u] == StripSection(sections[u], InKeys(keys));
    var subs := sections[u].subsections;
    hide Keys, Strip, ReleasedKeys, FirstFrom;
    var k :| 0 <= k < |s1[u].subsections| && key in Keys(Texts(s1[u].subsections[k].lines));
    assert s1[u].subsections[k] == Strip(subs[k], InKeys(keys));
    if key in keys {
      StrippedOfKeys(subs[k], keys, key);
    }
  }

  /** In the fixed file there is nothing to drop. */
  lemma {:induction false} NothingLeft(content: seq<Line>, historical: set<Key>, parts: VersionOrder.Parts)
    requires HeadingsOnce(content)
    ensures var fixed := FixedContent(content, {}, historical, parts);
            Deduplicated(fixed, historical) == Parsed(fixed).sections
  {
    var now := Parsed(FixedContent(content, {}, historical, parts)).sections;
    var keys := ReleasedKeys(now, |now|) + historical;
    hide FixedContent, Parsed, ReleasedKeys, FirstFrom, HeadingsOnce, KeyIn, Dropped;
    if First(now) >= 0 {
      forall key | KeyIn(now[First(now)].subsections, key) ensures key !in keys {
        UnreleasedSource(content, historical, parts, key);
        if key in ReleasedKeys(now, |now|) {
          ReleasedSource(content, historical, parts, key);
        }
      }
    }
    NothingDropped(now, keys);
  }

  lemma {:induction false} NormalAgain(content: seq<Line>, historical: set<Key>, parts: VersionOrder.Parts)
    requires HeadingsOnce(content)
    ensures NormalSections(Parsed(FixedContent(content, {}, historical, parts)).sections) ==
            Arrange(FixedSections(content, {}, historical), parts)
  {
    var now, a := Parsed(FixedContent(content, {}, historical, parts)).sections, Arrange(FixedSections(content, {}, historical), parts);
    FixedParsed(content, {}, historical, parts);
    hide FixedContent, Parsed, Arrange, FixedSections, NormalSection, HeadingsOnce, TidySection, SectionText, Deduplicated, NoRepeats;
    forall i | 0 <= i < |now| ensures NormalSection(now[i]) == a[i] {
      var p := FixedSource(content, historical, parts, i);
      NormalSame(now[i], a[i]);
      NormalTwice(Deduplicated(content, historical)[p]);
    }
  }

  /** Fixing a fixed file changes nothing, if no heading with text under it was repeated within a section. */
  lemma {:induction false} FixTwice(content: seq<Line>, historical: set<Key>, parts: VersionOrder.Parts)
    requires HeadingsOnce(content)
    ensures var fixed := FixedContent(content, {}, historical, parts);
            FixedContent(fixed, {}, historical, parts) == fixed
  {
    var t, fixed := FixedSections(content, {}, historical), FixedContent(content, {}, historical, parts);
    MovedNone(fixed, historical);
    NothingLeft(content, historical, parts);
    NormalAgain(content, historical, parts);
    ArrangeTwice(t, parts);
    assert FixedSections(fixed, {}, historical) == Arrange(t, parts);
    FixedParsed(content, {}, historical, parts);
    PrintsAlike(Parsed(fixed).prefix, Parsed(content).prefix, Arrange(t, parts));
  }

  lemma {:induction false} PrintsAlike(a: seq<NumberedLine>, b: seq<NumberedLine>, sections: seq<Section>)
    requires Trim(Texts(a)) == Trim(Texts(b))
    ensures Print(DocumentText(Document(a, sections))) == Print(DocumentText(Document(b, sections)))
  {
    var x, y := DocumentText(Document(a, sections)), DocumentText(Document(b, sections));
    PrintTidy(x);
    PrintTidy(y);
    assert Tidy(x) == Tidy(y);
  }

  // ---------------------------------------------------------------- a repeated heading

  const FIRST: seq<Line> := [Item("a"), Text("b")]

  const SECOND: seq<Line> := [Item("c")]

  /** A release whose heading "Fixed" stands twice; the first time, its last line is not a bullet. */
  function Repeated(): Document<Line> {
    Document([], [ReleaseSection("1.0.0", "", [], [Subsection("Fixed", FIRST), Subsection("Fixed", SECOND)])])
  }

  /** The same, with line numbers that do not matter. */
  function Renumbered(): Section {
    ReleaseSection("1.0.0", "", [], [Subsection("Fixed", Synthetic(FIRST)), Subsection("Fixed", Synthetic(SECOND))])
  }

  lemma {:induction false} RepeatedShaped()
    ensures Shaped(Repeated())
  {
    var sections := Repeated().sections;
    var subs := sections[0].subsections;
    Heads();
    NoHeadingsInside(FIRST);
    NoHeadingsInside(SECOND);
    assert subs[1..] == [Subsection("Fixed", SECOND)] && subs[1..][1..] == [] && sections[1..] == [];
    assert ShapedSubsections(subs[1..]);
    assert ShapedSubsections(subs);
  }

  lemma {:induction false} RenumberedText()
    ensures SectionText(Renumbered()) == Repeated().sections[0]
  {
    SyntheticTexts(FIRST);
    SyntheticTexts(SECOND);
    hide Synthetic;
    var subs := Renumbered().subsections;
    assert subs[1..] == [Subsection("Fixed", Synthetic(SECOND))] && subs[1..][1..] == [];
    assert SubsectionTexts(subs[1..]) == [Subsection("Fixed", SECOND)];
  }

  lemma {:induction false} RepeatedParsed()
    ensures var content := DocumentLines(Repeated());
            var sections := Parsed(content).sections; |sections| == 1 && SectionText(sections[0]) == SectionText(Renumbered())
  {
    var content := DocumentLines(Repeated());
    RepeatedShaped();
    RenumberedText();
    ParseOfLines(Repeated());
    ParsedText(content);
    hide DocumentLines, Parsed, SectionText, SectionTexts;
    SectionTextsAt(Parsed(content).sections, 0);
  }

  lemma {:induction false} BlockCompact(block: seq<Line>)
    requires IsBlock(block)
    ensures Trim(block) == block && Compact(block) == block
  {
    TrimOfTrimmed(block);
    KeysOfBlock(block);
    assert Flatten([block]) == block + Flatten([]);
  }

  lemma {:induction false} Blocks()
    ensures IsBlock(FIRST) && IsBlock(SECOND)
  {
    ItemHeads();
    assert NoHead(FIRST[1..], IsItem(Same)) && NoHead(SECOND[1..], IsItem(Same));
  }

  lemma {:induction false} RepeatedKeys()
    ensures Keys(FIRST + [EMPTY] + SECOND) == [FIRST, SECOND]
  {
    var first := FIRST + [EMPTY];
    Blocks();
    BlockCompact(FIRST);
    assert first[..|first| - 1] == FIRST;
    assert Trim(first) == FIRST;
    hide Keys, IsBlock, Trim;
    KeysOfTrim(first);
    KeysOfBlock(FIRST);
    KeysOfBlock(SECOND);
    KeysJoin(first, SECOND);
  }

  /** Below a line that is not a bullet, an appended bullet gets a blank line, which compacting takes away. */
  lemma {:induction false} RepeatedBlock()
    ensures Appended(FIRST, SECOND) == FIRST + [EMPTY] + SECOND
    ensures Compact(FIRST + [EMPTY] + SECOND) == FIRST + SECOND
  {
    Blocks();
    BlockCompact(FIRST);
    BlockCompact(SECOND);
    RepeatedKeys();
    TrimOfTrimmed(FIRST + [EMPTY] + SECOND);
    hide Keys, Trim, IsBlock;
    assert Flatten([FIRST, SECOND]) == FIRST + Flatten([SECOND]) && Flatten([SECOND]) == SECOND + Flatten([]);
  }

  lemma {:induction false} GatherFirst(x: Sub)
    requires Compact(Trim(Texts(x.lines))) != []
    ensures Gather([], x) == [Subsection(x.title, Synthetic(Compact(Trim(Texts(x.lines)))))]
  {
    hide Compact, Trim, Texts, Synthetic;
  }

  lemma {:induction false} GatherBelow(first: Sub, x: Sub)
    requires first.title == x.title && Compact(Trim(Texts(x.lines))) != []
    ensures Gather([first], x) == [AppendTo(first, Compact(Trim(Texts(x.lines))))]
  {
    hide Compact, Trim, Texts, Synthetic, AppendTo;
  }

  lemma {:induction false} RepeatedOnce()
    ensures NormalSubs(Renumbered().subsections) == [Subsection("Fixed", Synthetic(FIRST + [EMPTY] + SECOND))]
  {
    var given := Renumbered().subsections;
    RepeatedBlock();
    Blocks();
    BlockCompact(FIRST);
    BlockCompact(SECOND);
    SyntheticTexts(FIRST);
    SyntheticTexts(SECOND);
    GatherFirst(given[0]);
    GatherBelow(given[0], given[1]);
    hide Gather, Compact, Trim, Appended, Texts, Synthetic;
    NormalUnfolds(given, 1);
    NormalUnfolds(given, 2);
  }

  lemma {:induction false} RepeatedAgain()
    ensures NormalSubs([Subsection("Fixed", Synthetic(FIRST + [EMPTY] + SECOND))]) == [Subsection("Fixed", Synthetic(FIRST + SECOND))]
  {
    var again := [Subsection("Fixed", Synthetic(FIRST + [EMPTY] + SECOND))];
    RepeatedBlock();
    SyntheticTexts(FIRST + [EMPTY] + SECOND);
    TrimOfTrimmed(FIRST + [EMPTY] + SECOND);
    GatherFirst(again[0]);
    hide Gather, Compact, Trim, Appended, Texts, Synthetic;
    NormalUnfolds(again, 1);
  }

  lemma {:induction false} RepeatedNormal()
    ensures NormalSection(Renumbered()).subsections == [Subsection("Fixed", Synthetic(FIRST + [EMPTY] + SECOND))]
    ensures NormalSection(NormalSection(Renumbered())).subsections == [Subsection("Fixed", Synthetic(FIRST + SECOND))]
  {
    RepeatedOnce();
    RepeatedAgain();
    hide NormalSubs, Synthetic, Trim;
  }

  lemma {:induction false} OneReleased(content: seq<Line>, s: Section, parts: VersionOrder.Parts)
    requires |Parsed(content).sections| == 1 && s.title != UNRELEASED
    requires TidySection(SectionText(Parsed(content).sections[0])) == TidySection(SectionText(s))
    ensures Arrange(FixedSections(content, {}, {}), parts) == [NormalSection(s)]
  {
    var sections := Parsed(content).sections;
    NormalSame(sections[0], s);
    assert sections[0].title == s.title;
    MovedNone(content, {});
    FirstNone(sections);
    assert Deduplicated(content, {}) == sections;
    ArrangeOne(NormalSection(s), parts);
    hide *;
    NormalOne(content, s);
  }

  lemma {:induction false} NormalOne(content: seq<Line>, s: Section)
    requires |Parsed(content).sections| == 1 && Moved(content, {}, {}) == Parsed(content).sections
    requires NormalSection(Parsed(content).sections[0]) == NormalSection(s)
    ensures FixedSections(content, {}, {}) == [NormalSection(s)]
  {
    hide Parsed, NormalSection, Moved;
  }

  lemma {:induction false} ArrangeOne(s: Section, parts: VersionOrder.Parts)
    requires s.title != UNRELEASED
    ensures Arrange([s], parts) == [s]
  {
    OnlyNone([s], IsUnreleased());
    OnlyAll([s], IsReleased());
    StableSort.SortOrdered([s], ByVersion(parts));
  }

  /** A file with a repeated heading that is not the same after the second fix as after the first. */
  lemma {:induction false} RepeatedHeadingChanges(parts: VersionOrder.Parts)
    ensures var fixed := FixedContent(DocumentLines(Repeated()), {}, {}, parts);
            FixedContent(fixed, {}, {}, parts) != fixed
  {
    var content := DocumentLines(Repeated());
    var fixed := FixedContent(content, {}, {}, parts);
    var once, twice := NormalSection(Renumbered()), NormalSection(NormalSection(Renumbered()));
    RepeatedParsed();
    RepeatedNormal();
    OneReleased(content, Renumbered(), parts);
    FixedParsed(content, {}, {}, parts);
    OneReleased(fixed, once, parts);
    FixedParsed(fixed, {}, {}, parts);
    assert once.title == "1.0.0";
    hide FixedContent, Parsed, Arrange, FixedSections, DocumentLines, NormalSection, TidySection, SectionText;
    if FixedContent(fixed, {}, {}, parts) == fixed {
      var now := Parsed(fixed).sections;
      assert TidySection(SectionText(now[0])) == TidySection(SectionText(once));
      assert TidySection(SectionText(now[0])) == TidySection(SectionText(twice));
      TidiedApart(once, twice);
    }
  }

  lemma {:induction false} TidiedApart(once: Section, twice: Section)
    requires once.subsections == [Subsection("Fixed", Synthetic(FIRST + [EMPTY] + SECOND))]
    requires twice.subsections == [Subsection("Fixed", Synthetic(FIRST + SECOND))]
    ensures TidySection(SectionText(once)) != TidySection(SectionText(twice))
  {
    SyntheticTexts(FIRST + [EMPTY] + SECOND);
    SyntheticTexts(FIRST + SECOND);
    TrimOfTrimmed(FIRST + [EMPTY] + SECOND);
    TrimOfTrimmed(FIRST + SECOND);
    hide Trim, Synthetic;
    TidiedUnfolds(once.subsections);
    TidiedUnfolds(twice.subsections);
    assert Tidied(once.subsections)[0].lines == FIRST + [EMPTY] + SECOND;
    assert Tidied(twice.subsections)[0].lines == FIRST + SECOND;
    assert |FIRST + [EMPTY] + SECOND| != |FIRST + SECOND|;
  }
}
