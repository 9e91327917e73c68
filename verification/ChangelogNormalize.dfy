/** Merging, dropping and ordering the subsections of a release (scripts/fix-changelogs.ts). */
module ChangelogNormalize {
  import opened LineSplit
  import opened ChangelogDocument
  import opened ChangelogRender
  import opened ChangelogItems
  import opened ChangelogKeys
  import StableSort

  type Sub = Subsection<NumberedLine>

  type Section = ReleaseSection<NumberedLine>

  const UNRELEASED := "Unreleased"

  // ---------------------------------------------------------------- what stands under a title

  /** The text under a title in the first `n` subsections, in order. */
  function UnderTo(subs: seq<Sub>, n: nat, title: string): seq<Line>
    requires n <= |subs|
  {
    if n == 0 then []
    else if subs[n - 1].title == title then UnderTo(subs, n - 1, title) + Solid(Texts(subs[n - 1].lines))
    else UnderTo(subs, n - 1, title)
  }

  function Under(subs: seq<Sub>, title: string): seq<Line> {
    UnderTo(subs, |subs|, title)
  }

  predicate DistinctTitles(subs: seq<Sub>) {
    forall i, j :: 0 <= i < j < |subs| ==> subs[i].title != subs[j].title
  }

  lemma {:induction false} UnderSame(a: seq<Sub>, b: seq<Sub>, n: nat, title: string)
    requires n <= |a| && n <= |b| && forall i :: 0 <= i < n ==> a[i] == b[i]
    ensures UnderTo(a, n, title) == UnderTo(b, n, title)
  {
    if n > 0 {
      UnderSame(a, b, n - 1, title);
    }
  }

  lemma {:induction false} UnderPush(subs: seq<Sub>, x: Sub, title: string)
    ensures Under(subs + [x], title) == Under(subs, title) + if x.title == title then Solid(Texts(x.lines)) else []
  {
    UnderSame(subs, subs + [x], |subs|, title);
  }

  lemma {:induction false} UnderNone(subs: seq<Sub>, n: nat, title: string)
    requires n <= |subs| && forall i :: 0 <= i < n ==> subs[i].title != title
    ensures UnderTo(subs, n, title) == []
  {
    if n > 0 {
      UnderNone(subs, n - 1, title);
    }
  }

  /** With distinct titles, one subsection holds all there is under its title. */
  lemma {:induction false} UnderOnly(subs: seq<Sub>, n: nat, k: nat)
    requires DistinctTitles(subs) && k < n <= |subs|
    ensures UnderTo(subs, n, subs[k].title) == Solid(Texts(subs[k].lines))
  {
    if k == n - 1 {
      UnderNone(subs, k, subs[k].title);
    } else {
      UnderOnly(subs, n - 1, k);
    }
  }

  // ---------------------------------------------------------------- normalizing

  datatype Normal = Normal(subs: seq<Sub>, merged: nat, removed: nat)

  /** Titles by position: what the map of subsections by title tells. */
  ghost predicate Indexed(subs: seq<Sub>, byTitle: map<string, nat>) {
    && (forall title :: title in byTitle ==> byTitle[title] < |subs| && subs[byTitle[title]].title == title)
    && (forall i :: 0 <= i < |subs| ==> subs[i].title in byTitle && byTitle[subs[i].title] == i)
  }

  /** `subs` hold what the first `n` given ones hold, title by title. */
  ghost predicate SameUnder(subs: seq<Sub>, given: seq<Sub>, n: nat)
    requires n <= |given|
  {
    forall title :: Under(subs, title) == UnderTo(given, n, title)
  }

  predicate NoneEmpty(subs: seq<Sub>) {
    forall i :: 0 <= i < |subs| ==> Solid(Texts(subs[i].lines)) != []
  }

  /** An item stands whole under a title. */
  predicate HasKey(subs: seq<Sub>, title: string, key: seq<Line>) {
    exists k :: 0 <= k < |subs| && subs[k].title == title && key in Keys(Texts(subs[k].lines))
  }

  /** The items of the last subsection with a title, among the first `n` given, stand whole under that title. */
  ghost predicate LastKept(subs: seq<Sub>, given: seq<Sub>, n: nat)
    requires n <= |given|
  {
    forall i, key :: 0 <= i < n && key in Keys(Texts(given[i].lines)) && IsLast(given, i, n) ==> HasKey(subs, given[i].title, key)
  }

  predicate IsLast(given: seq<Sub>, i: nat, n: nat)
    requires i < n <= |given|
  {
    forall j :: i < j < n ==> given[j].title != given[i].title
  }

  /** Where a title stands; the length if it does not. */
  function IndexOf(subs: seq<Sub>, title: string): (k: nat)
    ensures k <= |subs| && (k < |subs| ==> subs[k].title == title)
    ensures forall i :: 0 <= i < k ==> subs[i].title != title
  {
    if subs == [] || subs[0].title == title then 0 else 1 + IndexOf(subs[1..], title)
  }

  /** One more subsection: left out if it is empty, added to the one with its title, or put last. */
  function Gather(subs: seq<Sub>, x: Sub): seq<Sub> {
    var lines, k := Compact(Trim(Texts(x.lines))), IndexOf(subs, x.title);
    if lines == [] then subs
    else if k == |subs| then subs + [Subsection(x.title, Synthetic(lines))]
    else subs[k := AppendTo(subs[k], lines)]
  }

  function NormalTo(given: seq<Sub>, n: nat): seq<Sub>
    requires n <= |given|
  {
    if n == 0 then [] else Gather(NormalTo(given, n - 1), given[n - 1])
  }

  function NormalSubs(given: seq<Sub>): seq<Sub> {
    NormalTo(given, |given|)
  }

  /** The subsections among the first `n` that hold no text. */
  ghost function Empties(given: seq<Sub>, n: nat): set<nat>
    requires n <= |given|
  {
    set i: nat | i < n && Solid(Texts(given[i].lines)) == []
  }

  lemma {:induction false} EmptiesNext(given: seq<Sub>, n: nat)
    requires n < |given|
    ensures |Empties(given, n + 1)| == |Empties(given, n)| + if Compact(Trim(Texts(given[n].lines))) == [] then 1 else 0
  {
    CompactedSolid(given[n]);
    hide Compact, Trim, Texts, Solid;
    if Solid(Texts(given[n].lines)) == [] {
      assert Empties(given, n + 1) == Empties(given, n) + {n};
    } else {
      assert Empties(given, n + 1) == Empties(given, n);
    }
  }

  lemma {:induction false} NoEmpties(given: seq<Sub>)
    ensures Empties(given, 0) == {}
  {
  }

  /**
   `subsectionByTitle` finds subsections as a search through the list does; those without text are counted as removed, and
   the others that are gone as merged.
   */
  method NormalizeSubsections(given: seq<Sub>) returns (r: Normal)
    ensures r.subs == NormalSubs(given)
    ensures |r.subs| + r.merged + r.removed == |given| && r.removed == |Empties(given, |given|)|
  {
    var subs: seq<Sub>, merged, removed := [], 0, 0;
    var byTitle: map<string, nat> := map[];
    hide IndexOf, Compact, Trim, AppendTo, Appended, Indexed, Empties;
    IndexedNone();
    NoEmpties(given);
    for i := 0 to |given|
      invariant subs == NormalTo(given, i) && Indexed(subs, byTitle)
      invariant |subs| + merged + removed == i && removed == |Empties(given, i)|
    {
      EmptiesNext(given, i);
      var sub := given[i];
      IndexedFinds(subs, byTitle, sub.title);
      var outer := TrimBlankLines(Texts(sub.lines));
      var trimmedLines := CompactAdjacentListSpacing(outer);
      if |trimmedLines| == 0 {
        removed := removed + 1;
        continue;
      }
      if sub.title in byTitle {
        var k := byTitle[sub.title];
        var appended := AppendSubsectionLines(subs[k], trimmedLines);
        IndexedUpdate(subs, byTitle, k, appended);
        subs := subs[k := appended];
        merged := merged + 1;
        continue;
      }
      IndexedPush(subs, byTitle, Subsection(sub.title, Synthetic(trimmedLines)));
      byTitle := byTitle[sub.title := |subs|];
      subs := subs + [Subsection(sub.title, Synthetic(trimmedLines))];
    }
    r := Normal(subs, merged, removed);
  }

  lemma {:induction false} IndexedNone()
    ensures Indexed([], map[])
  {
  }

  lemma {:induction false} IndexedFinds(subs: seq<Sub>, byTitle: map<string, nat>, title: string)
    requires Indexed(subs, byTitle)
    ensures title in byTitle <==> IndexOf(subs, title) < |subs|
    ensures title in byTitle ==> byTitle[title] == IndexOf(subs, title)
  {
    var k := IndexOf(subs, title);
    if k < |subs| {
      assert subs[k].title in byTitle && byTitle[subs[k].title] == k;
    }
  }

  // ---------------------------------------------------------------- what normalizing keeps

  /** Each title once, with the text of all its subsections in order, and whole the items that nothing is put below. */
  ghost predicate Gathered(subs: seq<Sub>, given: seq<Sub>, n: nat)
    requires n <= |given|
  {
    DistinctTitles(subs) && SameUnder(subs, given, n) && NoneEmpty(subs) && LastKept(subs, given, n)
  }

  lemma {:induction false} NormalKeeps(given: seq<Sub>, n: nat)
    requires n <= |given|
    ensures Gathered(NormalTo(given, n), given, n)
  {
    hide *;
    if n == 0 {
      NothingGathered(given);
    } else {
      NormalKeeps(given, n - 1);
      GatherKeeps(NormalTo(given, n - 1), given, n - 1);
      NormalUnfolds(given, n);
    }
  }

  lemma {:induction false} NormalUnfolds(given: seq<Sub>, n: nat)
    requires 0 < n <= |given|
    ensures NormalTo(given, n) == Gather(NormalTo(given, n - 1), given[n - 1])
  {
    hide Gather;
  }

  lemma {:induction false} NothingGathered(given: seq<Sub>)
    ensures Gathered(NormalTo(given, 0), given, 0)
  {
  }

  lemma {:induction false} GatherKeeps(subs: seq<Sub>, given: seq<Sub>, i: nat)
    requires i < |given| && Gathered(subs, given, i)
    ensures Gathered(Gather(subs, given[i]), given, i + 1)
  {
    hide SameUnder, LastKept, NoneEmpty, Compact, Trim, AppendTo, IndexOf, DistinctTitles;
    var lines, k := Compact(Trim(Texts(given[i].lines))), IndexOf(subs, given[i].title);
    if lines == [] {
      RemovedUnder(subs, given, i);
      LastRemoved(subs, given, i);
    } else if k == |subs| {
      DistinctPush(subs, Subsection(given[i].title, Synthetic(lines)));
      AddedUnder(subs, given, i, lines);
      LastAdded(subs, given, i, lines);
    } else {
      AppendedText(subs[k], lines);
      MergedUnder(subs, k, AppendTo(subs[k], lines), given, i);
      LastMerged(subs, k, AppendTo(subs[k], lines), given, i);
      DistinctUpdate(subs, k, AppendTo(subs[k], lines));
    }
  }

  lemma {:induction false} AppendedText(target: Sub, more: seq<Line>)
    ensures AppendTo(target, more).title == target.title && Texts(AppendTo(target, more).lines) == Appended(Texts(target.lines), more)
  {
    hide Trim;
    SyntheticTexts(Appended(Texts(target.lines), more));
  }

  lemma {:induction false} DistinctPush(subs: seq<Sub>, x: Sub)
    requires DistinctTitles(subs) && forall i :: 0 <= i < |subs| ==> subs[i].title != x.title
    ensures DistinctTitles(subs + [x])
  {
  }

  lemma {:induction false} DistinctUpdate(subs: seq<Sub>, k: nat, x: Sub)
    requires DistinctTitles(subs) && k < |subs| && x.title == subs[k].title
    ensures DistinctTitles(subs[k := x])
  {
  }

  lemma {:induction false} RemovedUnder(subs: seq<Sub>, given: seq<Sub>, i: nat)
    requires i < |given| && SameUnder(subs, given, i) && Compact(Trim(Texts(given[i].lines))) == []
    ensures SameUnder(subs, given, i + 1)
  {
    CompactedSolid(given[i]);
    hide Compact, Trim;
    forall title ensures Under(subs, title) == UnderTo(given, i + 1, title) {
    }
  }

  lemma {:induction false} StillLast(given: seq<Sub>, i: nat, n: nat)
    requires i < n < |given|
    ensures IsLast(given, i, n + 1) <==> IsLast(given, i, n) && given[n].title != given[i].title
  {
  }

  lemma {:induction false} LastRemoved(subs: seq<Sub>, given: seq<Sub>, n: nat)
    requires n < |given| && LastKept(subs, given, n) && Compact(Trim(Texts(given[n].lines))) == []
    ensures LastKept(subs, given, n + 1)
  {
    KeysOfCompact(Trim(Texts(given[n].lines)));
    KeysOfTrim(Texts(given[n].lines));
    assert Keys([]) == [];
    hide HasKey, Keys, Compact;
    forall i, key | 0 <= i < n && key in Keys(Texts(given[i].lines)) && IsLast(given, i, n + 1)
      ensures HasKey(subs, given[i].title, key)
    {
      StillLast(given, i, n);
    }
  }

  lemma {:induction false} LastMerged(subs: seq<Sub>, k: nat, appended: Sub, given: seq<Sub>, n: nat)
    requires k < |subs| && n < |given| && given[n].title == subs[k].title == appended.title && LastKept(subs, given, n)
    requires Texts(appended.lines) == Appended(Texts(subs[k].lines), Compact(Trim(Texts(given[n].lines))))
    ensures LastKept(subs[k := appended], given, n + 1)
  {
    var now := subs[k := appended];
    KeysOfCompact(Trim(Texts(given[n].lines)));
    KeysOfTrim(Texts(given[n].lines));
    hide Keys, Compact, Appended;
    forall i, key | 0 <= i < n + 1 && key in Keys(Texts(given[i].lines)) && IsLast(given, i, n + 1)
      ensures HasKey(now, given[i].title, key)
    {
      if i == n {
        KeysAppendedKept(Texts(subs[k].lines), Compact(Trim(Texts(given[n].lines))), key);
        assert now[k] == appended;
      } else {
        StillLast(given, i, n);
        var j :| 0 <= j < |subs| && subs[j].title == given[i].title && key in Keys(Texts(subs[j].lines));
        assert now[j] == subs[j];
      }
    }
  }

  lemma {:induction false} LastAdded(subs: seq<Sub>, given: seq<Sub>, n: nat, lines: seq<Line>)
    requires n < |given| && LastKept(subs, given, n) && lines == Compact(Trim(Texts(given[n].lines)))
    ensures LastKept(subs + [Subsection(given[n].title, Synthetic(lines))], given, n + 1)
  {
    var x := Subsection(given[n].title, Synthetic(lines));
    var now := subs + [x];
    KeysOfCompact(Trim(Texts(given[n].lines)));
    KeysOfTrim(Texts(given[n].lines));
    SyntheticTexts(lines);
    hide Keys, Compact;
    forall i, key | 0 <= i < n + 1 && key in Keys(Texts(given[i].lines)) && IsLast(given, i, n + 1)
      ensures HasKey(now, given[i].title, key)
    {
      if i == n {
        assert now[|subs|] == x;
      } else {
        StillLast(given, i, n);
        var j :| 0 <= j < |subs| && subs[j].title == given[i].title && key in Keys(Texts(subs[j].lines));
        assert now[j] == subs[j];
      }
    }
  }

  /** Sorting keeps whole subsections. */
  lemma {:induction false} LastSorted(subs: seq<Sub>, sorted: seq<Sub>, given: seq<Sub>)
    requires multiset(sorted) == multiset(subs) && LastKept(subs, given, |given|)
    ensures LastKept(sorted, given, |given|)
  {
    hide Keys, IsLast;
    forall i, key | 0 <= i < |given| && key in Keys(Texts(given[i].lines)) && IsLast(given, i, |given|)
      ensures HasKey(sorted, given[i].title, key)
    {
      var j :| 0 <= j < |subs| && subs[j].title == given[i].title && key in Keys(Texts(subs[j].lines));
      assert subs[j] in multiset(sorted);
      var k :| 0 <= k < |sorted| && sorted[k] == subs[j];
    }
  }

  lemma {:induction false} IndexedUpdate(subs: seq<Sub>, byTitle: map<string, nat>, k: nat, x: Sub)
    requires Indexed(subs, byTitle) && k < |subs| && x.title == subs[k].title
    ensures Indexed(subs[k := x], byTitle)
  {
  }

  lemma {:induction false} IndexedPush(subs: seq<Sub>, byTitle: map<string, nat>, x: Sub)
    requires Indexed(subs, byTitle) && x.title !in byTitle
    ensures Indexed(subs + [x], byTitle[x.title := |subs|])
  {
  }

  lemma {:induction false} CompactedText(sub: Sub)
    ensures Solid(Compact(Trim(Texts(sub.lines)))) == Solid(Texts(sub.lines))
  {
    SolidTrim(Texts(sub.lines));
    CompactKeeps(Trim(Texts(sub.lines)));
  }

  /** What trimming and compacting leave is text, if it is anything. */
  lemma {:induction false} CompactedSolid(sub: Sub)
    ensures Compact(Trim(Texts(sub.lines))) == [] <==> Solid(Texts(sub.lines)) == []
  {
    var lines := Trim(Texts(sub.lines));
    CompactedText(sub);
    TrimIsTrimmed(Texts(sub.lines));
    TrimOfTrimmed(lines);
    if lines != [] {
      assert Solid(lines) != [];
      CompactKeeps(lines);
    }
  }

  lemma {:induction false} MergedUnder(subs: seq<Sub>, k: nat, appended: Sub, given: seq<Sub>, i: nat)
    requires k < |subs| && DistinctTitles(subs) && i < |given| && given[i].title == subs[k].title
    requires appended.title == subs[k].title
    requires Texts(appended.lines) == Appended(Texts(subs[k].lines), Compact(Trim(Texts(given[i].lines))))
    requires SameUnder(subs, given, i) && NoneEmpty(subs)
    ensures SameUnder(subs[k := appended], given, i + 1) && NoneEmpty(subs[k := appended])
  {
    var now := subs[k := appended];
    CompactedText(given[i]);
    SolidAppended(Texts(subs[k].lines), Compact(Trim(Texts(given[i].lines))));
    forall title ensures Under(now, title) == UnderTo(given, i + 1, title) {
      if title == given[i].title {
        UnderOnly(subs, |subs|, k);
        UnderOnly(now, |now|, k);
      } else {
        UnderElsewhere(subs, now, |subs|, k, title);
      }
    }
  }

  lemma {:induction false} UnderElsewhere(a: seq<Sub>, b: seq<Sub>, n: nat, k: nat, title: string)
    requires |a| == |b| && n <= |a| && k < |a| && (forall i :: 0 <= i < |a| && i != k ==> a[i] == b[i])
    requires a[k].title != title && b[k].title != title
    ensures UnderTo(a, n, title) == UnderTo(b, n, title)
  {
    if n > 0 {
      UnderElsewhere(a, b, n - 1, k, title);
    }
  }

  lemma {:induction false} AddedUnder(subs: seq<Sub>, given: seq<Sub>, i: nat, lines: seq<Line>)
    requires i < |given| && lines == Compact(Trim(Texts(given[i].lines))) && lines != []
    requires SameUnder(subs, given, i) && NoneEmpty(subs)
    ensures var now := subs + [Subsection(given[i].title, Synthetic(lines))]; SameUnder(now, given, i + 1) && NoneEmpty(now)
  {
    var x := Subsection(given[i].title, Synthetic(lines));
    CompactedText(given[i]);
    CompactedSolid(given[i]);
    SyntheticTexts(lines);
    forall title ensures Under(subs + [x], title) == UnderTo(given, i + 1, title) {
      UnderPush(subs, x, title);
    }
  }

  // ---------------------------------------------------------------- the order of titles

  const ORDERED_SECTION_TITLES := ["Breaking Changes", "Added", "Changed", "Fixed", "Removed"]

  /** The place of a title in the list; all unknown titles come after it. */
  function TitleOrder(title: string): (order: nat)
    ensures if title in ORDERED_SECTION_TITLES then order < |ORDERED_SECTION_TITLES| && ORDERED_SECTION_TITLES[order] == title
            else order == |ORDERED_SECTION_TITLES|
  {
    PlaceOf(ORDERED_SECTION_TITLES, title)
  }

  /** The first index of a title; the length if it does not occur. */
  function PlaceOf(titles: seq<string>, title: string): (k: nat)
    ensures if title in titles then k < |titles| && titles[k] == title else k == |titles|
  {
    if titles == [] || titles[0] == title then 0 else 1 + PlaceOf(titles[1..], title)
  }

  function ByTitle(): (Sub, Sub) -> bool {
    (x: Sub, y: Sub) => TitleOrder(x.title) <= TitleOrder(y.title)
  }

  function Titled(title: string): Sub -> bool {
    (x: Sub) => x.title == title
  }

  function TextOf(subs: seq<Sub>): seq<Line> {
    if subs == [] then [] else Solid(Texts(subs[0].lines)) + TextOf(subs[1..])
  }

  lemma {:induction false} TextOfPush(subs: seq<Sub>, x: Sub)
    ensures TextOf(subs + [x]) == TextOf(subs) + Solid(Texts(x.lines))
  {
    if subs == [] {
      assert [x][1..] == [];
    } else {
      TextOfPush(subs[1..], x);
      assert (subs + [x])[1..] == subs[1..] + [x];
      Associates(Solid(Texts(subs[0].lines)), TextOf(subs[1..]), Solid(Texts(x.lines)));
    }
  }

  lemma {:induction false} OnlyPush<T>(s: seq<T>, x: T, p: T -> bool)
    ensures StableSort.Only(s + [x], p) == if p(x) then StableSort.Only(s, p) + [x] else StableSort.Only(s, p)
  {
    if s == [] {
      assert [x][1..] == [];
    } else {
      OnlyPush(s[1..], x, p);
      assert (s + [x])[1..] == s[1..] + [x];
    }
  }

  lemma {:induction false} UnderIsOnly(subs: seq<Sub>, n: nat, title: string)
    requires n <= |subs|
    ensures UnderTo(subs, n, title) == TextOf(StableSort.Only(subs[..n], Titled(title)))
  {
    if n > 0 {
      UnderIsOnly(subs, n - 1, title);
      assert subs[..n] == subs[..n - 1] + [subs[n - 1]];
      OnlyPush(subs[..n - 1], subs[n - 1], Titled(title));
      if subs[n - 1].title == title {
        TextOfPush(StableSort.Only(subs[..n - 1], Titled(title)), subs[n - 1]);
      }
    }
  }

  lemma {:induction false} OnlyAtMostOne(subs: seq<Sub>, title: string)
    requires DistinctTitles(subs)
    ensures |StableSort.Only(subs, Titled(title))| <= 1
    ensures (forall i :: 0 <= i < |subs| ==> subs[i].title != title) ==> StableSort.Only(subs, Titled(title)) == []
  {
    if subs != [] {
      OnlyAtMostOne(subs[1..], title);
    }
  }

  lemma {:induction false} OnlyFinds(subs: seq<Sub>, i: nat, title: string)
    requires i < |subs| && subs[i].title == title
    ensures |StableSort.Only(subs, Titled(title))| >= 1
  {
    if i > 0 {
      OnlyFinds(subs[1..], i - 1, title);
    }
  }

  lemma {:induction false} OnlyFindsBoth(subs: seq<Sub>, i: nat, j: nat, title: string)
    requires i < j < |subs| && subs[i].title == title && subs[j].title == title
    ensures |StableSort.Only(subs, Titled(title))| >= 2
  {
    if i > 0 {
      OnlyFindsBoth(subs[1..], i - 1, j - 1, title);
    } else {
      OnlyFinds(subs[1..], j - 1, title);
    }
  }

  /** Sorting subsections by title moves text from no title to another. */
  lemma {:induction false} SortedUnder(subs: seq<Sub>)
    requires DistinctTitles(subs)
    ensures var sorted := StableSort.Sort(subs, ByTitle());
            DistinctTitles(sorted) && SameUnder(sorted, subs, |subs|) && StableSort.Ordered(sorted, ByTitle())
  {
    var sorted := StableSort.Sort(subs, ByTitle());
    StableSort.SortSorts(subs, ByTitle());
    forall title ensures Under(sorted, title) == Under(subs, title) && |StableSort.Only(sorted, Titled(title))| <= 1 {
      StableSort.SortStable(subs, ByTitle(), Titled(title));
      UnderIsOnly(sorted, |sorted|, title);
      UnderIsOnly(subs, |subs|, title);
      assert sorted[..|sorted|] == sorted && subs[..|subs|] == subs;
      OnlyAtMostOne(subs, title);
    }
    forall i, j | 0 <= i < j < |sorted| ensures sorted[i].title != sorted[j].title {
      if sorted[i].title == sorted[j].title {
        OnlyFindsBoth(sorted, i, j, sorted[i].title);
      }
    }
  }

  // ---------------------------------------------------------------- a section

  /** `t` is `s` with nothing but blank lines, headings and the order of headings changed. */
  ghost predicate SameText(s: Section, t: Section) {
    && t.title == s.title && t.rest == s.rest
    && Solid(Texts(t.leading)) == Solid(Texts(s.leading))
    && SameUnder(t.subsections, s.subsections, |s.subsections|)
  }

  function NormalSection(s: Section): Section {
    var subs := NormalSubs(s.subsections);
    ReleaseSection(s.title, s.rest, Synthetic(Trim(Texts(s.leading))),
                   if s.title == UNRELEASED then StableSort.Sort(subs, ByTitle()) else subs)
  }

  method NormalizeSection(s: Section) returns (t: Section, merged: nat, removed: nat)
    ensures t == NormalSection(s) && |t.subsections| + merged + removed == |s.subsections|
    ensures removed == |Empties(s.subsections, |s.subsections|)|
  {
    hide NormalSubs, Trim, Empties;
    var normal := NormalizeSubsections(s.subsections);
    var subs := normal.subs;
    if s.title == UNRELEASED {
      StableSort.SortSorts(subs, ByTitle());
      SameLength(subs, StableSort.Sort(subs, ByTitle()));
      subs := StableSort.Sort(subs, ByTitle());
    }
    var leading := TrimBlankLines(Texts(s.leading));
    t := ReleaseSection(s.title, s.rest, Synthetic(leading), subs);
    merged, removed := normal.merged, normal.removed;
  }

  /** A normalized section has each heading once, not empty, and the same text under it. */
  lemma {:induction false} NormalSectionKeeps(s: Section)
    ensures var t := NormalSection(s);
            && SameText(s, t) && DistinctTitles(t.subsections) && LastKept(t.subsections, s.subsections, |s.subsections|)
            && NoneEmpty(t.subsections)
  {
    var subs := NormalSubs(s.subsections);
    NormalKeeps(s.subsections, |s.subsections|);
    SyntheticTexts(Trim(Texts(s.leading)));
    SolidTrim(Texts(s.leading));
    hide NormalSubs, Trim, SameUnder, LastKept, DistinctTitles, NoneEmpty;
    if s.title == UNRELEASED {
      SortedUnder(subs);
      StableSort.SortSorts(subs, ByTitle());
      SameUnderChain(StableSort.Sort(subs, ByTitle()), subs, s.subsections);
      LastSorted(subs, StableSort.Sort(subs, ByTitle()), s.subsections);
      NoneEmptySorted(subs, StableSort.Sort(subs, ByTitle()));
    }
  }

  lemma {:induction false} SameUnderChain(a: seq<Sub>, b: seq<Sub>, c: seq<Sub>)
    requires SameUnder(a, b, |b|) && SameUnder(b, c, |c|)
    ensures SameUnder(a, c, |c|)
  {
    forall title ensures Under(a, title) == UnderTo(c, |c|, title) {
      assert Under(b, title) == UnderTo(c, |c|, title);
    }
  }

  lemma {:induction false} NoneEmptySorted(subs: seq<Sub>, sorted: seq<Sub>)
    requires multiset(sorted) == multiset(subs) && NoneEmpty(subs)
    ensures NoneEmpty(sorted)
  {
    forall i | 0 <= i < |sorted| ensures Solid(Texts(sorted[i].lines)) != [] {
      assert sorted[i] in multiset(subs);
    }
  }

  lemma {:induction false} SameLength<T>(a: seq<T>, b: seq<T>)
    requires multiset(a) == multiset(b)
    ensures |a| == |b|
  {
    assert |multiset(a)| == |a| && |multiset(b)| == |b|;
  }
}
