/** Which bullets of a diff are new entries, in terms of its lines (scripts/fix-changelogs.ts). */
module DiffLines {
  import opened Prelude
  import opened DiffPairing

  // ---------------------------------------------------------------- where a line stands

  /** The path is that of the last `+++ b/` line, unless another file has begun since. */
  lemma {:induction false} PathMeans(lines: seq<DiffLine>, j: nat, n: nat)
    requires j < n <= |lines| && forall i :: j < i < n ==> !lines[i].NewPath? && !lines[i].FileStart?
    ensures lines[j].NewPath? ==> PathAt(lines, n) == lines[j].path
    ensures lines[j].FileStart? ==> PathAt(lines, n) == ""
  {
    if j + 1 < n {
      PathMeans(lines, j, n - 1);
    }
  }

  lemma {:induction false} NoPath(lines: seq<DiffLine>, n: nat)
    requires n <= |lines| && forall i :: 0 <= i < n ==> !lines[i].NewPath?
    ensures PathAt(lines, n) == ""
  {
    if n > 0 {
      NoPath(lines, n - 1);
    }
  }

  /** The headers of hunks from line `from` on. */
  function Headers(lines: seq<DiffLine>, from: nat, n: nat): nat
    requires from <= n <= |lines|
  {
    if from == n then 0 else Headers(lines, from, n - 1) + if lines[n - 1].HunkHeader? then 1 else 0
  }

  /** Hunks are numbered within their file. */
  lemma {:induction false} HunkMeans(lines: seq<DiffLine>, from: nat, n: nat)
    requires from <= n <= |lines| && forall i :: from <= i < n ==> !lines[i].FileStart?
    ensures HunkAt(lines, n) == HunkAt(lines, from) + Headers(lines, from, n)
    ensures from == 0 || lines[from - 1].FileStart? ==> HunkAt(lines, n) == Headers(lines, from, n) - 1
  {
    if from < n {
      HunkMeans(lines, from, n - 1);
    }
  }

  /** The scan looks at a line exactly if it stands in a hunk of a file with a path. */
  lemma {:induction false} VisibleMeans(lines: seq<DiffLine>, n: nat)
    requires n <= |lines|
    ensures Visible(lines, n) <==> PathAt(lines, n) != "" && exists h: nat :: Within(lines, h, n)
  {
    if HunkAt(lines, n) >= 0 {
      var h := HeaderBefore(lines, n);
    }
    if h: nat :| Within(lines, h, n) {
      ScanCounts(lines, h, n);
    }
  }

  // ---------------------------------------------------------------- bullets and their lines

  predicate IsBullet(line: DiffLine, added: bool) {
    if added then line.AddedBullet? else line.RemovedBullet?
  }

  /** Line `k` is an added, or a removed, bullet that the scan sees. */
  predicate BulletLine(lines: seq<DiffLine>, k: nat, added: bool) {
    k < |lines| && Visible(lines, k) && IsBullet(lines[k], added)
  }

  function BulletAt(lines: seq<DiffLine>, k: nat, added: bool): Bullet
    requires BulletLine(lines, k, added)
  {
    Bullet(Key(PathAt(lines, k), lines[k].text), HunkOf(lines, k), if added then LineAt(lines, k) else 0)
  }

  function Bullets(lines: seq<DiffLine>, n: nat, added: bool): seq<Bullet>
    requires n <= |lines|
  {
    if added then Added(lines, n) else Removed(lines, n)
  }

  lemma {:induction false} BulletsNext(lines: seq<DiffLine>, n: nat, added: bool)
    requires n < |lines|
    ensures Bullets(lines, n + 1, added) ==
            Bullets(lines, n, added) + if BulletLine(lines, n, added) then [BulletAt(lines, n, added)] else []
    ensures Bullets(lines, 0, added) == []
  {
  }

  /** What is found in the first lines are the first bullets. */
  lemma {:induction false} BulletsPrefix(lines: seq<DiffLine>, n: nat, m: nat, added: bool)
    requires n <= m <= |lines|
    ensures Bullets(lines, n, added) <= Bullets(lines, m, added)
  {
    hide Bullets, BulletLine;
    if n < m {
      BulletsNext(lines, m - 1, added);
      BulletsPrefix(lines, n, m - 1, added);
    }
  }

  /**
   Every bullet line that the scan sees is one entry of its list, at the place that the lines before it give it, with its
   path, hunk, text and line number.
   */
  lemma {:induction false} BulletIsListed(lines: seq<DiffLine>, k: nat, added: bool)
    requires BulletLine(lines, k, added)
    ensures var bs, at := Bullets(lines, |lines|, added), |Bullets(lines, k, added)|;
            at < |bs| && bs[at] == BulletAt(lines, k, added)
  {
    assert k < |lines|;
    hide Bullets, BulletLine;
    BulletsNext(lines, k, added);
    BulletsPrefix(lines, k + 1, |lines|, added);
    assert Bullets(lines, k + 1, added)[|Bullets(lines, k, added)|] == BulletAt(lines, k, added);
  }

  /** There are no other entries. */
  lemma {:induction false} ListedIsBullet(lines: seq<DiffLine>, n: nat, i: nat, added: bool) returns (k: nat)
    requires n <= |lines| && i < |Bullets(lines, n, added)|
    ensures k < n && BulletLine(lines, k, added) && |Bullets(lines, k, added)| == i
    ensures Bullets(lines, n, added)[i] == BulletAt(lines, k, added)
  {
    hide Bullets, BulletLine;
    if n == 0 {
      EmptyAtFirst(lines, added);
    } else {
      BulletsNext(lines, n - 1, added);
      if i < |Bullets(lines, n - 1, added)| {
        k := ListedIsBullet(lines, n - 1, i, added);
      } else {
        k := n - 1;
      }
    }
  }

  lemma {:induction false} EmptyAtFirst(lines: seq<DiffLine>, added: bool)
    ensures Bullets(lines, 0, added) == []
  {
  }

  /** Line `k` adds a release heading. */
  predicate HeadingLine(lines: seq<DiffLine>, k: nat) {
    k < |lines| && Visible(lines, k) && lines[k].AddedReleaseHeading?
  }

  /** A hunk is marked exactly when one of its lines adds a release heading. */
  lemma {:induction false} HeadedMeans(lines: seq<DiffLine>, n: nat, hunk: Hunk)
    requires n <= |lines|
    ensures hunk in Headed(lines, n) <==> exists k :: 0 <= k < n && HeadingLine(lines, k) && HunkOf(lines, k) == hunk
  {
    hide PathAt, HunkAt;
    if n > 0 {
      HeadedMeans(lines, n - 1, hunk);
      if HeadingLine(lines, n - 1) && HunkOf(lines, n - 1) == hunk {
        assert hunk in Headed(lines, n);
      }
    }
  }

  // ---------------------------------------------------------------- counting lines

  /** How many of the numbers from `lo` up to `hi` have the property. */
  function Count(p: nat -> bool, lo: nat, hi: nat): nat
    requires lo <= hi
  {
    if lo == hi then 0 else Count(p, lo, hi - 1) + if p(hi - 1) then 1 else 0
  }

  lemma {:induction false} CountSame(p: nat -> bool, q: nat -> bool, lo: nat, hi: nat)
    requires lo <= hi && forall k: nat :: lo <= k < hi ==> p(k) == q(k)
    ensures Count(p, lo, hi) == Count(q, lo, hi)
  {
    if lo < hi {
      CountSame(p, q, lo, hi - 1);
    }
  }

  lemma {:induction false} CountNone(p: nat -> bool, lo: nat, hi: nat)
    requires lo <= hi && forall k: nat :: lo <= k < hi ==> !p(k)
    ensures Count(p, lo, hi) == 0
  {
    if lo < hi {
      CountNone(p, lo, hi - 1);
    }
  }

  lemma {:induction false} CountSplits(p: nat -> bool, lo: nat, mid: nat, hi: nat)
    requires lo <= mid <= hi
    ensures Count(p, lo, hi) == Count(p, lo, mid) + Count(p, mid, hi)
  {
    if mid < hi {
      CountSplits(p, lo, mid, hi - 1);
    }
  }

  function WithKey(lines: seq<DiffLine>, added: bool, key: Key): nat -> bool {
    (k: nat) => BulletLine(lines, k, added) && BulletAt(lines, k, added).key == key
  }

  /** The bullet on line `k` finds no counterpart: as many before it have its path and text as there are on the other side in all. */
  predicate Open(lines: seq<DiffLine>, k: nat, added: bool)
    requires k <= |lines|
  {
    BulletLine(lines, k, added) &&
    var key := BulletAt(lines, k, added).key;
    Count(WithKey(lines, added, key), 0, k) >= Count(WithKey(lines, !added, key), 0, |lines|)
  }

  function OpenIn(lines: seq<DiffLine>, added: bool, hunk: Hunk): nat -> bool {
    (k: nat) => k < |lines| && Open(lines, k, added) && HunkOf(lines, k) == hunk
  }

  ghost predicate AddsHeading(lines: seq<DiffLine>, hunk: Hunk) {
    exists k: nat :: HeadingLine(lines, k) && HunkOf(lines, k) == hunk
  }

  /**
   The added bullet on line `k` is a new entry: it has no removed counterpart, its hunk adds no release heading, and the bullets
   like it before it in the hunk are as many as the hunk removes without counterpart.
   */
  ghost predicate NewEntry(lines: seq<DiffLine>, k: nat)
  {
    k < |lines| && Open(lines, k, true) && !AddsHeading(lines, HunkOf(lines, k)) &&
    Count(OpenIn(lines, true, HunkOf(lines, k)), 0, k) >= Count(OpenIn(lines, false, HunkOf(lines, k)), 0, |lines|)
  }

  // ---------------------------------------------------------------- what the lists say of the lines

  lemma {:induction false} KeysCounted(lines: seq<DiffLine>, n: nat, m: nat, added: bool, key: Key)
    requires n <= m <= |lines|
    ensures var bs, at := Bullets(lines, m, added), |Bullets(lines, n, added)|;
            at <= |bs| && KeyCount(bs, at, key) == Count(WithKey(lines, added, key), 0, n)
  {
    BulletsPrefix(lines, n, m, added);
    hide Bullets, BulletLine;
    if n == 0 {
      EmptyAtFirst(lines, added);
    } else {
      KeysCounted(lines, n - 1, m, added, key);
      BulletsNext(lines, n - 1, added);
      BulletsPrefix(lines, n - 1, m, added);
    }
  }

  /** A bullet of the list is paired exactly if its line is not open. */
  lemma {:induction false} OpenIsUnpaired(lines: seq<DiffLine>, k: nat, added: bool)
    requires BulletLine(lines, k, added)
    ensures k < |lines|
    ensures var bs, others := Bullets(lines, |lines|, added), Bullets(lines, |lines|, !added);
            var at := |Bullets(lines, k, added)|;
            at < |bs| && (Paired(bs, others, |others|, at) <==> !Open(lines, k, added))
  {
    var key := BulletAt(lines, k, added).key;
    assert k < |lines|;
    hide Bullets, BulletLine;
    BulletIsListed(lines, k, added);
    KeysCounted(lines, k, |lines|, added, key);
    KeysCounted(lines, |lines|, |lines|, !added, key);
    hide BulletAt;
  }

  lemma {:induction false} OpenCounted(lines: seq<DiffLine>, n: nat, added: bool, hunk: Hunk)
    requires n <= |lines|
    ensures var bs, others, at := Bullets(lines, |lines|, added), Bullets(lines, |lines|, !added), |Bullets(lines, n, added)|;
            at <= |bs| && OpenCount(bs, others, at, hunk) == Count(OpenIn(lines, added, hunk), 0, n)
  {
    BulletsPrefix(lines, n, |lines|, added);
    hide Bullets, BulletLine, OpenIn, Paired, BulletAt;
    if n == 0 {
      EmptyAtFirst(lines, added);
    } else {
      OpenCounted(lines, n - 1, added, hunk);
      BulletsNext(lines, n - 1, added);
      OpenNext(lines, n - 1, added, hunk);
    }
  }

  lemma {:induction false} OpenNext(lines: seq<DiffLine>, k: nat, added: bool, hunk: Hunk)
    requires k < |lines|
    ensures !BulletLine(lines, k, added) ==> !OpenIn(lines, added, hunk)(k)
    ensures BulletLine(lines, k, added) ==>
              var bs, others := Bullets(lines, |lines|, added), Bullets(lines, |lines|, !added);
              var at := |Bullets(lines, k, added)|;
              at < |bs| && (OpenIn(lines, added, hunk)(k) <==> bs[at].hunk == hunk && !Paired(bs, others, |others|, at))
  {
    if BulletLine(lines, k, added) {
      OpenIsUnpaired(lines, k, added);
      BulletIsListed(lines, k, added);
      assert BulletAt(lines, k, added).hunk == HunkOf(lines, k);
    }
  }

  lemma {:induction false} NewEntryIsPromotable(lines: seq<DiffLine>, k: nat)
    requires BulletLine(lines, k, true)
    ensures k < |lines|
    ensures var candidates, at := Added(lines, |lines|), |Added(lines, k)|;
            && at < |candidates| && candidates[at] == BulletAt(lines, k, true)
            && (Promotable(candidates, Removed(lines, |lines|), Headed(lines, |lines|), at) <==> NewEntry(lines, k))
  {
    var candidates, removals, at := Added(lines, |lines|), Removed(lines, |lines|), |Added(lines, k)|;
    var hunk := HunkOf(lines, k);
    assert Bullets(lines, |lines|, true) == candidates && Bullets(lines, |lines|, false) == removals;
    assert |Bullets(lines, k, true)| == at && |Bullets(lines, |lines|, false)| == |removals|;
    BulletIsListed(lines, k, true);
    OpenIsUnpaired(lines, k, true);
    OpenCounted(lines, k, true, hunk);
    OpenCounted(lines, |lines|, false, hunk);
    HeadedMeans(lines, |lines|, hunk);
    hide Bullets, Added, Removed, Headed, Open, OpenIn, OpenCount, Paired, Count;
    assert candidates[at].hunk == hunk;
    assert AddsHeading(lines, hunk) <==> hunk in Headed(lines, |lines|);
  }

  /** Exactly the new entries are reported, by path and line number. */
  ghost predicate EntriesReported(lines: seq<DiffLine>, m: map<string, set<nat>>) {
    forall path: string, line: nat :: Reported(m, path, line) <==> SomeEntry(lines, path, line)
  }

  ghost predicate SomeEntry(lines: seq<DiffLine>, path: string, line: nat) {
    exists k: nat :: NewEntry(lines, k) && PathAt(lines, k) == path && LineAt(lines, k) == line
  }

  lemma {:induction false} SomeEntryReports(lines: seq<DiffLine>, path: string, line: nat)
    ensures SomeEntry(lines, path, line) <==>
            SomeReports(Added(lines, |lines|), Removed(lines, |lines|), Headed(lines, |lines|), |Added(lines, |lines|)|, path, line)
  {
    var candidates, removals, headed := Added(lines, |lines|), Removed(lines, |lines|), Headed(lines, |lines|);
    assert Bullets(lines, |lines|, true) == candidates;
    if SomeEntry(lines, path, line) {
      var k: nat :| NewEntry(lines, k) && PathAt(lines, k) == path && LineAt(lines, k) == line;
      NewEntryIsPromotable(lines, k);
      hide NewEntry, Promotable, Added, Removed, Headed;
      assert Reports(candidates, removals, headed, |Added(lines, k)|, path, line);
    }
    if SomeReports(candidates, removals, headed, |candidates|, path, line) {
      var i: nat :| i < |candidates| && Reports(candidates, removals, headed, i, path, line);
      var k := ListedIsBullet(lines, |lines|, i, true);
      NewEntryIsPromotable(lines, k);
      assert |Added(lines, k)| == i;
      hide NewEntry, Promotable, Added, Removed, Headed;
      assert NewEntry(lines, k);
    }
  }

  /** The line numbers of the new entries, by path. */
  method CollectPromotable(lines: seq<DiffLine>) returns (linesByPath: map<string, set<nat>>)
    ensures EntriesReported(lines, linesByPath)
    ensures var candidates, removals, headed := Added(lines, |lines|), Removed(lines, |lines|), Headed(lines, |lines|);
            ReportsFirst(linesByPath, candidates, removals, headed, |candidates|)
  {
    var candidates, removals, headed := Scan(lines);
    var added := new bool[|candidates|](_ => false);
    var removed := new bool[|removals|](_ => false);
    Pair(candidates, removals, added, removed);
    var openByHunk := CountOpen(candidates, removals, removed);
    linesByPath := Promote(candidates, removals, headed, added, openByHunk);
    hide *;
    FirstReported(lines, linesByPath);
  }

  lemma {:induction false} FirstReported(lines: seq<DiffLine>, m: map<string, set<nat>>)
    requires ReportsFirst(m, Added(lines, |lines|), Removed(lines, |lines|), Headed(lines, |lines|), |Added(lines, |lines|)|)
    ensures EntriesReported(lines, m)
  {
    hide Added, Removed, Headed, SomeReports, SomeEntry, Reported;
    forall path: string, line: nat ensures Reported(m, path, line) <==> SomeEntry(lines, path, line) {
      SomeEntryReports(lines, path, line);
    }
  }

  // ---------------------------------------------------------------- hunk by hunk

  ghost function NewIn(lines: seq<DiffLine>, hunk: Hunk): nat -> bool {
    (k: nat) => NewEntry(lines, k) && HunkOf(lines, k) == hunk
  }

  /** A hunk has as many new entries as its open additions exceed its open removals, and none if it adds a release heading. */
  lemma {:induction false} NewEntriesAreExcess(lines: seq<DiffLine>, n: nat, hunk: Hunk)
    requires n <= |lines|
    ensures var excess := Count(OpenIn(lines, true, hunk), 0, n) - Count(OpenIn(lines, false, hunk), 0, |lines|);
            Count(NewIn(lines, hunk), 0, n) == if AddsHeading(lines, hunk) || excess < 0 then 0 else excess
  {
    if n > 0 {
      NewEntriesAreExcess(lines, n - 1, hunk);
      hide Open, AddsHeading;
    }
  }

  /** No added line looks like the path of another file, and no file comes twice. */
  ghost predicate Clean(lines: seq<DiffLine>) {
    NoLookalikes(lines) && forall i, j :: 0 <= i < j < |lines| && lines[i].NewPath? && lines[j].NewPath? ==> lines[i].path != lines[j].path
  }

  /** `h` is the header and `e` the end of a hunk of a file with a path. */
  ghost predicate WholeHunk(lines: seq<DiffLine>, h: nat, e: nat) {
    && Within(lines, h, e) && (e < |lines| ==> lines[e].HunkHeader? || lines[e].FileStart?)
    && PathAt(lines, h) != ""
  }

  lemma {:induction false} PathSource(lines: seq<DiffLine>, n: nat) returns (j: nat)
    requires n <= |lines| && PathAt(lines, n) != ""
    ensures j < n && lines[j].NewPath? && lines[j].path == PathAt(lines, n)
    ensures forall i :: j < i < n ==> !lines[i].FileStart? && !lines[i].NewPath?
  {
    if lines[n - 1].NewPath? {
      j := n - 1;
    } else {
      j := PathSource(lines, n - 1);
    }
  }

  lemma {:induction false} HeadersGrow(lines: seq<DiffLine>, from: nat, n: nat, m: nat)
    requires from <= n <= m <= |lines|
    ensures Headers(lines, from, n) <= Headers(lines, from, m)
    ensures Headers(lines, from, n) == Headers(lines, from, m) ==> forall i :: n <= i < m ==> !lines[i].HunkHeader?
  {
    if n < m {
      HeadersGrow(lines, from, n, m - 1);
    }
  }

  /** Lines of one hunk have one header. */
  lemma {:induction false} SameHunk(lines: seq<DiffLine>, h: nat, k: nat, n: nat)
    requires Clean(lines) && Within(lines, h, k) && n <= |lines| && Visible(lines, k) && Visible(lines, n)
    requires HunkOf(lines, k) == HunkOf(lines, n)
    ensures Within(lines, h, n)
  {
    var j := PathSource(lines, k);
    var i := PathSource(lines, n);
    assert i == j && HunkAt(lines, j) == -1;
    assert HunkAt(lines, j + 1) == -1;
    if h < j {
      ScanCounts(lines, h, j);
    }
    assert h > j;
    HunkMeans(lines, j + 1, k);
    HunkMeans(lines, j + 1, n);
    hide Clean, HunkAt, PathAt;
    if k <= n {
      HeadersGrow(lines, j + 1, k, n);
    } else {
      HeadersGrow(lines, j + 1, n, k);
    }
  }

  lemma {:induction false} InHunk(lines: seq<DiffLine>, h: nat, e: nat, k: nat)
    requires Clean(lines) && WholeHunk(lines, h, e) && h < k < e
    ensures Visible(lines, k) && HunkOf(lines, k) == Hunk(PathAt(lines, h), HunkAt(lines, h) + 1)
  {
    assert Within(lines, h, k);
    NoPathLines(lines, h, k);
    ScanCounts(lines, h, k);
  }

  lemma {:induction false} OutOfHunk(lines: seq<DiffLine>, h: nat, e: nat, k: nat)
    requires Clean(lines) && WholeHunk(lines, h, e) && k < |lines| && !(h < k < e)
    requires Visible(lines, k) && !lines[k].HunkHeader? && !lines[k].FileStart?
    ensures HunkOf(lines, k) != Hunk(PathAt(lines, h), HunkAt(lines, h) + 1)
  {
    assert Within(lines, h, h + 1) && PathAt(lines, h + 1) == PathAt(lines, h);
    ScanCounts(lines, h, h + 1);
    if HunkOf(lines, k) == Hunk(PathAt(lines, h), HunkAt(lines, h) + 1) {
      SameHunk(lines, h, h + 1, k);
    }
  }

  /** What counts within a hunk: lines of the hunk, and no others. */
  lemma {:induction false} CountInHunk(lines: seq<DiffLine>, h: nat, e: nat, p: nat -> bool, q: nat -> bool)
    requires h < e <= |lines|
    requires forall k: nat :: k < |lines| ==> p(k) == (h < k < e && q(k))
    ensures Count(p, 0, |lines|) == Count(q, h + 1, e)
  {
    CountSplits(p, 0, h + 1, |lines|);
    CountSplits(p, h + 1, e, |lines|);
    CountNone(p, 0, h + 1);
    CountNone(p, e, |lines|);
    CountSame(p, q, h + 1, e);
  }

  function OpenLines(lines: seq<DiffLine>, added: bool): nat -> bool {
    (k: nat) => k < |lines| && Open(lines, k, added)
  }

  ghost function EntryLines(lines: seq<DiffLine>): nat -> bool {
    (k: nat) => NewEntry(lines, k)
  }

  /**
   Of the lines between a header and the end of its hunk, as many are new entries as added bullets without counterpart exceed
   removed ones, and none if one of the lines adds a release heading.
   */
  lemma {:induction false} HunkPromotes(lines: seq<DiffLine>, h: nat, e: nat)
    requires Clean(lines) && WholeHunk(lines, h, e)
    ensures var excess := Count(OpenLines(lines, true), h + 1, e) - Count(OpenLines(lines, false), h + 1, e);
            Count(EntryLines(lines), h + 1, e) ==
            if (exists k :: h < k < e && lines[k].AddedReleaseHeading?) || excess < 0 then 0 else excess
  {
    var hunk := Hunk(PathAt(lines, h), HunkAt(lines, h) + 1);
    NewEntriesAreExcess(lines, |lines|, hunk);
    HunkLines(lines, h, e, true);
    HunkLines(lines, h, e, false);
    NewHunkLines(lines, h, e);
    HeadingInHunk(lines, h, e);
    hide *;
  }

  lemma {:induction false} HunkLines(lines: seq<DiffLine>, h: nat, e: nat, added: bool)
    requires Clean(lines) && WholeHunk(lines, h, e)
    ensures Count(OpenIn(lines, added, Hunk(PathAt(lines, h), HunkAt(lines, h) + 1)), 0, |lines|) == Count(OpenLines(lines, added), h + 1, e)
  {
    var hunk := Hunk(PathAt(lines, h), HunkAt(lines, h) + 1);
    var p, q := OpenIn(lines, added, hunk), OpenLines(lines, added);
    forall k: nat | k < |lines| ensures p(k) == (h < k < e && q(k)) {
      if Open(lines, k, added) {
        assert BulletLine(lines, k, added);
        if h < k < e {
          InHunk(lines, h, e, k);
        } else {
          OutOfHunk(lines, h, e, k);
        }
      }
    }
    CountInHunk(lines, h, e, p, q);
  }

  lemma {:induction false} NewHunkLines(lines: seq<DiffLine>, h: nat, e: nat)
    requires Clean(lines) && WholeHunk(lines, h, e)
    ensures Count(NewIn(lines, Hunk(PathAt(lines, h), HunkAt(lines, h) + 1)), 0, |lines|) == Count(EntryLines(lines), h + 1, e)
  {
    var hunk := Hunk(PathAt(lines, h), HunkAt(lines, h) + 1);
    var p, q := NewIn(lines, hunk), EntryLines(lines);
    forall k: nat | k < |lines| ensures p(k) == (h < k < e && q(k)) {
      if NewEntry(lines, k) {
        assert BulletLine(lines, k, true);
        if h < k < e {
          InHunk(lines, h, e, k);
        } else {
          OutOfHunk(lines, h, e, k);
        }
      }
    }
    CountInHunk(lines, h, e, p, q);
  }

  lemma {:induction false} HeadingInHunk(lines: seq<DiffLine>, h: nat, e: nat)
    requires Clean(lines) && WholeHunk(lines, h, e)
    ensures AddsHeading(lines, Hunk(PathAt(lines, h), HunkAt(lines, h) + 1)) <==>
            exists k :: h < k < e && lines[k].AddedReleaseHeading?
  {
    var hunk := Hunk(PathAt(lines, h), HunkAt(lines, h) + 1);
    if k: nat :| HeadingLine(lines, k) && HunkOf(lines, k) == hunk {
      if !(h < k < e) {
        OutOfHunk(lines, h, e, k);
      }
    }
    if k :| h < k < e && lines[k].AddedReleaseHeading? {
      InHunk(lines, h, e, k);
      assert HeadingLine(lines, k);
    }
  }
}
