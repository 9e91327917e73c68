/** From clusters of window positions to per-file regions, and the whole detector. */
module CloneRegions {
  import opened Prelude
  import opened UnionFind
  import opened CloneWindows

  /** Significant lines `first` to `last` of a file, with the line numbers of its ends. */
  datatype Region = Region(file: nat, first: nat, last: nat, startLine: nat, endLine: nat)

  datatype CloneCluster = CloneCluster(regions: seq<Region>, sigLines: nat)

  // ---------------------------------------------------------------- spans of lines

  function Span(a: nat, b: nat): (r: set<nat>)
    requires a <= b
    ensures |r| == b - a && forall l: nat :: l in r <==> a <= l < b
    decreases b - a
  {
    if a == b then {} else Span(a, b - 1) + {b - 1}
  }

  /** Lines covered by the windows that start at `idxs`. */
  ghost function Covered(idxs: seq<nat>): set<nat> {
    if idxs == [] then {}
    else
      var last := idxs[|idxs| - 1];
      Covered(idxs[..|idxs| - 1]) + Span(last, last + WINDOW)
  }

  predicate NoneInverted(regions: seq<Region>) {
    forall i :: 0 <= i < |regions| ==> regions[i].first <= regions[i].last
  }

  /** Lines inside the regions. */
  ghost function LinesOf(regions: seq<Region>): set<nat>
    requires NoneInverted(regions)
  {
    if regions == [] then {}
    else
      var r := regions[|regions| - 1];
      LinesOf(regions[..|regions| - 1]) + Span(r.first, r.last + 1)
  }

  lemma {:induction false} CoveredBy(idxs: seq<nat>, i: nat, l: nat)
    requires i < |idxs| && idxs[i] <= l < idxs[i] + WINDOW
    ensures l in Covered(idxs)
  {
    if i < |idxs| - 1 {
      CoveredBy(idxs[..|idxs| - 1], i, l);
    }
  }

  lemma {:induction false} CoveringWindow(idxs: seq<nat>, l: nat) returns (i: nat)
    requires l in Covered(idxs)
    ensures i < |idxs| && idxs[i] <= l < idxs[i] + WINDOW
  {
    i := |idxs| - 1;
    if l !in Span(idxs[i], idxs[i] + WINDOW) {
      i := CoveringWindow(idxs[..|idxs| - 1], l);
    }
  }

  lemma {:induction false} LineBy(regions: seq<Region>, i: nat, l: nat)
    requires NoneInverted(regions) && i < |regions| && regions[i].first <= l <= regions[i].last
    ensures l in LinesOf(regions)
  {
    if i < |regions| - 1 {
      LineBy(regions[..|regions| - 1], i, l);
    }
  }

  lemma {:induction false} RegionWith(regions: seq<Region>, l: nat) returns (i: nat)
    requires NoneInverted(regions) && l in LinesOf(regions)
    ensures i < |regions| && regions[i].first <= l <= regions[i].last
  {
    i := |regions| - 1;
    if l !in Span(regions[i].first, regions[i].last + 1) {
      i := RegionWith(regions[..|regions| - 1], l);
    }
  }

  /** Regions in order, with at least one line between any two. */
  ghost predicate Separated(regions: seq<Region>) {
    NoneInverted(regions)
    && forall i, j :: 0 <= i < j < |regions| ==> regions[i].last + 1 < regions[j].first
  }

  ghost predicate RegionOf(sig: Sig, f: nat, r: Region) {
    && r.file == f < |sig| && r.first <= r.last < |sig[f]|
    && r.startLine == sig[f][r.first].number && r.endLine == sig[f][r.last].number
  }

  /** The regions made so far, while windows from `start` to `prev` are being merged. */
  ghost predicate Merging(sig: Sig, f: nat, regions: seq<Region>, sigLines: nat, start: nat, prev: nat, covered: set<nat>) {
    && start <= prev
    && (forall i :: 0 <= i < |regions| ==> RegionOf(sig, f, regions[i]) && regions[i].last + 1 < start)
    && Separated(regions) && sigLines == |LinesOf(regions)|
    && covered == LinesOf(regions) + Span(start, prev + WINDOW)
  }

  lemma {:induction false} FlushLines(regions: seq<Region>, r: Region)
    requires NoneInverted(regions) && r.first <= r.last
    requires forall i :: 0 <= i < |regions| ==> regions[i].last + 1 < r.first
    ensures NoneInverted(regions + [r]) && LinesOf(regions + [r]) == LinesOf(regions) + Span(r.first, r.last + 1)
    ensures |LinesOf(regions + [r])| == |LinesOf(regions)| + r.last + 1 - r.first
  {
    var all := regions + [r];
    assert all[..|all| - 1] == regions && all[|all| - 1] == r;
    forall l | l in Span(r.first, r.last + 1) ensures l !in LinesOf(regions) {
      if l in LinesOf(regions) {
        var i := RegionWith(regions, l);
      }
    }
    assert LinesOf(regions) !! Span(r.first, r.last + 1);
  }

  lemma {:induction false} FlushSeparated(regions: seq<Region>, r: Region)
    requires Separated(regions) && r.first <= r.last
    requires forall i :: 0 <= i < |regions| ==> regions[i].last + 1 < r.first
    ensures Separated(regions + [r])
  {
  }

  method Flush(sig: Sig, f: nat, regions: seq<Region>, sigLines: nat, start: nat, prev: nat, ghost covered: set<nat>)
    returns (all: seq<Region>, total: nat)
    requires f < |sig| && prev + WINDOW <= |sig[f]| && Merging(sig, f, regions, sigLines, start, prev, covered)
    ensures |all| > 0 && Separated(all) && LinesOf(all) == covered && total == |covered|
    ensures forall i :: 0 <= i < |all| ==> RegionOf(sig, f, all[i]) && all[i].last < prev + WINDOW
  {
    var r := Region(f, start, prev + WINDOW - 1, sig[f][start].number, sig[f][prev + WINDOW - 1].number);
    FlushLines(regions, r);
    FlushSeparated(regions, r);
    all := regions + [r];
    total := sigLines + (prev + WINDOW - start);
    assert forall i :: 0 <= i < |regions| ==> all[i] == regions[i];
    assert Span(r.first, r.last + 1) == Span(start, prev + WINDOW);
  }

  /** Merge the sorted window positions of one file into regions. */
  method FileRegions(sig: Sig, f: nat, idxs: seq<nat>) returns (regions: seq<Region>, sigLines: nat)
    requires f < |sig| && idxs != [] && Increasing(idxs)
    requires forall i :: 0 <= i < |idxs| ==> idxs[i] + WINDOW <= |sig[f]|
    ensures regions != [] && Separated(regions) && forall i :: 0 <= i < |regions| ==> RegionOf(sig, f, regions[i])
    ensures LinesOf(regions) == Covered(idxs) && sigLines == |Covered(idxs)|
  {
    regions, sigLines := [], 0;
    var start, prev := idxs[0], idxs[0];
    FirstMerging(sig, f, idxs);
    hide Merging, Separated, Covered, LinesOf, RegionOf, Span;
    for k := 1 to |idxs|
      invariant prev == idxs[k - 1]
      invariant Merging(sig, f, regions, sigLines, start, prev, Covered(idxs[..k]))
    {
      ghost var covered := Covered(idxs[..k]);
      CoveredNext(idxs, k);
      if idxs[k] > prev + WINDOW {
        regions, sigLines := Flush(sig, f, regions, sigLines, start, prev, covered);
        start := idxs[k];
        StartMerging(sig, f, regions, sigLines, start, covered);
      } else {
        ExtendMerging(sig, f, regions, sigLines, start, prev, idxs[k], covered);
      }
      prev := idxs[k];
    }
    assert idxs[..|idxs|] == idxs;
    regions, sigLines := Flush(sig, f, regions, sigLines, start, prev, Covered(idxs));
  }

  lemma {:induction false} FirstMerging(sig: Sig, f: nat, idxs: seq<nat>)
    requires idxs != []
    ensures Merging(sig, f, [], 0, idxs[0], idxs[0], Covered(idxs[..1]))
  {
    CoveredFirst(idxs);
    StartMerging(sig, f, [], 0, idxs[0], {});
  }

  lemma {:induction false} StartMerging(sig: Sig, f: nat, regions: seq<Region>, sigLines: nat, start: nat, covered: set<nat>)
    requires Separated(regions) && LinesOf(regions) == covered && sigLines == |covered|
    requires forall i :: 0 <= i < |regions| ==> RegionOf(sig, f, regions[i]) && regions[i].last + 1 < start
    ensures Merging(sig, f, regions, sigLines, start, start, covered + Span(start, start + WINDOW))
  {
  }

  /** The next window overlaps or touches the previous one. */
  lemma {:induction false} ExtendMerging(sig: Sig, f: nat, regions: seq<Region>, sigLines: nat, start: nat, prev: nat, next: nat, covered: set<nat>)
    requires Merging(sig, f, regions, sigLines, start, prev, covered) && prev < next <= prev + WINDOW
    ensures Merging(sig, f, regions, sigLines, start, next, covered + Span(next, next + WINDOW))
  {
    assert Span(start, next + WINDOW) == Span(start, prev + WINDOW) + Span(next, next + WINDOW);
  }

  lemma {:induction false} CoveredFirst(idxs: seq<nat>)
    requires idxs != []
    ensures Covered(idxs[..1]) == Span(idxs[0], idxs[0] + WINDOW)
  {
    assert idxs[..1][..0] == [];
  }

  lemma {:induction false} CoveredNext(idxs: seq<nat>, k: nat)
    requires k < |idxs|
    ensures Covered(idxs[..k + 1]) == Covered(idxs[..k]) + Span(idxs[k], idxs[k] + WINDOW)
  {
    assert idxs[..k + 1][..k] == idxs[..k];
  }

  // ---------------------------------------------------------------- files of a cluster

  /** `idxs.sort((a, b) => a - b)` */
  function Sort(list: seq<nat>): seq<nat> {
    if list == [] then [] else InsertSorted(list[0], Sort(list[1..]))
  }

  function InsertSorted(x: nat, sorted: seq<nat>): seq<nat> {
    if sorted == [] || x <= sorted[0] then [x] + sorted else [sorted[0]] + InsertSorted(x, sorted[1..])
  }

  predicate Ascending(list: seq<nat>) {
    |list| <= 1 || (list[0] < list[1] && Ascending(list[1..]))
  }

  lemma {:induction false} AscendingIncreases(list: seq<nat>)
    requires Ascending(list)
    ensures Increasing(list)
  {
    if |list| > 1 {
      AscendingIncreases(list[1..]);
      forall i, j | 0 <= i < j < |list| ensures list[i] < list[j] {
        assert list[j] == list[1..][j - 1];
        if i > 0 {
          assert list[i] == list[1..][i - 1];
        }
      }
    }
  }

  lemma {:induction false} InsertAscending(x: nat, sorted: seq<nat>)
    requires Ascending(sorted) && x !in sorted
    ensures Ascending(InsertSorted(x, sorted))
    ensures forall y :: y in InsertSorted(x, sorted) <==> y == x || y in sorted
  {
    if sorted == [] || x <= sorted[0] {
      assert ([x] + sorted)[1..] == sorted;
    } else {
      var rest := InsertSorted(x, sorted[1..]);
      InsertAscending(x, sorted[1..]);
      assert ([sorted[0]] + rest)[1..] == rest;
      assert forall y :: y in sorted <==> y == sorted[0] || y in sorted[1..];
    }
  }

  lemma {:induction false} SortIncreases(list: seq<nat>)
    requires Distinct(list)
    ensures Ascending(Sort(list)) && Increasing(Sort(list)) && forall y :: y in Sort(list) <==> y in list
  {
    if list != [] {
      SortIncreases(list[1..]);
      assert list[0] !in list[1..] by {
        assert forall j :: 0 <= j < |list[1..]| ==> list[1..][j] == list[j + 1];
      }
      InsertAscending(list[0], Sort(list[1..]));
      AscendingIncreases(Sort(list));
      assert forall y :: y in list <==> y == list[0] || y in list[1..];
    }
  }

  type PerFile = map<nat, seq<nat>>

  /** The positions among the first `n`, by file and index; `at` decodes a position. */
  ghost predicate PerFileOk(at: nat -> (nat, nat), positions: seq<nat>, n: nat, files: seq<nat>, perFile: PerFile)
    requires n <= |positions|
  {
    && Distinct(files) && (forall f :: f in files <==> f in perFile)
    && (forall f :: f in perFile ==> perFile[f] != [] && Distinct(perFile[f]))
    && (forall f, i :: f in perFile && i in perFile[f] ==> exists k :: 0 <= k < n && at(positions[k]) == (f, i))
    && (forall k :: 0 <= k < n ==> Filed(perFile, at(positions[k])))
  }

  predicate Filed(perFile: PerFile, p: (nat, nat)) {
    p.0 in perFile && p.1 in perFile[p.0]
  }

  lemma {:induction false} FilePosition(at: nat -> (nat, nat), positions: seq<nat>, n: nat, files: seq<nat>, perFile: PerFile)
    requires n < |positions| && PerFileOk(at, positions, n, files, perFile)
    requires forall k :: 0 <= k < n ==> at(positions[k]) != at(positions[n])
    ensures var (f, i) := at(positions[n]);
            PerFileOk(at, positions, n + 1, if f in perFile then files else files + [f],
                      perFile[f := (if f in perFile then perFile[f] else []) + [i]])
  {
    var (f, i) := at(positions[n]);
    var old_ := if f in perFile then perFile[f] else [];
    var after := perFile[f := old_ + [i]];
    assert i !in old_;
    assert after[f][|old_|] == i;
    forall k | 0 <= k < n ensures Filed(after, at(positions[k])) {
      assert Filed(perFile, at(positions[k]));
    }
    forall g, j | g in after && j in after[g] ensures exists k :: 0 <= k < n + 1 && at(positions[k]) == (g, j) {
      if g == f && j == i {
        assert at(positions[n]) == (g, j);
      } else {
        assert g in perFile && j in perFile[g];
      }
    }
  }

  ghost function Decoded(): nat -> (nat, nat) {
    (p: nat) => (p / POS, p % POS)
  }

  lemma {:induction false} DecodesApart(p: nat, q: nat)
    requires p != q
    ensures Decoded()(p) != Decoded()(q)
  {
  }

  method GroupByFile(positions: seq<nat>) returns (files: seq<nat>, perFile: PerFile)
    requires Distinct(positions)
    ensures PerFileOk(Decoded(), positions, |positions|, files, perFile)
  {
    files, perFile := [], map[];
    for k := 0 to |positions|
      invariant PerFileOk(Decoded(), positions, k, files, perFile)
    {
      var p := positions[k];
      var f, i := p / POS, p % POS;
      forall m | 0 <= m < k ensures Decoded()(positions[m]) != Decoded()(p) {
        DecodesApart(positions[m], p);
      }
      FilePosition(Decoded(), positions, k, files, perFile);
      if f !in perFile {
        files := files + [f];
      }
      perFile := perFile[f := (if f in perFile then perFile[f] else []) + [i]];
    }
  }

  // ---------------------------------------------------------------- a cluster

  /** Line `l` of file `f` lies in a window of the cluster. */
  ghost predicate LineIn(positions: seq<nat>, f: nat, l: nat) {
    exists k :: 0 <= k < |positions| && positions[k] / POS == f && positions[k] % POS <= l < positions[k] % POS + WINDOW
  }

  /** The distinct significant lines a cluster's windows cover. */
  ghost function LinesIn(sig: Sig, positions: seq<nat>): set<(nat, nat)> {
    set f: nat, l: nat | f < |sig| && l < |sig[f]| && LineIn(positions, f, l) :: (f, l)
  }

  /**
   The regions cover exactly the lines of the windows, regions of one file are apart by at least one line, and the
   weight is the number of distinct lines covered.
   */
  ghost predicate Describes(sig: Sig, positions: seq<nat>, c: CloneCluster) {
    && (forall i :: 0 <= i < |c.regions| ==> c.regions[i].file < |sig| && RegionOf(sig, c.regions[i].file, c.regions[i]))
    && (forall f: nat, l: nat :: LineIn(positions, f, l) <==> InRegions(c.regions, f, l))
    && Apart(c.regions)
    && c.sigLines == |LinesIn(sig, positions)|
  }

  ghost predicate InRegions(regions: seq<Region>, f: nat, l: nat) {
    exists i :: 0 <= i < |regions| && regions[i].file == f && regions[i].first <= l <= regions[i].last
  }

  ghost predicate Apart(regions: seq<Region>) {
    forall i, j :: 0 <= i < j < |regions| && regions[i].file == regions[j].file ==> regions[i].last + 1 < regions[j].first
  }

  // ---------------------------------------------------------------- assembling a cluster

  ghost function Pairs(f: nat, lines: set<nat>): set<(nat, nat)> {
    set l | l in lines :: (f, l)
  }

  lemma {:induction false} PairsSize(f: nat, lines: set<nat>)
    ensures |Pairs(f, lines)| == |lines|
  {
    if lines == {} {
      assert Pairs(f, lines) == {};
    } else {
      var l :| l in lines;
      PairsSize(f, lines - {l});
      assert Pairs(f, lines) == Pairs(f, lines - {l}) + {(f, l)};
    }
  }

  ghost predicate RegionsIn(sig: Sig, done: set<nat>, regions: seq<Region>) {
    forall i :: 0 <= i < |regions| ==> regions[i].file in done && RegionOf(sig, regions[i].file, regions[i])
  }

  ghost predicate RegionsCover(positions: seq<nat>, done: set<nat>, regions: seq<Region>) {
    forall f: nat, l: nat :: InRegions(regions, f, l) <==> f in done && LineIn(positions, f, l)
  }

  ghost predicate LinesAre(positions: seq<nat>, done: set<nat>, lines: set<(nat, nat)>) {
    forall f: nat, l: nat :: (f, l) in lines <==> f in done && LineIn(positions, f, l)
  }

  /** The regions describe the part of the cluster in the files done. */
  ghost predicate Describing(sig: Sig, positions: seq<nat>, done: set<nat>, regions: seq<Region>, sigLines: nat,
                             lines: set<(nat, nat)>)
  {
    && RegionsIn(sig, done, regions) && RegionsCover(positions, done, regions) && Apart(regions)
    && LinesAre(positions, done, lines) && sigLines == |lines|
  }

  /** The sorted indices of a file cover its part of the cluster. */
  lemma {:induction false} FileCovered(positions: seq<nat>, files: seq<nat>, perFile: PerFile, f: nat, l: nat)
    requires PerFileOk(Decoded(), positions, |positions|, files, perFile) && f in perFile
    ensures l in Covered(Sort(perFile[f])) <==> LineIn(positions, f, l)
  {
    var idxs := Sort(perFile[f]);
    SortIncreases(perFile[f]);
    if l in Covered(idxs) {
      var i := CoveringWindow(idxs, l);
      CoveredLine(positions, files, perFile, f, idxs[i], l);
    }
    if LineIn(positions, f, l) {
      var k :| 0 <= k < |positions| && positions[k] / POS == f && positions[k] % POS <= l < positions[k] % POS + WINDOW;
      assert Filed(perFile, Decoded()(positions[k]));
      var i :| 0 <= i < |idxs| && idxs[i] == positions[k] % POS;
      CoveredBy(idxs, i, l);
    }
  }

  lemma {:induction false} CoveredLine(positions: seq<nat>, files: seq<nat>, perFile: PerFile, f: nat, i: nat, l: nat)
    requires PerFileOk(Decoded(), positions, |positions|, files, perFile) && f in perFile && i in perFile[f]
    requires i <= l < i + WINDOW
    ensures LineIn(positions, f, l)
  {
    var k :| 0 <= k < |positions| && Decoded()(positions[k]) == (f, i);
    assert positions[k] / POS == f && positions[k] % POS == i;
  }

  lemma {:induction false} InRegionsAppend(regions: seq<Region>, more: seq<Region>, f: nat, covered: set<nat>, g: nat, l: nat)
    requires Separated(more) && LinesOf(more) == covered
    requires forall i :: 0 <= i < |more| ==> more[i].file == f
    ensures InRegions(regions + more, g, l) <==> InRegions(regions, g, l) || (g == f && l in covered)
  {
    InEither(regions, more, g, l);
    assert NoneInverted(more);
    hide Separated, NoneInverted, LinesOf;
    if InRegions(more, g, l) {
      var i :| 0 <= i < |more| && more[i].file == g && more[i].first <= l <= more[i].last;
      LineBy(more, i, l);
    }
    if l in covered {
      var i := RegionWith(more, l);
    }
  }

  lemma {:induction false} InEither(regions: seq<Region>, more: seq<Region>, g: nat, l: nat)
    ensures InRegions(regions + more, g, l) <==> InRegions(regions, g, l) || InRegions(more, g, l)
  {
    var all := regions + more;
    if InRegions(regions, g, l) {
      var i :| 0 <= i < |regions| && regions[i].file == g && regions[i].first <= l <= regions[i].last;
      assert all[i] == regions[i];
    }
    if InRegions(more, g, l) {
      var i :| 0 <= i < |more| && more[i].file == g && more[i].first <= l <= more[i].last;
      assert all[|regions| + i] == more[i];
    }
    if InRegions(all, g, l) && !InRegions(regions, g, l) {
      var i :| 0 <= i < |all| && all[i].file == g && all[i].first <= l <= all[i].last;
      assert more[i - |regions|] == all[i];
    }
  }

  lemma {:induction false} AddLines(positions: seq<nat>, done: set<nat>, f: nat, lines: set<(nat, nat)>, covered: set<nat>)
    requires f !in done && LinesAre(positions, done, lines)
    requires forall l: nat :: l in covered <==> LineIn(positions, f, l)
    ensures LinesAre(positions, done + {f}, lines + Pairs(f, covered))
    ensures |lines + Pairs(f, covered)| == |lines| + |covered|
  {
    PairsSize(f, covered);
    assert lines !! Pairs(f, covered);
  }

  lemma {:induction false} AddCover(positions: seq<nat>, done: set<nat>, f: nat, regions: seq<Region>, more: seq<Region>, covered: set<nat>)
    requires f !in done && RegionsCover(positions, done, regions)
    requires Separated(more) && LinesOf(more) == covered && forall i :: 0 <= i < |more| ==> more[i].file == f
    requires forall l: nat :: l in covered <==> LineIn(positions, f, l)
    ensures RegionsCover(positions, done + {f}, regions + more)
  {
    forall g: nat, l: nat ensures InRegions(regions + more, g, l) <==> g in done + {f} && LineIn(positions, g, l) {
      InRegionsAppend(regions, more, f, covered, g, l);
    }
  }

  lemma {:induction false} AddRegions(sig: Sig, done: set<nat>, f: nat, regions: seq<Region>, more: seq<Region>)
    requires f !in done && RegionsIn(sig, done, regions) && Apart(regions) && Separated(more)
    requires forall i :: 0 <= i < |more| ==> RegionOf(sig, f, more[i])
    ensures RegionsIn(sig, done + {f}, regions + more) && Apart(regions + more)
  {
    ApartAppend(regions, more, f);
  }

  lemma {:induction false} AddFile(sig: Sig, positions: seq<nat>, done: set<nat>, f: nat, regions: seq<Region>, sigLines: nat,
                lines: set<(nat, nat)>, more: seq<Region>, covered: set<nat>)
    requires f !in done && Describing(sig, positions, done, regions, sigLines, lines)
    requires Separated(more) && LinesOf(more) == covered && forall i :: 0 <= i < |more| ==> RegionOf(sig, f, more[i])
    requires forall l: nat :: l in covered <==> LineIn(positions, f, l)
    ensures Describing(sig, positions, done + {f}, regions + more, sigLines + |covered|, lines + Pairs(f, covered))
  {
    AddRegions(sig, done, f, regions, more);
    AddCover(positions, done, f, regions, more, covered);
    AddLines(positions, done, f, lines, covered);
  }

  lemma {:induction false} ApartAppend(regions: seq<Region>, more: seq<Region>, f: nat)
    requires Apart(regions) && Separated(more)
    requires forall i :: 0 <= i < |regions| ==> regions[i].file != f
    requires forall i :: 0 <= i < |more| ==> more[i].file == f
    ensures Apart(regions + more)
  {
  }

  /** Every file of a cluster is a file, and its indices start windows in it. */
  lemma {:induction false} FileWindows(sig: Sig, positions: seq<nat>, files: seq<nat>, perFile: PerFile, f: nat)
    requires PerFileOk(Decoded(), positions, |positions|, files, perFile) && f in perFile
    requires forall k :: 0 <= k < |positions| ==> IsWindow(sig, positions[k])
    ensures f < |sig|
    ensures var idxs := Sort(perFile[f]);
            idxs != [] && Increasing(idxs) && forall i :: 0 <= i < |idxs| ==> idxs[i] + WINDOW <= |sig[f]|
  {
    var idxs := Sort(perFile[f]);
    SortIncreases(perFile[f]);
    assert perFile[f][0] in perFile[f] && perFile[f][0] in idxs;
    forall i | 0 <= i < |idxs| ensures f < |sig| && idxs[i] + WINDOW <= |sig[f]| {
      assert idxs[i] in perFile[f];
      var k :| 0 <= k < |positions| && Decoded()(positions[k]) == (f, idxs[i]);
      assert IsWindow(sig, positions[k]);
    }
    assert idxs[0] + WINDOW <= |sig[f]|;
  }

  ghost function FilesUpTo(files: seq<nat>, n: nat): set<nat>
    requires n <= |files|
  {
    if n == 0 then {} else FilesUpTo(files, n - 1) + {files[n - 1]}
  }

  lemma {:induction false} FilesUpToHas(files: seq<nat>, n: nat, f: nat)
    requires n <= |files|
    ensures f in FilesUpTo(files, n) <==> exists k :: 0 <= k < n && files[k] == f
  {
    if n > 0 {
      FilesUpToHas(files, n - 1, f);
    }
  }

  /** The regions of one more file. */
  method AddFileRegions(sig: Sig, positions: seq<nat>, ghost files: seq<nat>, perFile: PerFile, f: nat, ghost done: set<nat>,
                        before: seq<Region>, count: nat, ghost lines: set<(nat, nat)>)
    returns (regions: seq<Region>, sigLines: nat, ghost more: set<(nat, nat)>)
    requires PerFileOk(Decoded(), positions, |positions|, files, perFile) && f in perFile
    requires forall k :: 0 <= k < |positions| ==> IsWindow(sig, positions[k])
    requires f !in done && Describing(sig, positions, done, before, count, lines)
    ensures Describing(sig, positions, done + {f}, regions, sigLines, more)
  {
    var idxs := Sort(perFile[f]);
    FileWindows(sig, positions, files, perFile, f);
    var found, n := FileRegions(sig, f, idxs);
    forall l: nat ensures l in Covered(idxs) <==> LineIn(positions, f, l) {
      FileCovered(positions, files, perFile, f, l);
    }
    AddFile(sig, positions, done, f, before, count, lines, found, Covered(idxs));
    regions, sigLines, more := before + found, count + n, lines + Pairs(f, Covered(idxs));
  }

  /** Merge a cluster's window positions into per-file regions. */
  method DescribeCluster(sig: Sig, positions: seq<nat>) returns (c: CloneCluster)
    requires Distinct(positions) && forall k :: 0 <= k < |positions| ==> IsWindow(sig, positions[k])
    ensures Describes(sig, positions, c)
  {
    var files, perFile := GroupByFile(positions);
    var regions, sigLines := [], 0;
    ghost var lines: set<(nat, nat)> := {};
    for n := 0 to |files|
      invariant Describing(sig, positions, FilesUpTo(files, n), regions, sigLines, lines)
    {
      var f := files[n];
      assert f in files;
      FilesUpToHas(files, n, f);
      regions, sigLines, lines :=
        AddFileRegions(sig, positions, files, perFile, f, FilesUpTo(files, n), regions, sigLines, lines);
    }
    c := CloneCluster(regions, sigLines);
    forall f: nat ensures f in files <==> f in FilesUpTo(files, |files|) {
      FilesUpToHas(files, |files|, f);
    }
    AllFiles(sig, positions, files, perFile, FilesUpTo(files, |files|), regions, sigLines, lines);
  }

  lemma {:induction false} AllFiles(sig: Sig, positions: seq<nat>, files: seq<nat>, perFile: PerFile, done: set<nat>, regions: seq<Region>,
                 sigLines: nat, lines: set<(nat, nat)>)
    requires PerFileOk(Decoded(), positions, |positions|, files, perFile) && forall f :: f in files <==> f in done
    requires forall k :: 0 <= k < |positions| ==> IsWindow(sig, positions[k])
    requires Describing(sig, positions, done, regions, sigLines, lines)
    ensures Describes(sig, positions, CloneCluster(regions, sigLines))
  {
    forall f: nat, l: nat | LineIn(positions, f, l) ensures f in done && f < |sig| && l < |sig[f]| {
      var k :| 0 <= k < |positions| && positions[k] / POS == f && positions[k] % POS <= l < positions[k] % POS + WINDOW;
      assert Filed(perFile, Decoded()(positions[k])) && IsWindow(sig, positions[k]);
    }
    forall p: (nat, nat) ensures p in lines <==> p in LinesIn(sig, positions) {
      assert p == (p.0, p.1);
    }
    assert lines == LinesIn(sig, positions);
  }

  // ---------------------------------------------------------------- the detector

  function Keep(all: seq<CloneCluster>): seq<CloneCluster> {
    if all == [] then [] else Keep(all[..|all| - 1]) + if |all[|all| - 1].regions| < 2 then [] else [all[|all| - 1]]
  }

  /** The cluster has two different regions. */
  ghost predicate Shared(c: CloneCluster) {
    exists i, j :: 0 <= i < j < |c.regions| && c.regions[i] != c.regions[j]
  }

  /** The results are the clusters with two different regions, as often as they were described. */
  ghost predicate Kept(results: seq<CloneCluster>, described: seq<CloneCluster>) {
    forall c :: multiset(results)[c] == if Shared(c) then multiset(described)[c] else 0
  }

  lemma {:induction false} RegionsDiffer(sig: Sig, positions: seq<nat>, c: CloneCluster)
    requires Describes(sig, positions, c)
    ensures Shared(c) <==> |c.regions| >= 2
  {
    if |c.regions| >= 2 {
      var x, y := c.regions[0], c.regions[1];
      assert RegionOf(sig, x.file, x) && x.first <= x.last;
      assert x.file == y.file ==> x.last + 1 < y.first;
      assert x != y;
    }
  }

  /** `Keep` drops exactly the clusters without two different regions. */
  lemma {:induction false} KeepsShared(sig: Sig, classes: seq<seq<nat>>, described: seq<CloneCluster>, n: nat)
    requires n <= |described| == |classes| && forall c :: 0 <= c < n ==> Describes(sig, classes[c], described[c])
    ensures Kept(Keep(described[..n]), described[..n])
  {
    if n == 0 {
      assert described[..0] == [];
    } else {
      var before, last := described[..n - 1], described[n - 1];
      assert described[..n][..n - 1] == before && described[..n] == before + [last];
      assert Keep(described[..n]) == Keep(before) + if |last.regions| < 2 then [] else [last];
      RegionsDiffer(sig, classes[n - 1], last);
      hide *;
      KeepsShared(sig, classes, described, n - 1);
      KeptNext(Keep(before), before, last);
    }
  }

  lemma {:induction false} KeptNext(results: seq<CloneCluster>, described: seq<CloneCluster>, last: CloneCluster)
    requires Kept(results, described)
    ensures Kept(results + if Shared(last) then [last] else [], described + [last])
  {
    hide Shared;
  }

  /** `results.sort((a, b) => b.sigLines - a.sigLines)` */
  function SortByLines(all: seq<CloneCluster>): seq<CloneCluster> {
    if all == [] then [] else InsertByLines(all[0], SortByLines(all[1..]))
  }

  function InsertByLines(c: CloneCluster, sorted: seq<CloneCluster>): seq<CloneCluster> {
    if sorted == [] || c.sigLines >= sorted[0].sigLines then [c] + sorted
    else [sorted[0]] + InsertByLines(c, sorted[1..])
  }

  predicate ByLines(all: seq<CloneCluster>) {
    |all| <= 1 || (all[0].sigLines >= all[1].sigLines && ByLines(all[1..]))
  }

  lemma {:induction false} SortByLinesSorts(all: seq<CloneCluster>)
    ensures ByLines(SortByLines(all)) && multiset(SortByLines(all)) == multiset(all)
  {
    if all != [] {
      SortByLinesSorts(all[1..]);
      InsertByLinesSorts(all[0], SortByLines(all[1..]));
      assert all == [all[0]] + all[1..];
    }
  }

  lemma {:induction false} InsertByLinesSorts(c: CloneCluster, sorted: seq<CloneCluster>)
    requires ByLines(sorted)
    ensures ByLines(InsertByLines(c, sorted))
    ensures multiset(InsertByLines(c, sorted)) == multiset(sorted) + multiset{c}
  {
    if sorted == [] || c.sigLines >= sorted[0].sigLines {
      assert ([c] + sorted)[1..] == sorted;
    } else {
      var rest := InsertByLines(c, sorted[1..]);
      InsertByLinesSorts(c, sorted[1..]);
      assert sorted == [sorted[0]] + sorted[1..];
      assert ([sorted[0]] + rest)[1..] == rest;
    }
  }

  /**
   `classes` are the connected components of "same window hash, or adjacent" on the matched windows, `described` their regions,
   and `results` those with two different regions.
   */
  ghost predicate Detected(sig: Sig, hash: Hasher, classes: seq<seq<nat>>, described: seq<CloneCluster>, results: seq<CloneCluster>) {
    && IsPartition(Keys(sig, hash), |sig| * POS, classes)
    && |described| == |classes| && (forall c :: 0 <= c < |classes| ==> Describes(sig, classes[c], described[c]))
    && Kept(results, described)
  }

  /** The clusters with two different regions, heaviest first; the ghost results say what all clusters are. */
  method DetectClones(sig: Sig, hash: Hasher)
    returns (results: seq<CloneCluster>, ghost classes: seq<seq<nat>>, ghost described: seq<CloneCluster>)
    requires Fits(sig)
    ensures Detected(sig, hash, classes, described, results) && ByLines(results)
  {
    var clusters := FindClasses(sig, hash);
    classes := clusters;
    described := [];
    results := [];
    for c := 0 to |clusters|
      invariant |described| == c && forall k :: 0 <= k < c ==> Describes(sig, clusters[k], described[k])
      invariant results == Keep(described)
    {
      forall k | 0 <= k < |clusters[c]| ensures IsWindow(sig, clusters[c][k]) {
        assert clusters[c][k] in clusters[c] && Matched(Keys(sig, hash), clusters[c][k]);
        assert Keys(sig, hash)(clusters[c][k]) == WindowKey(sig, hash, clusters[c][k]);
      }
      var cluster := DescribeCluster(sig, clusters[c]);
      assert (described + [cluster])[..|described|] == described;
      described := described + [cluster];
      if |cluster.regions| >= 2 {
        results := results + [cluster];
      }
    }
    SortByLinesSorts(results);
    results := SortByLines(results);
    KeepsShared(sig, classes, described, |described|);
    assert described[..|described|] == described;
  }

  // ---------------------------------------------------------------- what is reported

  /** The encoded position of a window. */
  function Position(f: nat, i: nat): nat {
    f * POS + i
  }

  lemma {:induction false} TextsAre(lines: seq<Line>)
    ensures |Texts(lines)| == |lines| && forall k :: 0 <= k < |lines| ==> Texts(lines)[k] == lines[k].text
  {
    if lines != [] {
      TextsAre(lines[1..]);
    }
  }

  predicate SameText(sig: Sig, f: nat, i: nat, g: nat, j: nat, k: nat)
    requires f < |sig| && g < |sig| && i + k < |sig[f]| && j + k < |sig[g]|
  {
    sig[f][i + k].text == sig[g][j + k].text
  }

  /** The windows that start at index `i` of file `f` and at index `j` of file `g` have the same texts. */
  predicate SameTexts(sig: Sig, f: nat, i: nat, g: nat, j: nat)
    requires f < |sig| && g < |sig| && i + WINDOW <= |sig[f]| && j + WINDOW <= |sig[g]|
  {
    forall k: nat :: k < WINDOW ==> SameText(sig, f, i, g, j, k)
  }

  /** The hash tells different windows apart. */
  ghost predicate Injective(hash: Hasher) {
    forall x, y :: |x| == |y| == WINDOW && hash(x) == hash(y) ==> x == y
  }

  lemma {:induction false} SameTextsAre(sig: Sig, f: nat, i: nat, g: nat, j: nat)
    requires f < |sig| && g < |sig| && i + WINDOW <= |sig[f]| && j + WINDOW <= |sig[g]|
    ensures var x, y := Texts(sig[f][i..i + WINDOW]), Texts(sig[g][j..j + WINDOW]);
            |x| == |y| == WINDOW && (SameTexts(sig, f, i, g, j) <==> x == y)
  {
    var a, b := sig[f][i..i + WINDOW], sig[g][j..j + WINDOW];
    var x, y := Texts(a), Texts(b);
    TextsAre(a);
    TextsAre(b);
    hide Texts;
    if SameTexts(sig, f, i, g, j) {
      forall k | 0 <= k < WINDOW ensures x[k] == y[k] {
        assert SameText(sig, f, i, g, j, k);
      }
    }
    if x == y {
      forall k: nat | k < WINDOW ensures SameText(sig, f, i, g, j, k) {
        assert a[k].text == x[k] && b[k].text == y[k];
      }
    }
  }

  /** Windows with the same texts have the same hash; only they do, if the hash is injective. */
  lemma {:induction false} SameTextsSameKey(sig: Sig, hash: Hasher, f: nat, i: nat, g: nat, j: nat)
    requires Fits(sig) && f < |sig| && g < |sig| && i + WINDOW <= |sig[f]| && j + WINDOW <= |sig[g]|
    ensures Keys(sig, hash)(Position(f, i)).Some?
    ensures SameTexts(sig, f, i, g, j) ==> Keys(sig, hash)(Position(f, i)) == Keys(sig, hash)(Position(g, j))
    ensures Injective(hash) && Keys(sig, hash)(Position(f, i)) == Keys(sig, hash)(Position(g, j)) ==> SameTexts(sig, f, i, g, j)
  {
    hide *;
    KeyOf(sig, hash, f, i);
    KeyOf(sig, hash, g, j);
    SameTextsAre(sig, f, i, g, j);
    ToldApart(hash, Texts(sig[f][i..i + WINDOW]), Texts(sig[g][j..j + WINDOW]));
  }

  lemma {:induction false} KeyOf(sig: Sig, hash: Hasher, f: nat, i: nat)
    requires Fits(sig) && f < |sig| && i + WINDOW <= |sig[f]|
    ensures Keys(sig, hash)(Position(f, i)) == Some(hash(Texts(sig[f][i..i + WINDOW])))
  {
    KeyAt(sig, hash, f, i);
  }

  lemma {:induction false} ToldApart(hash: Hasher, x: seq<string>, y: seq<string>)
    requires |x| == |y| == WINDOW
    ensures Injective(hash) && hash(x) == hash(y) ==> x == y
  {
  }

  lemma {:induction false} DetectedAt(sig: Sig, hash: Hasher, classes: seq<seq<nat>>, described: seq<CloneCluster>,
                                      results: seq<CloneCluster>)
    requires Detected(sig, hash, classes, described, results)
    ensures IsPartition(Keys(sig, hash), |sig| * POS, classes) && Kept(results, described) && |described| == |classes|
    ensures forall n :: 0 <= n < |classes| ==> Describes(sig, classes[n], described[n])
  {
  }

  /** Two windows with the same hash are in one class. */
  lemma {:induction false} SameClass(key: Keying, limit: nat, classes: seq<seq<nat>>, p: nat, q: nat) returns (n: nat)
    requires IsPartition(key, limit, classes) && p < limit && q < limit && p != q && key(p).Some? && key(p) == key(q)
    ensures n < |classes| && p in classes[n] && q in classes[n]
  {
    assert Matched(key, p) && Matched(key, q) && Related(key, p, q);
    n :| 0 <= n < |classes| && p in classes[n];
    var m :| 0 <= m < |classes| && q in classes[m];
    ConnectedEdge(Relation(key, limit), p, q);
    hide Related, Matched, Connected;
  }

  /** The regions cover seven lines from index `i` of file `f`. */
  ghost predicate Reported(c: CloneCluster, f: nat, i: nat) {
    forall l: nat :: i <= l < i + WINDOW ==> InRegions(c.regions, f, l)
  }

  /** Seven significant lines that two files share are in one reported cluster, in both files. */
  lemma {:induction false} CopiesAreReported(sig: Sig, hash: Hasher, classes: seq<seq<nat>>, described: seq<CloneCluster>,
                                             results: seq<CloneCluster>, f: nat, i: nat, g: nat, j: nat) returns (c: CloneCluster)
    requires Fits(sig) && Detected(sig, hash, classes, described, results) && f != g
    requires f < |sig| && g < |sig| && i + WINDOW <= |sig[f]| && j + WINDOW <= |sig[g]| && SameTexts(sig, f, i, g, j)
    ensures c in results && Reported(c, f, i) && Reported(c, g, j)
  {
    hide *;
    var key, p, q := Keys(sig, hash), Position(f, i), Position(g, j);
    DetectedAt(sig, hash, classes, described, results);
    SameTextsSameKey(sig, hash, f, i, g, j);
    Encoded(sig, f, i);
    Encoded(sig, g, j);
    Elsewhere(f, i, g, j);
    var n := SameClass(key, |sig| * POS, classes, p, q);
    c := described[n];
    Covers(sig, classes[n], c, f, i);
    Covers(sig, classes[n], c, g, j);
    TwoFilesShared(c, f, i, g, j);
    IsReported(results, described, n);
  }

  lemma {:induction false} Encoded(sig: Sig, f: nat, i: nat)
    requires Fits(sig) && f < |sig| && i + WINDOW <= |sig[f]|
    ensures var p := Position(f, i); i < POS && p < |sig| * POS && p / POS == f && p % POS == i
  {
  }

  lemma {:induction false} Elsewhere(f: nat, i: nat, g: nat, j: nat)
    requires f != g && i < POS && j < POS
    ensures Position(f, i) != Position(g, j)
  {
  }

  lemma {:induction false} Covers(sig: Sig, positions: seq<nat>, c: CloneCluster, f: nat, i: nat)
    requires Describes(sig, positions, c) && Position(f, i) in positions && i < POS
    ensures Reported(c, f, i)
  {
    var p := f * POS + i;
    assert p / POS == f && p % POS == i;
    var n :| 0 <= n < |positions| && positions[n] == p;
    hide Fits, Apart, RegionOf, LinesIn, InRegions;
    forall l: nat | i <= l < i + WINDOW ensures InRegions(c.regions, f, l) {
      assert LineIn(positions, f, l);
    }
  }

  lemma {:induction false} TwoFilesShared(c: CloneCluster, f: nat, i: nat, g: nat, j: nat)
    requires Reported(c, f, i) && Reported(c, g, j) && f != g
    ensures Shared(c)
  {
    assert InRegions(c.regions, f, i) && InRegions(c.regions, g, j);
    var x :| 0 <= x < |c.regions| && c.regions[x].file == f;
    var y :| 0 <= y < |c.regions| && c.regions[y].file == g;
    assert x < y || y < x;
  }

  lemma {:induction false} IsReported(results: seq<CloneCluster>, described: seq<CloneCluster>, n: nat)
    requires Kept(results, described) && n < |described| && Shared(described[n])
    ensures described[n] in results
  {
    assert described[n] in multiset(described);
    assert multiset(results)[described[n]] > 0;
    hide Shared;
  }

  lemma {:induction false} WasDescribed(results: seq<CloneCluster>, described: seq<CloneCluster>, c: CloneCluster) returns (n: nat)
    requires Kept(results, described) && c in results
    ensures n < |described| && described[n] == c
  {
    assert multiset(results)[c] > 0;
    assert c in multiset(described);
    n :| 0 <= n < |described| && described[n] == c;
  }

  /** With a hash that tells windows apart, every reported line is one of seven that stand elsewhere too. */
  lemma {:induction false} OnlyCopiesAreReported(sig: Sig, hash: Hasher, classes: seq<seq<nat>>, described: seq<CloneCluster>,
                                                 results: seq<CloneCluster>, c: CloneCluster, f: nat, l: nat)
    returns (i: nat, g: nat, j: nat)
    requires Fits(sig) && Detected(sig, hash, classes, described, results) && Injective(hash)
    requires c in results && InRegions(c.regions, f, l)
    ensures f < |sig| && g < |sig| && i + WINDOW <= |sig[f]| && j + WINDOW <= |sig[g]|
    ensures i <= l < i + WINDOW && (f != g || i != j) && SameTexts(sig, f, i, g, j)
  {
    var limit: nat := |sig| * POS;
    hide *;
    DetectedAt(sig, hash, classes, described, results);
    var n := WasDescribed(results, described, c);
    i := LineSource(sig, classes[n], c, f, l);
    var q := TwinOf(Keys(sig, hash), limit, classes, n, Position(f, i));
    WindowStarts(sig, hash, f, i);
    g, j := WindowAt(sig, hash, q);
    SameTextsSameKey(sig, hash, f, i, g, j);
  }

  lemma {:induction false} LineSource(sig: Sig, positions: seq<nat>, c: CloneCluster, f: nat, l: nat) returns (i: nat)
    requires Describes(sig, positions, c) && InRegions(c.regions, f, l)
    ensures i < POS && Position(f, i) in positions && i <= l < i + WINDOW
  {
    assert LineIn(positions, f, l);
    var k :| 0 <= k < |positions| && positions[k] / POS == f && positions[k] % POS <= l < positions[k] % POS + WINDOW;
    i := positions[k] % POS;
    assert positions[k] == f * POS + i;
  }

  lemma {:induction false} WindowStarts(sig: Sig, hash: Hasher, f: nat, i: nat)
    requires i < POS && Keys(sig, hash)(Position(f, i)).Some?
    ensures f < |sig| && i + WINDOW <= |sig[f]|
  {
    var p := f * POS + i;
    assert p / POS == f && p % POS == i;
    assert Keys(sig, hash)(p) == WindowKey(sig, hash, p);
  }

  lemma {:induction false} TwinOf(key: Keying, limit: nat, classes: seq<seq<nat>>, n: nat, p: nat) returns (q: nat)
    requires IsPartition(key, limit, classes) && n < |classes| && p in classes[n]
    ensures q != p && key(p).Some? && key(q) == key(p)
  {
    assert Matched(key, p);
    q :| q != p && key(q) == key(p);
  }

  lemma {:induction false} WindowAt(sig: Sig, hash: Hasher, p: nat) returns (f: nat, i: nat)
    requires Keys(sig, hash)(p).Some?
    ensures p == Position(f, i) && f < |sig| && i + WINDOW <= |sig[f]|
  {
    assert Keys(sig, hash)(p) == WindowKey(sig, hash, p);
    f, i := p / POS, p % POS;
  }
}
