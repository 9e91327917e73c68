/** Dropping the oldest releases of an oversized changelog (scripts/fix-changelogs.ts). */
module ChangelogCollapse {
  import opened LineSplit
  import opened ChangelogDocument
  import opened ChangelogRender

  /** Bytes of a line, without its newline. */
  type Bytes = Line -> nat

  /** Bytes of the first `n` lines, a newline each. */
  function Size(lines: seq<Line>, bytes: Bytes, n: nat): nat
    requires n <= |lines|
  {
    if n == 0 then 0 else Size(lines, bytes, n - 1) + bytes(lines[n - 1]) + 1
  }

  /** Where the release headings among the first `n` lines are. */
  function Headings(lines: seq<Line>, n: nat): (h: seq<nat>)
    requires n <= |lines|
    ensures forall k :: 0 <= k < |h| ==> h[k] < n && lines[h[k]].Release?
    ensures forall j, k :: 0 <= j < k < |h| ==> h[j] < h[k]
  {
    if n == 0 then []
    else if lines[n - 1].Release? then Headings(lines, n - 1) + [n - 1]
    else Headings(lines, n - 1)
  }

  /** No release heading is missing. */
  lemma {:induction false} HeadingsAreAll(lines: seq<Line>, n: nat, i: nat)
    requires n <= |lines|
    ensures i in Headings(lines, n) <==> i < n && lines[i].Release?
  {
    if n > 0 {
      HeadingsAreAll(lines, n - 1, i);
    }
  }

  /** The end of what precedes a line: blank lines before it are not part of that. */
  function BodyEnd(lines: seq<Line>, n: nat): (end: nat)
    requires n <= |lines|
    ensures end <= n && (end == 0 || !lines[end - 1].Blank?)
    ensures forall i :: end <= i < n ==> lines[i].Blank?
  {
    if n > 0 && lines[n - 1].Blank? then BodyEnd(lines, n - 1) else n
  }

  /** What is left when the releases from the `k`-th on are dropped fits the budget. */
  predicate Fits(lines: seq<Line>, bytes: Bytes, budget: int, k: nat)
    requires k < |Headings(lines, |lines|)|
  {
    Size(lines, bytes, BodyEnd(lines, Headings(lines, |lines|)[k])) <= budget
  }

  datatype Collapsed = Collapsed(lines: seq<Line>, dropped: nat)

  /** `contentBytes` is the size of the file as it is. */
  method CollapseChangelogTail(lines: seq<Line>, bytes: Bytes, contentBytes: nat, footerBytes: nat, maxBytes: nat)
    returns (r: Collapsed)
    ensures contentBytes + footerBytes <= maxBytes || |Headings(lines, |lines|)| <= 2 ==> r == Collapsed(lines, 0)
    ensures contentBytes + footerBytes > maxBytes && |Headings(lines, |lines|)| > 2 ==>
              IsCollapse(lines, bytes, maxBytes - footerBytes, r)
  {
    if contentBytes + footerBytes <= maxBytes {
      return Collapsed(lines, 0);
    }
    var headingLines := FindHeadings(lines);
    if |headingLines| <= 2 {
      return Collapsed(lines, 0);
    }
    var budget := maxBytes - footerBytes;
    var keptSections := CountKept(lines, bytes, headingLines, budget);
    var bodyEnd := BodyEndBeforeLine(lines, headingLines[keptSections]);
    r := Collapsed(lines[..bodyEnd], |headingLines| - keptSections);
    assert IsCollapseAt(lines, bytes, budget, r, keptSections);
  }

  /** The most releases, of two or more, whose lines fit the budget; two if none do. */
  method CountKept(lines: seq<Line>, bytes: Bytes, headingLines: seq<nat>, budget: int) returns (keptSections: nat)
    requires headingLines == Headings(lines, |lines|) && |headingLines| > 2
    ensures 2 <= keptSections < |headingLines|
    ensures keptSections == 2 || Fits(lines, bytes, budget, keptSections)
    ensures forall k: nat :: keptSections < k < |headingLines| ==> !Fits(lines, bytes, budget, k)
  {
    hide Headings, Size, BodyEnd;
    var cumulativeBytes := AccumulateBytes(lines, bytes);
    keptSections := 2;
    var candidate := |headingLines| - 1;
    while candidate >= 2
      invariant 1 <= candidate < |headingLines| && keptSections == 2
      invariant forall k: nat :: candidate < k < |headingLines| ==> !Fits(lines, bytes, budget, k)
      invariant forall i :: 0 <= i <= |lines| ==> cumulativeBytes[i] == Size(lines, bytes, i)
    {
      var end := BodyEndBeforeLine(lines, headingLines[candidate]);
      if cumulativeBytes[end] <= budget {
        return candidate;
      }
      candidate := candidate - 1;
    }
  }

  method FindHeadings(lines: seq<Line>) returns (h: seq<nat>)
    ensures h == Headings(lines, |lines|)
  {
    h := [];
    for index := 0 to |lines|
      invariant h == Headings(lines, index)
    {
      if lines[index].Release? {
        h := h + [index];
      }
    }
  }

  /** The sizes of the first lines: of none, one, two and so on. */
  ghost predicate Totals(s: seq<nat>, lines: seq<Line>, bytes: Bytes) {
    |s| <= |lines| + 1 && forall i :: 0 <= i < |s| ==> s[i] == Size(lines, bytes, i)
  }

  lemma {:induction false} TotalsNext(s: seq<nat>, lines: seq<Line>, bytes: Bytes, size: nat)
    requires 0 < |s| <= |lines| && Totals(s, lines, bytes) && size == bytes(lines[|s| - 1])
    ensures Totals(s + [s[|s| - 1] + size + 1], lines, bytes)
  {
  }

  method AccumulateBytes(lines: seq<Line>, bytes: Bytes) returns (cumulative: array<nat>)
    ensures fresh(cumulative) && cumulative.Length == |lines| + 1
    ensures forall i :: 0 <= i <= |lines| ==> cumulative[i] == Size(lines, bytes, i)
  {
    cumulative := new nat[|lines| + 1];
    cumulative[0] := 0;
    assert cumulative[..1] == [0] && Totals([0], lines, bytes);
    hide *;
    for index := 0 to |lines|
      invariant Totals(cumulative[..index + 1], lines, bytes)
    {
      var size := bytes(lines[index]);
      ghost var before := cumulative[..index + 1];
      TotalsNext(before, lines, bytes, size);
      cumulative[index + 1] := cumulative[index] + size + 1;
      assert cumulative[..index + 2] == before + [before[index] + size + 1];
    }
    TotalsAre(cumulative[..|lines| + 1], lines, bytes);
  }

  lemma {:induction false} TotalsAre(s: seq<nat>, lines: seq<Line>, bytes: Bytes)
    requires Totals(s, lines, bytes)
    ensures |s| <= |lines| + 1 && forall i :: 0 <= i < |s| ==> s[i] == Size(lines, bytes, i)
  {
  }

  method BodyEndBeforeLine(lines: seq<Line>, headingLine: nat) returns (end: nat)
    requires headingLine <= |lines|
    ensures end == BodyEnd(lines, headingLine)
  {
    end := headingLine;
    while end > 0 && lines[end - 1].Blank?
      invariant end <= headingLine && BodyEnd(lines, end) == BodyEnd(lines, headingLine)
    {
      end := end - 1;
    }
  }

  /** `r` keeps `k` releases: the most that fit, but at least two. */
  ghost predicate IsCollapseAt(lines: seq<Line>, bytes: Bytes, budget: int, r: Collapsed, k: nat) {
    var h := Headings(lines, |lines|);
    && 2 <= k < |h| && r == Collapsed(lines[..BodyEnd(lines, h[k])], |h| - k)
    && (k == 2 || Fits(lines, bytes, budget, k))
    && forall j :: k < j < |h| ==> !Fits(lines, bytes, budget, j)
  }

  ghost predicate IsCollapse(lines: seq<Line>, bytes: Bytes, budget: int, r: Collapsed) {
    exists k: nat :: IsCollapseAt(lines, bytes, budget, r, k)
  }

  // ---------------------------------------------------------------- what a collapse keeps

  lemma {:induction false} HeadingsOfPrefix(lines: seq<Line>, n: nat, m: nat)
    requires n <= m <= |lines|
    ensures Headings(lines[..m], n) == Headings(lines, n)
  {
    if n > 0 {
      HeadingsOfPrefix(lines, n - 1, m);
    }
  }

  lemma {:induction false} SizeOfPrefix(lines: seq<Line>, bytes: Bytes, n: nat, m: nat)
    requires n <= m <= |lines|
    ensures Size(lines[..m], bytes, n) == Size(lines, bytes, n)
  {
    if n > 0 {
      SizeOfPrefix(lines, bytes, n - 1, m);
    }
  }

  lemma {:induction false} SizeGrows(lines: seq<Line>, bytes: Bytes, n: nat, m: nat)
    requires n <= m <= |lines|
    ensures Size(lines, bytes, n) <= Size(lines, bytes, m)
  {
    if n < m {
      SizeGrows(lines, bytes, n, m - 1);
    }
  }

  /** The first `k` headings are the headings of the lines up to the `k`-th. */
  lemma {:induction false} HeadingsBefore(lines: seq<Line>, n: nat, m: nat, k: nat)
    requires n <= m <= |lines| && k < |Headings(lines, m)|
    requires n <= Headings(lines, m)[k] && (k == 0 || Headings(lines, m)[k - 1] < n)
    ensures Headings(lines, n) == Headings(lines, m)[..k]
  {
    var g, h := Headings(lines, n), Headings(lines, m);
    HeadingsGrow(lines, n, m);
    hide Headings;
    forall i | 0 <= i < |g| ensures h[i] < n {
      assert g[i] == h[i];
    }
    if k > 0 {
      HeadingsAreAll(lines, n, h[k - 1]);
      var i :| 0 <= i < |g| && g[i] == h[k - 1];
      assert h[i] == h[k - 1];
    }
  }

  lemma {:induction false} HeadingsGrow(lines: seq<Line>, n: nat, m: nat)
    requires n <= m <= |lines|
    ensures Headings(lines, n) <= Headings(lines, m)
  {
    if n < m {
      HeadingsGrow(lines, n, m - 1);
    }
  }

  /**
   A collapse keeps a prefix of the file: at least the first two releases, whole, with those it drops making up the
   rest; it fits the budget unless it is down to those two, and one release more would not fit.
   */
  lemma {:induction false} CollapseKeeps(lines: seq<Line>, bytes: Bytes, budget: int, r: Collapsed)
    requires IsCollapse(lines, bytes, budget, r)
    ensures r.lines <= lines && r.lines != [] && !r.lines[|r.lines| - 1].Blank?
    ensures var kept := |Headings(r.lines, |r.lines|)|;
            && kept >= 2 && r.dropped > 0 && kept + r.dropped == |Headings(lines, |lines|)|
            && (kept > 2 ==> Size(r.lines, bytes, |r.lines|) <= budget)
            && forall k :: kept < k < |Headings(lines, |lines|)| ==> !Fits(lines, bytes, budget, k)
  {
    hide Headings, Size, BodyEnd;
    var k: nat :| IsCollapseAt(lines, bytes, budget, r, k);
    var h := Headings(lines, |lines|);
    var end := BodyEnd(lines, h[k]);
    assert h[k - 1] < end by {
      assert !lines[h[k - 1]].Blank? && h[k - 1] < h[k];
    }
    HeadingsBefore(lines, end, |lines|, k);
    HeadingsOfPrefix(lines, end, end);
    SizeOfPrefix(lines, bytes, end, end);
    assert r.lines[|r.lines| - 1] == lines[end - 1];
  }

  /** Which collapse it is follows from the file and the budget. */
  lemma {:induction false} CollapseIsUnique(lines: seq<Line>, bytes: Bytes, budget: int, r: Collapsed, s: Collapsed)
    requires IsCollapse(lines, bytes, budget, r) && IsCollapse(lines, bytes, budget, s)
    ensures r == s
  {
    var j: nat :| IsCollapseAt(lines, bytes, budget, r, j);
    var k: nat :| IsCollapseAt(lines, bytes, budget, s, k);
  }

  /** Keeping fewer releases never takes more bytes: what does not fit, does not fit with more releases either. */
  lemma {:induction false} FitsDownward(lines: seq<Line>, bytes: Bytes, budget: int, j: nat, k: nat)
    requires 0 < j <= k < |Headings(lines, |lines|)| && Fits(lines, bytes, budget, k)
    ensures Fits(lines, bytes, budget, j)
  {
    var h := Headings(lines, |lines|);
    if j < k {
      assert BodyEnd(lines, h[j]) <= BodyEnd(lines, h[k]) by {
        assert !lines[h[j]].Blank? && h[j] < h[k];
      }
      SizeGrows(lines, bytes, BodyEnd(lines, h[j]), BodyEnd(lines, h[k]));
    }
  }

  // ---------------------------------------------------------------- sizes

  /** The first `n` lines as they are written: each followed by a newline. */
  function Written(lines: seq<Line>, text: Line -> seq<bv8>, n: nat): seq<bv8>
    requires n <= |lines|
  {
    if n == 0 then [] else Written(lines, text, n - 1) + text(lines[n - 1]) + [10]
  }

  /** What is compared with the budget is the length of what is written. */
  lemma {:induction false} SizeIsLength(lines: seq<Line>, text: Line -> seq<bv8>, bytes: Bytes, n: nat)
    requires n <= |lines| && forall l :: bytes(l) == |text(l)|
    ensures Size(lines, bytes, n) == |Written(lines, text, n)|
  {
    if n > 0 {
      SizeIsLength(lines, text, bytes, n - 1);
    }
  }
}
