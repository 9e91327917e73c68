/** Which added bullets of a diff are new entries, and not edits or moves (scripts/fix-changelogs.ts). */
module DiffPairing {
  import opened Prelude

  /** A diff line by what the scan sees in it; a bullet by its trimmed text. */
  datatype DiffLine =
    | FileStart
    | NewPath(path: string)
    | HunkHeader(start: nat)
    | AddedBullet(text: string)
    | AddedReleaseHeading
    | AddedOther
    | RemovedBullet(text: string)
    | RemovedOther
    | Context
    | Ignored
  {
    /** A line of the new file. */
    predicate NewSide() {
      AddedBullet? || AddedReleaseHeading? || AddedOther? || Context?
    }
  }

  datatype Hunk = Hunk(path: string, index: nat)

  datatype Key = Key(path: string, text: string)

  /** An added or removed bullet; the line number means nothing for a removed one. */
  datatype Bullet = Bullet(key: Key, hunk: Hunk, lineNumber: nat)

  // ---------------------------------------------------------------- where the scan is

  function PathAt(lines: seq<DiffLine>, n: nat): string
    requires n <= |lines|
  {
    if n == 0 then ""
    else if lines[n - 1].NewPath? then lines[n - 1].path
    else if lines[n - 1].FileStart? then ""
    else PathAt(lines, n - 1)
  }

  function HunkAt(lines: seq<DiffLine>, n: nat): (i: int)
    requires n <= |lines|
    ensures i >= -1
  {
    if n == 0 || lines[n - 1].FileStart? then -1
    else if lines[n - 1].HunkHeader? then HunkAt(lines, n - 1) + 1
    else HunkAt(lines, n - 1)
  }

  predicate Visible(lines: seq<DiffLine>, n: nat)
    requires n <= |lines|
  {
    PathAt(lines, n) != "" && HunkAt(lines, n) >= 0
  }

  function LineAt(lines: seq<DiffLine>, n: nat): nat
    requires n <= |lines|
  {
    if n == 0 then 0
    else if lines[n - 1].HunkHeader? then lines[n - 1].start
    else LineAt(lines, n - 1) + if Visible(lines, n - 1) && lines[n - 1].NewSide() then 1 else 0
  }

  function HunkOf(lines: seq<DiffLine>, n: nat): Hunk
    requires n <= |lines| && Visible(lines, n)
  {
    Hunk(PathAt(lines, n), HunkAt(lines, n))
  }

  /** The added bullets among the first `n` lines. */
  function Added(lines: seq<DiffLine>, n: nat): seq<Bullet>
    requires n <= |lines|
  {
    if n == 0 then []
    else if Visible(lines, n - 1) && lines[n - 1].AddedBullet? then
      Added(lines, n - 1) + [Bullet(Key(PathAt(lines, n - 1), lines[n - 1].text), HunkOf(lines, n - 1), LineAt(lines, n - 1))]
    else Added(lines, n - 1)
  }

  function Removed(lines: seq<DiffLine>, n: nat): seq<Bullet>
    requires n <= |lines|
  {
    if n == 0 then []
    else if Visible(lines, n - 1) && lines[n - 1].RemovedBullet? then
      Removed(lines, n - 1) + [Bullet(Key(PathAt(lines, n - 1), lines[n - 1].text), HunkOf(lines, n - 1), 0)]
    else Removed(lines, n - 1)
  }

  /** The hunks with an added release heading. */
  function Headed(lines: seq<DiffLine>, n: nat): set<Hunk>
    requires n <= |lines|
  {
    if n == 0 then {}
    else if Visible(lines, n - 1) && lines[n - 1].AddedReleaseHeading? then Headed(lines, n - 1) + {HunkOf(lines, n - 1)}
    else Headed(lines, n - 1)
  }

  method Scan(lines: seq<DiffLine>) returns (candidates: seq<Bullet>, removals: seq<Bullet>, headed: set<Hunk>)
    ensures candidates == Added(lines, |lines|) && removals == Removed(lines, |lines|) && headed == Headed(lines, |lines|)
  {
    candidates, removals, headed := [], [], {};
    var currentPath, newLine, hunkIndex := "", 0, -1;
    for i := 0 to |lines|
      invariant currentPath == PathAt(lines, i) && newLine == LineAt(lines, i) && hunkIndex == HunkAt(lines, i)
      invariant candidates == Added(lines, i) && removals == Removed(lines, i) && headed == Headed(lines, i)
    {
      var line := lines[i];
      if line.NewPath? {
        currentPath := line.path;
        continue;
      }
      if line.FileStart? {
        currentPath, hunkIndex := "", -1;
        continue;
      }
      if line.HunkHeader? {
        newLine, hunkIndex := line.start, hunkIndex + 1;
        continue;
      }
      if currentPath == "" || hunkIndex < 0 {
        continue;
      }
      var hunk := Hunk(currentPath, hunkIndex);
      if line.AddedReleaseHeading? {
        headed := headed + {hunk};
      } else if line.AddedBullet? {
        candidates := candidates + [Bullet(Key(currentPath, line.text), hunk, newLine)];
      } else if line.RemovedBullet? {
        removals := removals + [Bullet(Key(currentPath, line.text), hunk, 0)];
      }
      if line.NewSide() {
        newLine := newLine + 1;
      }
    }
  }

  // ---------------------------------------------------------------- pairing

  /** How many of the first `n` bullets have this path and text. */
  function KeyCount(bs: seq<Bullet>, n: nat, key: Key): nat
    requires n <= |bs|
  {
    if n == 0 then 0 else KeyCount(bs, n - 1, key) + if bs[n - 1].key == key then 1 else 0
  }

  lemma {:induction false} KeyCountGrows(bs: seq<Bullet>, n: nat, m: nat, key: Key)
    requires n <= m <= |bs|
    ensures KeyCount(bs, n, key) <= KeyCount(bs, m, key)
  {
    if n < m {
      KeyCountGrows(bs, n, m - 1, key);
    }
  }

  /** One more than the rank of a bullet still counts it. */
  lemma {:induction false} RankBelow(bs: seq<Bullet>, i: nat, n: nat)
    requires i < n <= |bs|
    ensures KeyCount(bs, i, bs[i].key) < KeyCount(bs, n, bs[i].key)
  {
    KeyCountGrows(bs, i + 1, n, bs[i].key);
  }

  /** Bullets of one key are told apart by their rank. */
  lemma {:induction false} RankIsUnique(bs: seq<Bullet>, i: nat, j: nat)
    requires i < |bs| && j < |bs| && bs[i].key == bs[j].key
    requires KeyCount(bs, i, bs[i].key) == KeyCount(bs, j, bs[j].key)
    ensures i == j
  {
    if i < j {
      RankBelow(bs, i, j);
    } else if j < i {
      RankBelow(bs, j, i);
    }
  }

  /** The `at`-th bullet is paired: fewer with its key come before it than the other side has in all. */
  predicate Paired(bs: seq<Bullet>, others: seq<Bullet>, m: nat, at: nat)
    requires at < |bs| && m <= |others|
  {
    KeyCount(bs, at, bs[at].key) < KeyCount(others, m, bs[at].key)
  }

  /** Where the bullets of one key are, in order. */
  ghost predicate Indexes(bs: seq<Bullet>, n: nat, key: Key, at: seq<nat>)
    requires n <= |bs|
  {
    && |at| == KeyCount(bs, n, key)
    && forall t :: 0 <= t < |at| ==> at[t] < n && bs[at[t]].key == key && KeyCount(bs, at[t], key) == t
  }

  ghost predicate IndexedBy(bs: seq<Bullet>, n: nat, byItem: map<Key, seq<nat>>)
    requires n <= |bs|
  {
    forall key: Key :: Indexes(bs, n, key, if key in byItem then byItem[key] else [])
  }

  lemma {:induction false} IndexesPush(bs: seq<Bullet>, n: nat, key: Key, at: seq<nat>)
    requires n < |bs| && Indexes(bs, n, key, at)
    ensures Indexes(bs, n + 1, key, if bs[n].key == key then at + [n] else at)
  {
  }

  lemma {:induction false} IndexedStep(bs: seq<Bullet>, n: nat, was: map<Key, seq<nat>>, now: map<Key, seq<nat>>)
    requires n < |bs| && IndexedBy(bs, n, was)
    requires now == was[bs[n].key := (if bs[n].key in was then was[bs[n].key] else []) + [n]]
    ensures IndexedBy(bs, n + 1, now)
  {
    forall k: Key ensures Indexes(bs, n + 1, k, if k in now then now[k] else []) {
      IndexesPush(bs, n, k, if k in was then was[k] else []);
    }
  }

  method IndexByItem(removals: seq<Bullet>) returns (byItem: map<Key, seq<nat>>)
    ensures IndexedBy(removals, |removals|, byItem)
  {
    byItem := map[];
    assert IndexedBy(removals, 0, byItem);
    hide *;
    for i := 0 to |removals|
      invariant IndexedBy(removals, i, byItem)
    {
      var key := removals[i].key;
      ghost var was := byItem;
      byItem := byItem[key := (if key in byItem then byItem[key] else []) + [i]];
      IndexedStep(removals, i, was, byItem);
    }
  }

  ghost predicate IsFirstOpen(at: seq<nat>, flags: seq<bool>, open: nat)
    requires forall t :: 0 <= t < |at| ==> at[t] < |flags|
  {
    exists t :: 0 <= t < |at| && at[t] == open && !flags[at[t]] && forall u :: 0 <= u < t ==> flags[at[u]]
  }

  /** The first index whose flag is down. */
  method FirstOpen(at: seq<nat>, flags: array<bool>) returns (r: Option<nat>)
    requires forall t :: 0 <= t < |at| ==> at[t] < flags.Length
    ensures r.None? ==> forall t :: 0 <= t < |at| ==> flags[..][at[t]]
    ensures r.Some? ==> IsFirstOpen(at, flags[..], r.value)
  {
    for t := 0 to |at|
      invariant forall u :: 0 <= u < t ==> flags[at[u]]
    {
      if !flags[at[t]] {
        return Some(at[t]);
      }
    }
    return None;
  }

  method Raise(flags: array<bool>, i: nat)
    requires i < flags.Length
    modifies flags
    ensures flags[..] == old(flags[..])[i := true]
  {
    flags[i] := true;
  }

  /** One addition takes the first removal among those of its path and text that no earlier one took. */
  method PairNext(candidates: seq<Bullet>, removals: seq<Bullet>, c: nat, same: seq<nat>, added: array<bool>, removed: array<bool>)
    requires added != removed && c < |candidates| && PairedTo(candidates, removals, c, added[..], removed[..])
    requires Indexes(removals, |removals|, candidates[c].key, same) && forall t :: 0 <= t < |same| ==> same[t] < |removals|
    modifies added, removed
    ensures PairedTo(candidates, removals, c + 1, added[..], removed[..])
  {
    ghost var a, r := added[..], removed[..];
    assert |a| == |candidates| && |r| == |removals|;
    hide *;
    var open := FirstOpen(same, removed);
    if open.Some? {
      PairsOpen(candidates, removals, c, a, r, same, open.value);
      OpenInRange(same, r, open.value);
      Raise(removed, open.value);
      Raise(added, c);
    } else {
      PairsNone(candidates, removals, c, a, r, same);
    }
  }

  lemma {:induction false} OpenInRange(at: seq<nat>, flags: seq<bool>, open: nat)
    requires (forall t :: 0 <= t < |at| ==> at[t] < |flags|) && IsFirstOpen(at, flags, open)
    ensures open < |flags|
  {
  }

  /** Each addition takes the first removal of its path and text that no earlier one took. */
  method Pair(candidates: seq<Bullet>, removals: seq<Bullet>, added: array<bool>, removed: array<bool>)
    requires added != removed && added.Length == |candidates| && removed.Length == |removals|
    requires forall i :: 0 <= i < added.Length ==> !added[i]
    requires forall i :: 0 <= i < removed.Length ==> !removed[i]
    modifies added, removed
    ensures forall i :: 0 <= i < |candidates| ==> added[i] == Paired(candidates, removals, |removals|, i)
    ensures forall i :: 0 <= i < |removals| ==> removed[i] == Paired(removals, candidates, |candidates|, i)
  {
    var byItem := IndexByItem(removals);
    NonePairedYet(candidates, removals, added[..], removed[..]);
    hide *;
    for c := 0 to |candidates|
      invariant PairedTo(candidates, removals, c, added[..], removed[..])
    {
      var key := candidates[c].key;
      IndexedAt(removals, byItem, key);
      PairNext(candidates, removals, c, if key in byItem then byItem[key] else [], added, removed);
    }
    AllPaired(candidates, removals, added[..], removed[..]);
  }

  /** The flags once the first `c` additions have been paired. */
  ghost predicate PairedTo(candidates: seq<Bullet>, removals: seq<Bullet>, c: nat, a: seq<bool>, r: seq<bool>)
    requires c <= |candidates|
  {
    && |a| == |candidates| && |r| == |removals|
    && (forall i :: 0 <= i < |a| ==> a[i] == (i < c && Paired(candidates, removals, |removals|, i)))
    && (forall i :: 0 <= i < |r| ==> r[i] == Paired(removals, candidates, c, i))
  }

  lemma {:induction false} AllPaired(candidates: seq<Bullet>, removals: seq<Bullet>, a: seq<bool>, r: seq<bool>)
    requires PairedTo(candidates, removals, |candidates|, a, r)
    ensures |a| == |candidates| && forall i :: 0 <= i < |candidates| ==> a[i] == Paired(candidates, removals, |removals|, i)
    ensures |r| == |removals| && forall i :: 0 <= i < |removals| ==> r[i] == Paired(removals, candidates, |candidates|, i)
  {
  }

  lemma {:induction false} PairsOpen(candidates: seq<Bullet>, removals: seq<Bullet>, c: nat, a: seq<bool>, r: seq<bool>, same: seq<nat>,
                                     open: nat)
    requires c < |candidates| && PairedTo(candidates, removals, c, a, r) && Indexes(removals, |removals|, candidates[c].key, same)
    requires (forall u :: 0 <= u < |same| ==> same[u] < |r|) && IsFirstOpen(same, r, open)
    ensures PairedTo(candidates, removals, c + 1, a[c := true], r[open := true])
  {
    hide Paired, Indexes;
    var t :| 0 <= t < |same| && same[t] == open && !r[same[t]] && forall u :: 0 <= u < t ==> r[same[u]];
    TakesOpen(candidates, removals, c, same, t);
  }

  lemma {:induction false} PairsNone(candidates: seq<Bullet>, removals: seq<Bullet>, c: nat, a: seq<bool>, r: seq<bool>, same: seq<nat>)
    requires c < |candidates| && PairedTo(candidates, removals, c, a, r) && Indexes(removals, |removals|, candidates[c].key, same)
    requires forall t :: 0 <= t < |same| ==> same[t] < |r| && r[same[t]]
    ensures PairedTo(candidates, removals, c + 1, a, r)
  {
    hide Paired, Indexes;
    TakesNone(candidates, removals, c, same);
  }

  lemma {:induction false} NonePairedYet(candidates: seq<Bullet>, removals: seq<Bullet>, a: seq<bool>, r: seq<bool>)
    requires |a| == |candidates| && |r| == |removals|
    requires (forall i :: 0 <= i < |a| ==> !a[i]) && forall i :: 0 <= i < |r| ==> !r[i]
    ensures PairedTo(candidates, removals, 0, a, r)
  {
  }

  lemma {:induction false} IndexedAt(bs: seq<Bullet>, byItem: map<Key, seq<nat>>, key: Key)
    requires IndexedBy(bs, |bs|, byItem)
    ensures var at := if key in byItem then byItem[key] else [];
            Indexes(bs, |bs|, key, at) && forall t :: 0 <= t < |at| ==> at[t] < |bs|
  {
    assert Indexes(bs, |bs|, key, if key in byItem then byItem[key] else []);
  }

  /** An addition that finds a removal open is paired, and so is that removal from now on. */
  lemma {:induction false} TakesOpen(candidates: seq<Bullet>, removals: seq<Bullet>, c: nat, same: seq<nat>, t: nat)
    requires c < |candidates| && t < |same| && Indexes(removals, |removals|, candidates[c].key, same)
    requires forall u :: 0 <= u < |same| ==> same[u] < |removals|
    requires !Paired(removals, candidates, c, same[t]) && forall u :: 0 <= u < t ==> Paired(removals, candidates, c, same[u])
    ensures Paired(candidates, removals, |removals|, c)
    ensures forall i :: 0 <= i < |removals| ==>
              (Paired(removals, candidates, c + 1, i) <==> i == same[t] || Paired(removals, candidates, c, i))
  {
    OpenIsNext(candidates, removals, c, same, t);
    forall i | 0 <= i < |removals|
      ensures Paired(removals, candidates, c + 1, i) <==> i == same[t] || Paired(removals, candidates, c, i)
    {
      PairedNext(candidates, removals, c, i, same[t]);
    }
  }

  /** An addition that finds none open stays unpaired, and pairs no removal. */
  lemma {:induction false} TakesNone(candidates: seq<Bullet>, removals: seq<Bullet>, c: nat, same: seq<nat>)
    requires c < |candidates| && Indexes(removals, |removals|, candidates[c].key, same)
    requires forall t :: 0 <= t < |same| ==> same[t] < |removals| && Paired(removals, candidates, c, same[t])
    ensures !Paired(candidates, removals, |removals|, c)
    ensures forall i :: 0 <= i < |removals| ==>
              (Paired(removals, candidates, c + 1, i) <==> Paired(removals, candidates, c, i))
  {
    NoneOpen(candidates, removals, c, same);
    forall i | 0 <= i < |removals|
      ensures Paired(removals, candidates, c + 1, i) <==> Paired(removals, candidates, c, i)
    {
      RankBelow(removals, i, |removals|);
    }
  }

  /** The first open removal of a key is the one whose rank is the number of additions so far. */
  lemma {:induction false} OpenIsNext(candidates: seq<Bullet>, removals: seq<Bullet>, c: nat, same: seq<nat>, t: nat)
    requires c < |candidates| && t < |same| && Indexes(removals, |removals|, candidates[c].key, same)
    requires !Paired(removals, candidates, c, same[t]) && forall u :: 0 <= u < t ==> Paired(removals, candidates, c, same[u])
    ensures t == KeyCount(candidates, c, candidates[c].key)
    ensures Paired(candidates, removals, |removals|, c)
  {
    if t > 0 {
      assert Paired(removals, candidates, c, same[t - 1]);
    }
  }

  lemma {:induction false} NoneOpen(candidates: seq<Bullet>, removals: seq<Bullet>, c: nat, same: seq<nat>)
    requires c < |candidates| && Indexes(removals, |removals|, candidates[c].key, same)
    requires forall t :: 0 <= t < |same| ==> Paired(removals, candidates, c, same[t])
    ensures !Paired(candidates, removals, |removals|, c)
  {
    if |same| > 0 {
      assert Paired(removals, candidates, c, same[|same| - 1]);
    }
  }

  /** One more addition pairs one more removal: the one at its rank. */
  lemma {:induction false} PairedNext(candidates: seq<Bullet>, removals: seq<Bullet>, c: nat, i: nat, next: nat)
    requires c < |candidates| && i < |removals| && next < |removals|
    requires removals[next].key == candidates[c].key
    requires KeyCount(removals, next, removals[next].key) == KeyCount(candidates, c, candidates[c].key)
    ensures Paired(removals, candidates, c + 1, i) <==> Paired(removals, candidates, c, i) || i == next
  {
    if removals[i].key == candidates[c].key && KeyCount(removals, i, removals[i].key) == KeyCount(candidates, c, candidates[c].key) {
      RankIsUnique(removals, i, next);
    }
  }

  /** How many of the first `n` bullets of a key are paired. */
  function PairCount(bs: seq<Bullet>, others: seq<Bullet>, n: nat, key: Key): nat
    requires n <= |bs|
  {
    if n == 0 then 0
    else PairCount(bs, others, n - 1, key) + if bs[n - 1].key == key && Paired(bs, others, |others|, n - 1) then 1 else 0
  }

  /** On either side, as many bullets of a path and text are paired as the smaller side has. */
  lemma {:induction false} PairsAreMinimum(bs: seq<Bullet>, others: seq<Bullet>, n: nat, key: Key)
    requires n <= |bs|
    ensures var mine, theirs := KeyCount(bs, n, key), KeyCount(others, |others|, key);
            PairCount(bs, others, n, key) == if mine <= theirs then mine else theirs
  {
    if n > 0 {
      PairsAreMinimum(bs, others, n - 1, key);
    }
  }

  // ---------------------------------------------------------------- promotion

  /** How many of the first `n` bullets of a hunk are unpaired. */
  function OpenCount(bs: seq<Bullet>, others: seq<Bullet>, n: nat, hunk: Hunk): nat
    requires n <= |bs|
  {
    if n == 0 then 0
    else OpenCount(bs, others, n - 1, hunk) + if bs[n - 1].hunk == hunk && !Paired(bs, others, |others|, n - 1) then 1 else 0
  }

  /** A bullet is new: unpaired, in a hunk that adds no release heading, after as many unpaired ones as it removes. */
  predicate Promotable(candidates: seq<Bullet>, removals: seq<Bullet>, headed: set<Hunk>, i: nat)
    requires i < |candidates|
  {
    var hunk := candidates[i].hunk;
    && !Paired(candidates, removals, |removals|, i) && hunk !in headed
    && OpenCount(candidates, removals, i, hunk) >= OpenCount(removals, candidates, |removals|, hunk)
  }

  function PromotableCount(candidates: seq<Bullet>, removals: seq<Bullet>, headed: set<Hunk>, n: nat, hunk: Hunk): nat
    requires n <= |candidates|
  {
    if n == 0 then 0
    else
      PromotableCount(candidates, removals, headed, n - 1, hunk) +
      if candidates[n - 1].hunk == hunk && Promotable(candidates, removals, headed, n - 1) then 1 else 0
  }

  /** A hunk promotes as many bullets as its unpaired additions exceed its unpaired removals. */
  lemma {:induction false} PromotableIsExcess(candidates: seq<Bullet>, removals: seq<Bullet>, headed: set<Hunk>, n: nat, hunk: Hunk)
    requires n <= |candidates|
    ensures var excess := OpenCount(candidates, removals, n, hunk) - OpenCount(removals, candidates, |removals|, hunk);
            PromotableCount(candidates, removals, headed, n, hunk) == if hunk in headed || excess < 0 then 0 else excess
  {
    if n > 0 {
      PromotableIsExcess(candidates, removals, headed, n - 1, hunk);
    }
  }

  function Lookup(m: map<Hunk, nat>, hunk: Hunk): nat {
    if hunk in m then m[hunk] else 0
  }

  ghost predicate Reported(m: map<string, set<nat>>, path: string, line: nat) {
    path in m && line in m[path]
  }

  /** Bullet `i` is promotable and stands at this line. */
  predicate Reports(candidates: seq<Bullet>, removals: seq<Bullet>, headed: set<Hunk>, i: nat, path: string, line: nat)
    requires i < |candidates|
  {
    Promotable(candidates, removals, headed, i) && candidates[i].key.path == path && candidates[i].lineNumber == line
  }

  predicate SomeReports(candidates: seq<Bullet>, removals: seq<Bullet>, headed: set<Hunk>, n: nat, path: string, line: nat)
    requires n <= |candidates|
  {
    exists i: nat :: i < n && Reports(candidates, removals, headed, i, path, line)
  }

  /** Exactly the promotable bullets among the first `n` are reported, under their path. */
  ghost predicate ReportsFirst(m: map<string, set<nat>>, candidates: seq<Bullet>, removals: seq<Bullet>, headed: set<Hunk>, n: nat)
    requires n <= |candidates|
  {
    forall path: string, line: nat :: Reported(m, path, line) <==> SomeReports(candidates, removals, headed, n, path, line)
  }

  lemma {:induction false} SomeReportsNext(candidates: seq<Bullet>, removals: seq<Bullet>, headed: set<Hunk>, n: nat, path: string, line: nat)
    requires n < |candidates|
    ensures SomeReports(candidates, removals, headed, n + 1, path, line) <==>
            SomeReports(candidates, removals, headed, n, path, line) || Reports(candidates, removals, headed, n, path, line)
  {
    if SomeReports(candidates, removals, headed, n + 1, path, line) {
      var i: nat :| i < n + 1 && Reports(candidates, removals, headed, i, path, line);
      assert i < n || i == n;
    }
  }

  lemma {:induction false} ReportsNext(was: map<string, set<nat>>, now: map<string, set<nat>>, candidates: seq<Bullet>, removals: seq<Bullet>,
                    headed: set<Hunk>, n: nat)
    requires n < |candidates| && ReportsFirst(was, candidates, removals, headed, n)
    requires var c := candidates[n];
             now == if Promotable(candidates, removals, headed, n)
                    then was[c.key.path := (if c.key.path in was then was[c.key.path] else {}) + {c.lineNumber}] else was
    ensures ReportsFirst(now, candidates, removals, headed, n + 1)
  {
    forall path: string, line: nat
      ensures Reported(now, path, line) <==> SomeReports(candidates, removals, headed, n + 1, path, line)
    {
      SomeReportsNext(candidates, removals, headed, n, path, line);
      assert Reported(was, path, line) <==> SomeReports(candidates, removals, headed, n, path, line);
    }
  }

  method CountOpen(candidates: seq<Bullet>, removals: seq<Bullet>, removed: array<bool>) returns (openByHunk: map<Hunk, nat>)
    requires removed.Length == |removals|
    requires forall i :: 0 <= i < |removals| ==> removed[i] == Paired(removals, candidates, |candidates|, i)
    ensures forall hunk :: Lookup(openByHunk, hunk) == OpenCount(removals, candidates, |removals|, hunk)
  {
    openByHunk := map[];
    for i := 0 to |removals|
      invariant forall hunk :: Lookup(openByHunk, hunk) == OpenCount(removals, candidates, i, hunk)
    {
      if removed[i] {
        continue;
      }
      var key := removals[i].hunk;
      openByHunk := openByHunk[key := Lookup(openByHunk, key) + 1];
    }
  }

  method Promote(candidates: seq<Bullet>, removals: seq<Bullet>, headed: set<Hunk>, added: array<bool>, open0: map<Hunk, nat>)
    returns (linesByPath: map<string, set<nat>>)
    requires added.Length == |candidates|
    requires forall i :: 0 <= i < |candidates| ==> added[i] == Paired(candidates, removals, |removals|, i)
    requires forall hunk :: Lookup(open0, hunk) == OpenCount(removals, candidates, |removals|, hunk)
    ensures ReportsFirst(linesByPath, candidates, removals, headed, |candidates|)
  {
    linesByPath := map[];
    var open: map<Hunk, nat> := open0;
    for i := 0 to |candidates|
      invariant ReportsFirst(linesByPath, candidates, removals, headed, i)
      invariant forall hunk :: hunk !in headed ==> Lookup(open, hunk) == Left(candidates, removals, i, hunk)
    {
      var candidate := candidates[i];
      var key := candidate.hunk;
      ghost var was := linesByPath;
      assert !Promotable(candidates, removals, headed, i) ==> ReportsFirst(was, candidates, removals, headed, i + 1) by {
        if !Promotable(candidates, removals, headed, i) {
          ReportsNext(was, was, candidates, removals, headed, i);
        }
      }
      if added[i] || key in headed {
        continue;
      }
      if Lookup(open, key) > 0 {
        open := open[key := Lookup(open, key) - 1];
        continue;
      }
      var existing := if candidate.key.path in linesByPath then linesByPath[candidate.key.path] else {};
      linesByPath := linesByPath[candidate.key.path := existing + {candidate.lineNumber}];
      ReportsNext(was, linesByPath, candidates, removals, headed, i);
    }
  }

  /** The unpaired removals of a hunk that its first unpaired additions have not used up. */
  function Left(candidates: seq<Bullet>, removals: seq<Bullet>, n: nat, hunk: Hunk): nat
    requires n <= |candidates|
  {
    var rest := OpenCount(removals, candidates, |removals|, hunk) - OpenCount(candidates, removals, n, hunk);
    if rest < 0 then 0 else rest
  }

  // ---------------------------------------------------------------- line numbers

  /** Line `k` belongs to the hunk whose header is line `h`. */
  ghost predicate Within(lines: seq<DiffLine>, h: nat, k: nat) {
    && h < k <= |lines| && lines[h].HunkHeader?
    && forall j :: h < j < k ==> !lines[j].HunkHeader? && !lines[j].FileStart?
  }

  /** Lines of the new file; in a hunk, a line that looks like `+++ b/` is an added `++ b/`. */
  function NewLines(lines: seq<DiffLine>, from: nat, to: nat): nat
    requires from <= to <= |lines|
  {
    if from == to then 0
    else NewLines(lines, from, to - 1) + if lines[to - 1].NewSide() || lines[to - 1].NewPath? then 1 else 0
  }

  function PathLines(lines: seq<DiffLine>, from: nat, to: nat): nat
    requires from <= to <= |lines|
  {
    if from == to then 0 else PathLines(lines, from, to - 1) + if lines[to - 1].NewPath? then 1 else 0
  }

  lemma {:induction false} HeaderBefore(lines: seq<DiffLine>, k: nat) returns (h: nat)
    requires k <= |lines| && HunkAt(lines, k) >= 0
    ensures Within(lines, h, k)
  {
    if lines[k - 1].HunkHeader? {
      h := k - 1;
    } else {
      h := HeaderBefore(lines, k - 1);
    }
  }

  /** The scan counts no more than the new lines of the hunk that are not taken for paths, and all if none is. */
  lemma {:induction false} ScanCounts(lines: seq<DiffLine>, h: nat, k: nat)
    requires Within(lines, h, k)
    ensures HunkAt(lines, k) == HunkAt(lines, h) + 1
    ensures LineAt(lines, k) + PathLines(lines, h + 1, k) <= lines[h].start + NewLines(lines, h + 1, k)
    ensures PathLines(lines, h + 1, k) == 0 ==> PathAt(lines, k) == PathAt(lines, h)
    ensures PathLines(lines, h + 1, k) == 0 && PathAt(lines, h) != "" ==>
              LineAt(lines, k) == lines[h].start + NewLines(lines, h + 1, k)
  {
    if h + 1 < k {
      ScanCounts(lines, h, k - 1);
    }
  }

  /**
   A bullet's line number is its line in the new file exactly when no earlier added line of its hunk starts with `++ b/`.
   */
  lemma {:induction false} LineNumberTrue(lines: seq<DiffLine>, h: nat, k: nat)
    requires Within(lines, h, k) && Visible(lines, k)
    ensures LineAt(lines, k) == lines[h].start + NewLines(lines, h + 1, k) <==> PathLines(lines, h + 1, k) == 0
    ensures PathLines(lines, h + 1, k) == 0 ==> PathAt(lines, k) == PathAt(lines, h)
  {
    ScanCounts(lines, h, k);
  }

  /** Such a line: the bullet after it is reported one line early, and under another path. */
  lemma {:induction false} PathLookalike()
    ensures var lines := [NewPath("a"), HunkHeader(7), NewPath("b"), AddedBullet("x")];
            && Added(lines, 4) == [Bullet(Key("b", "x"), Hunk("b", 0), 7)]
            && Within(lines, 1, 3) && PathAt(lines, 1) == "a" && lines[1].start + NewLines(lines, 2, 3) == 8
  {
    var lines := [NewPath("a"), HunkHeader(7), NewPath("b"), AddedBullet("x")];
    assert PathAt(lines, 1) == "a" && HunkAt(lines, 1) == -1;
    assert PathAt(lines, 2) == "a" && HunkAt(lines, 2) == 0 && LineAt(lines, 2) == 7;
    assert PathAt(lines, 3) == "b" && HunkAt(lines, 3) == 0 && LineAt(lines, 3) == 7;
    assert Added(lines, 3) == [];
    assert NewLines(lines, 2, 2) == 0;
  }

  datatype FileLine = Entry(text: string) | NoEntry

  /** `files` are the new versions: the lines of each hunk stand in its file from the hunk's start on. */
  ghost predicate NewVersions(lines: seq<DiffLine>, files: map<string, seq<FileLine>>) {
    forall h: nat, k: nat :: Within(lines, h, k) && k < |lines| && lines[k].AddedBullet? ==>
      var path, line := PathAt(lines, h), lines[h].start + NewLines(lines, h + 1, k);
      path in files && 1 <= line <= |files[path]| && files[path][line - 1] == Entry(lines[k].text)
  }

  /** No added line of a hunk looks like the path of another file. */
  ghost predicate NoLookalikes(lines: seq<DiffLine>) {
    forall k :: 0 <= k < |lines| && lines[k].NewPath? ==> HunkAt(lines, k) == -1
  }

  lemma {:induction false} NoPathLines(lines: seq<DiffLine>, h: nat, k: nat)
    requires Within(lines, h, k) && NoLookalikes(lines)
    ensures PathLines(lines, h + 1, k) == 0
  {
    if h + 1 < k {
      NoPathLines(lines, h, k - 1);
      ScanCounts(lines, h, k - 1);
    }
  }

  /** Every bullet found stands at its line number in the new version of its file. */
  lemma {:induction false} BulletsStandThere(lines: seq<DiffLine>, files: map<string, seq<FileLine>>, n: nat, i: nat)
    requires n <= |lines| && i < |Added(lines, n)| && NewVersions(lines, files) && NoLookalikes(lines)
    ensures var b := Added(lines, n)[i];
            && b.key.path in files && 1 <= b.lineNumber <= |files[b.key.path]|
            && files[b.key.path][b.lineNumber - 1] == Entry(b.key.text)
  {
    hide NewLines, PathLines, NoLookalikes, NewVersions, LineAt, PathAt, HunkAt;
    if i < |Added(lines, n - 1)| {
      BulletsStandThere(lines, files, n - 1, i);
    } else {
      LastStandsThere(lines, files, n - 1);
    }
  }

  lemma {:induction false} LastStandsThere(lines: seq<DiffLine>, files: map<string, seq<FileLine>>, k: nat)
    requires k < |lines| && Visible(lines, k) && lines[k].AddedBullet? && NewVersions(lines, files) && NoLookalikes(lines)
    ensures var path, line := PathAt(lines, k), LineAt(lines, k);
            path in files && 1 <= line <= |files[path]| && files[path][line - 1] == Entry(lines[k].text)
  {
    hide NewLines, PathLines, NoLookalikes;
    var h := HeaderBefore(lines, k);
    NoPathLines(lines, h, k);
    LineNumberTrue(lines, h, k);
  }

  /** Every reported line holds, in the new version of that file, the text of a promotable bullet. */
  lemma {:induction false} ReportedLinesHoldBullets(lines: seq<DiffLine>, files: map<string, seq<FileLine>>, m: map<string, set<nat>>,
                                 path: string, line: nat)
    requires NewVersions(lines, files) && NoLookalikes(lines) && Reported(m, path, line)
    requires ReportsFirst(m, Added(lines, |lines|), Removed(lines, |lines|), Headed(lines, |lines|), |Added(lines, |lines|)|)
    ensures path in files && 1 <= line <= |files[path]| && files[path][line - 1].Entry?
  {
    var candidates, removals, headed := Added(lines, |lines|), Removed(lines, |lines|), Headed(lines, |lines|);
    var i: nat :| i < |candidates| && Reports(candidates, removals, headed, i, path, line);
    BulletsStandThere(lines, files, |lines|, i);
  }
}
