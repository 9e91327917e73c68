/** Window positions of the clone detector (scripts/cleanup-scan.ts), and which of them belong together. */
module CloneWindows {
  import opened Prelude
  import opened UnionFind

  const WINDOW := 7
  const POS := 0x100_0000

  /** A significant line: its normalized text and its line number in the file. */
  datatype Line = Line(text: string, number: nat)

  /** Significant lines, file by file. */
  type Sig = seq<seq<Line>>

  /** Window hash of the normalized texts; nothing is known about it. */
  type Hasher = seq<string> -> int

  /** Positions of different files do not overlap in the encoding `file * POS + index`. */
  ghost predicate Fits(sig: Sig) {
    forall f :: 0 <= f < |sig| ==> |sig[f]| <= POS
  }

  predicate IsWindow(sig: Sig, p: nat) {
    p / POS < |sig| && p % POS + WINDOW <= |sig[p / POS]|
  }

  function Texts(lines: seq<Line>): seq<string> {
    if lines == [] then [] else [lines[0].text] + Texts(lines[1..])
  }

  /** The hash of the window at each position, None where no window starts. */
  type Keying = nat -> Option<int>

  function WindowKey(sig: Sig, hash: Hasher, p: nat): Option<int> {
    if IsWindow(sig, p) then Some(hash(Texts(sig[p / POS][p % POS..p % POS + WINDOW]))) else None
  }

  ghost function Keys(sig: Sig, hash: Hasher): Keying {
    (p: nat) => WindowKey(sig, hash, p)
  }

  predicate Increasing(list: seq<nat>) {
    forall i, j :: 0 <= i < j < |list| ==> list[i] < list[j]
  }

  // ---------------------------------------------------------------- buckets

  type Buckets = map<int, seq<nat>>

  ghost predicate BucketOk(key: Keying, list: seq<nat>, h: int, limit: nat) {
    list != [] && Increasing(list) && forall i :: 0 <= i < |list| ==> list[i] < limit && key(list[i]) == Some(h)
  }

  /** The buckets hold exactly the windows below `limit`, each under its hash, in order of position. */
  ghost predicate BucketsOk(key: Keying, buckets: Buckets, limit: nat) {
    && (forall h :: h in buckets ==> BucketOk(key, buckets[h], h, limit))
    && (forall p: nat :: p < limit && key(p).Some? ==> InBucket(buckets, key(p).value, p))
  }

  predicate InBucket(buckets: Buckets, h: int, p: nat) {
    h in buckets && p in buckets[h]
  }

  ghost predicate KeysInOrder(order: seq<int>, buckets: Buckets) {
    (forall i, j :: 0 <= i < j < |order| ==> order[i] != order[j]) && forall h :: h in order <==> h in buckets
  }

  function Push(buckets: Buckets, h: int, p: nat): Buckets {
    buckets[h := (if h in buckets then buckets[h] else []) + [p]]
  }

  lemma {:induction false} AddWindow(key: Keying, buckets: Buckets, h: int, p: nat)
    requires BucketsOk(key, buckets, p) && key(p) == Some(h)
    ensures BucketsOk(key, Push(buckets, h, p), p + 1)
  {
    var list := if h in buckets then buckets[h] else [];
    var after := Push(buckets, h, p);
    assert after[h] == list + [p] && after[h][|list|] == p;
    forall k | k in after ensures BucketOk(key, after[k], k, p + 1) {
      if k in buckets {
        assert BucketOk(key, buckets[k], k, p);
      }
    }
    forall q: nat | q < p + 1 && key(q).Some? ensures InBucket(after, key(q).value, q) {
      if q < p {
        assert InBucket(buckets, key(q).value, q);
      }
    }
  }

  lemma {:induction false} KeyAt(sig: Sig, hash: Hasher, f: nat, i: nat)
    requires Fits(sig) && f < |sig| && i + WINDOW <= |sig[f]|
    ensures Keys(sig, hash)(f * POS + i) == Some(hash(Texts(sig[f][i..i + WINDOW])))
  {
    assert (f * POS + i) / POS == f && (f * POS + i) % POS == i;
  }

  /** No window starts after the last one of a file. */
  lemma {:induction false} SkipToNextFile(sig: Sig, hash: Hasher, buckets: Buckets, f: nat, i: nat)
    requires Fits(sig) && f < |sig| && i <= POS && i + WINDOW > |sig[f]|
    requires BucketsOk(Keys(sig, hash), buckets, f * POS + i)
    ensures BucketsOk(Keys(sig, hash), buckets, (f + 1) * POS)
  {
    var key := Keys(sig, hash);
    forall p: nat | f * POS + i <= p < (f + 1) * POS ensures key(p).None? {
      assert p / POS == f && p % POS >= i;
    }
    forall h | h in buckets ensures BucketOk(key, buckets[h], h, (f + 1) * POS) {
      assert BucketOk(key, buckets[h], h, f * POS + i);
    }
  }

  method BuildBuckets(sig: Sig, hash: Hasher) returns (order: seq<int>, buckets: Buckets)
    requires Fits(sig)
    ensures BucketsOk(Keys(sig, hash), buckets, |sig| * POS) && KeysInOrder(order, buckets)
  {
    order, buckets := [], map[];
    for f := 0 to |sig|
      invariant BucketsOk(Keys(sig, hash), buckets, f * POS) && KeysInOrder(order, buckets)
    {
      var i := 0;
      while i + WINDOW <= |sig[f]|
        invariant i <= |sig[f]| <= POS
        invariant BucketsOk(Keys(sig, hash), buckets, f * POS + i) && KeysInOrder(order, buckets)
      {
        var p := f * POS + i;
        var h := hash(Texts(sig[f][i..i + WINDOW]));
        KeyAt(sig, hash, f, i);
        AddWindow(Keys(sig, hash), buckets, h, p);
        if h !in buckets {
          order := order + [h];
        }
        buckets := Push(buckets, h, p);
        i := i + 1;
      }
      SkipToNextFile(sig, hash, buckets, f, i);
    }
  }

  ghost predicate Bounded(key: Keying, limit: nat) {
    forall p: nat :: key(p).Some? ==> p < limit
  }

  // ---------------------------------------------------------------- matching

  /** Some other window has the same hash. */
  ghost predicate Matched(key: Keying, p: nat) {
    key(p).Some? && exists q: nat :: q != p && key(q) == key(p)
  }

  /** Matched windows belong together when they have the same hash or are adjacent. */
  ghost predicate Related(key: Keying, p: nat, q: nat) {
    Matched(key, p) && Matched(key, q) && (key(p) == key(q) || q == p + 1 || p == q + 1)
  }

  /** The graph of `Related`, all windows being below `limit`. */
  ghost function Relation(key: Keying, limit: nat): Edges {
    set p: nat, q: nat | p < limit && q < limit && Related(key, p, q) :: (p, q)
  }

  lemma {:induction false} BucketMatched(key: Keying, buckets: Buckets, limit: nat, h: int, i: nat)
    requires BucketsOk(key, buckets, limit) && Bounded(key, limit) && h in buckets && i < |buckets[h]|
    ensures Matched(key, buckets[h][i]) <==> |buckets[h]| >= 2
    ensures key(buckets[h][i]) == Some(h)
  {
    var list := buckets[h];
    assert BucketOk(key, list, h, limit);
    var p := list[i];
    if |list| >= 2 {
      var k := if i == 0 then 1 else 0;
      assert list[k] != p && key(list[k]) == key(p);
    }
    if Matched(key, p) {
      var q: nat :| q != p && key(q) == Some(h);
      assert InBucket(buckets, h, q);
    }
  }

  /** Everything done so far is sound: only matched windows are collected, and only related ones are joined. */
  ghost predicate Sound(key: Keying, matched: seq<nat>, edges: Edges) {
    && Distinct(matched)
    && (forall p :: p in matched ==> Matched(key, p))
    && forall p: nat, q: nat :: (p, q) in edges ==> Related(key, p, q)
  }

  /** Every member of the bucket is collected and joined to its first member. */
  ghost predicate BucketDone(list: seq<nat>, matched: seq<nat>, edges: Edges) {
    forall i :: 0 <= i < |list| ==> list[i] in matched && (list[0], list[i]) in edges
  }

  ghost predicate BucketsDone(order: seq<int>, buckets: Buckets, n: nat, matched: seq<nat>, edges: Edges) {
    forall k :: 0 <= k < n && k < |order| && order[k] in buckets && |buckets[order[k]]| >= 2 ==>
                  BucketDone(buckets[order[k]], matched, edges)
  }

  /** Collect the windows of every bucket with at least two, and join each to the bucket's first window. */
  method MatchBuckets(ghost key: Keying, ghost limit: nat, order: seq<int>, buckets: Buckets)
    returns (uf: UnionFind, matched: seq<nat>)
    requires BucketsOk(key, buckets, limit) && Bounded(key, limit) && KeysInOrder(order, buckets)
    ensures fresh(uf) && uf.Valid()
    ensures Sound(key, matched, uf.edges) && BucketsDone(order, buckets, |order|, matched, uf.edges)
  {
    uf := new UnionFind();
    matched := [];
    for k := 0 to |order|
      invariant fresh(uf) && uf.Valid()
      invariant Sound(key, matched, uf.edges) && BucketsDone(order, buckets, k, matched, uf.edges)
    {
      var h := order[k];
      assert h in order;
      if |buckets[h]| >= 2 {
        matched := JoinBucket(key, limit, buckets, h, uf, matched);
      }
    }
  }

  method JoinBucket(ghost key: Keying, ghost limit: nat, buckets: Buckets, h: int, uf: UnionFind, before: seq<nat>)
    returns (matched: seq<nat>)
    requires BucketsOk(key, buckets, limit) && Bounded(key, limit)
    requires h in buckets && |buckets[h]| >= 2
    requires uf.Valid() && Sound(key, before, uf.edges)
    modifies uf
    ensures uf.Valid() && Sound(key, matched, uf.edges) && BucketDone(buckets[h], matched, uf.edges)
    ensures old(uf.edges) <= uf.edges && forall p :: p in before ==> p in matched
  {
    var list := buckets[h];
    matched := before;
    hide *;
    NoneJoined(list, before, uf.edges);
    for i := 0 to |list|
      invariant uf.Valid() && Sound(key, matched, uf.edges)
      invariant PartDone(list, i, before, old(uf.edges), matched, uf.edges)
    {
      BucketRelated(key, buckets, limit, h, i);
      JoinNext(key, list, i, before, old(uf.edges), matched, uf.edges);
      if list[i] !in matched {
        matched := matched + [list[i]];
      }
      uf.Union(list[0], list[i]);
    }
    AllJoined(list, before, old(uf.edges), matched, uf.edges);
  }

  /** The first `n` windows of a bucket have been added to `before` and joined to the first. */
  ghost predicate PartDone(list: seq<nat>, n: nat, before: seq<nat>, edges0: Edges, matched: seq<nat>, edges: Edges) {
    && edges0 <= edges && (forall p :: p in before ==> p in matched)
    && forall m :: 0 <= m < n && m < |list| ==> list[m] in matched && (list[0], list[m]) in edges
  }

  lemma {:induction false} NoneJoined(list: seq<nat>, before: seq<nat>, edges: Edges)
    ensures PartDone(list, 0, before, edges, before, edges)
  {
  }

  lemma {:induction false} AllJoined(list: seq<nat>, before: seq<nat>, edges0: Edges, matched: seq<nat>, edges: Edges)
    requires PartDone(list, |list|, before, edges0, matched, edges)
    ensures BucketDone(list, matched, edges) && edges0 <= edges && forall p :: p in before ==> p in matched
  {
  }

  lemma {:induction false} BucketRelated(key: Keying, buckets: Buckets, limit: nat, h: int, i: nat)
    requires BucketsOk(key, buckets, limit) && Bounded(key, limit) && h in buckets && i < |buckets[h]| && |buckets[h]| >= 2
    ensures Matched(key, buckets[h][i]) && Related(key, buckets[h][0], buckets[h][i])
  {
    BucketMatched(key, buckets, limit, h, 0);
    BucketMatched(key, buckets, limit, h, i);
  }

  lemma {:induction false} JoinNext(key: Keying, list: seq<nat>, i: nat, before: seq<nat>, edges0: Edges, matched: seq<nat>, edges: Edges)
    requires i < |list| && PartDone(list, i, before, edges0, matched, edges) && Sound(key, matched, edges)
    requires Matched(key, list[i]) && Related(key, list[0], list[i])
    ensures var now := if list[i] in matched then matched else matched + [list[i]];
            var more := edges + {(list[0], list[i])};
            Sound(key, now, more) && PartDone(list, i + 1, before, edges0, now, more)
  {
    hide Matched, Related;
    var now := if list[i] in matched then matched else matched + [list[i]];
    assert forall p :: p in now <==> p in matched || p == list[i];
  }

  /** Join adjacent matched windows. */
  method JoinAdjacent(ghost key: Keying, uf: UnionFind, matched: seq<nat>)
    requires uf.Valid() && Sound(key, matched, uf.edges)
    modifies uf
    ensures uf.Valid() && Sound(key, matched, uf.edges) && old(uf.edges) <= uf.edges
    ensures forall p :: p in matched && p + 1 in matched ==> (p, p + 1) in uf.edges
  {
    for i := 0 to |matched|
      invariant uf.Valid() && Sound(key, matched, uf.edges) && old(uf.edges) <= uf.edges
      invariant forall m :: 0 <= m < i && matched[m] + 1 in matched ==> (matched[m], matched[m] + 1) in uf.edges
    {
      if matched[i] + 1 in matched {
        uf.Union(matched[i], matched[i] + 1);
      }
    }
  }

  /** The unions made connect exactly what `Related` connects. */
  lemma {:induction false} SameComponents(key: Keying, limit: nat, order: seq<int>, buckets: Buckets, matched: seq<nat>, edges: Edges, x: nat, y: nat)
    requires BucketsOk(key, buckets, limit) && Bounded(key, limit) && KeysInOrder(order, buckets)
    requires Sound(key, matched, edges) && BucketsDone(order, buckets, |order|, matched, edges)
    requires forall p :: p in matched && p + 1 in matched ==> (p, p + 1) in edges
    ensures Connected(edges, x, y) <==> Connected(Relation(key, limit), x, y)
    ensures forall p: nat :: p in matched <==> Matched(key, p)
  {
    forall p: nat | Matched(key, p) ensures p in matched {
      JoinedToFirst(key, limit, order, buckets, matched, edges, p);
    }
    if Connected(edges, x, y) {
      forall e | e in edges ensures e in Relation(key, limit) {
        assert Related(key, e.0, e.1);
      }
    }
    if Connected(Relation(key, limit), x, y) {
      forall p: nat, q: nat | (p, q) in Relation(key, limit) ensures Connected(edges, p, q) {
        RelatedConnected(key, limit, order, buckets, matched, edges, p, q);
      }
      var path :| IsPath(Relation(key, limit), path) && path[0] == x && path[|path| - 1] == y;
      ConnectedVia(Relation(key, limit), edges, path);
    }
  }

  lemma {:induction false} JoinedToFirst(key: Keying, limit: nat, order: seq<int>, buckets: Buckets, matched: seq<nat>, edges: Edges, p: nat)
    requires BucketsOk(key, buckets, limit) && Bounded(key, limit) && KeysInOrder(order, buckets)
    requires BucketsDone(order, buckets, |order|, matched, edges) && Matched(key, p)
    ensures var h := key(p).value;
            h in buckets && buckets[h] != [] && p in matched && (buckets[h][0], p) in edges
  {
    var h := key(p).value;
    var k :| 0 <= k < |order| && order[k] == h;
    assert BucketDone(buckets[h], matched, edges);
  }

  lemma {:induction false} RelatedConnected(key: Keying, limit: nat, order: seq<int>, buckets: Buckets, matched: seq<nat>, edges: Edges, p: nat, q: nat)
    requires BucketsOk(key, buckets, limit) && Bounded(key, limit) && KeysInOrder(order, buckets)
    requires BucketsDone(order, buckets, |order|, matched, edges) && Related(key, p, q)
    requires forall p :: p in matched && p + 1 in matched ==> (p, p + 1) in edges
    ensures Connected(edges, p, q)
  {
    JoinedToFirst(key, limit, order, buckets, matched, edges, p);
    JoinedToFirst(key, limit, order, buckets, matched, edges, q);
    if key(p) == key(q) {
      var first := buckets[key(p).value][0];
      ConnectedEdge(edges, p, first);
      ConnectedEdge(edges, first, q);
      ConnectedTrans(edges, p, first, q);
    } else {
      ConnectedEdge(edges, p, q);
    }
  }

  // ---------------------------------------------------------------- clusters

  /** Clusters hold the first `n` matched windows, each with all those connected to it so far, and nothing else. */
  ghost predicate ClustersOk(rep: nat -> nat, matched: seq<nat>, n: nat, clusters: Buckets)
    requires n <= |matched|
  {
    && (forall r :: r in clusters ==> r >= 0 && clusters[r] != [] && Distinct(clusters[r]))
    && (forall r, p :: r in clusters && p in clusters[r] ==> p in matched[..n] && rep(p) == r)
    && (forall p :: p in matched[..n] ==> rep(p) in clusters && p in clusters[rep(p)])
  }

  lemma {:induction false} AddToCluster(rep: nat -> nat, matched: seq<nat>, n: nat, clusters: Buckets)
    requires n < |matched| && Distinct(matched) && ClustersOk(rep, matched, n, clusters)
    ensures ClustersOk(rep, matched, n + 1, Push(clusters, rep(matched[n]), matched[n]))
  {
    var p := matched[n];
    var list := if rep(p) in clusters then clusters[rep(p)] else [];
    var after := Push(clusters, rep(p), p);
    assert matched[..n + 1] == matched[..n] + [p];
    assert p !in matched[..n];
    assert after[rep(p)] == list + [p];
    assert p in after[rep(p)] by {
      assert after[rep(p)][|list|] == p;
    }
  }

  method BuildClusters(uf: UnionFind, matched: seq<nat>) returns (order: seq<int>, clusters: Buckets)
    requires uf.Valid() && Distinct(matched)
    modifies uf`parent
    ensures uf.Valid() && KeysInOrder(order, clusters) && ClustersOk(uf.rep, matched, |matched|, clusters)
  {
    order, clusters := [], map[];
    for i := 0 to |matched|
      invariant uf.Valid() && KeysInOrder(order, clusters) && ClustersOk(uf.rep, matched, i, clusters)
    {
      var root := uf.Find(matched[i]);
      AddToCluster(uf.rep, matched, i, clusters);
      if root !in clusters {
        order := order + [root];
      }
      clusters := Push(clusters, root, matched[i]);
    }
  }

  /** The classes: every matched window is in exactly one, and two share one exactly when `Related` connects them. */
  ghost predicate IsPartition(key: Keying, limit: nat, classes: seq<seq<nat>>) {
    && (forall c :: 0 <= c < |classes| ==> classes[c] != [] && Distinct(classes[c]))
    && (forall c, p :: 0 <= c < |classes| && p in classes[c] ==> Matched(key, p))
    && (forall p: nat :: Matched(key, p) ==> exists c :: 0 <= c < |classes| && p in classes[c])
    && (forall c, d, p, q :: 0 <= c < |classes| && 0 <= d < |classes| && p in classes[c] && q in classes[d] ==>
          (c == d <==> Connected(Relation(key, limit), p, q)))
  }

  /** `clusters.values()` in insertion order. */
  function Values(order: seq<int>, clusters: Buckets): (r: seq<seq<nat>>)
    requires forall k :: 0 <= k < |order| ==> order[k] in clusters
    ensures |r| == |order| && forall k :: 0 <= k < |order| ==> r[k] == clusters[order[k]]
  {
    if order == [] then [] else [clusters[order[0]]] + Values(order[1..], clusters)
  }

  /** Clusters are exactly the connected components of "same hash, or adjacent" among the matched windows. */
  method FindClasses(sig: Sig, hash: Hasher) returns (classes: seq<seq<nat>>)
    requires Fits(sig)
    ensures IsPartition(Keys(sig, hash), |sig| * POS, classes)
  {
    ghost var key, limit := Keys(sig, hash), |sig| * POS;
    var order, buckets := BuildBuckets(sig, hash);
    hide Keys, BucketsOk, KeysInOrder, IsPartition;
    var uf, matched := MatchBuckets(key, limit, order, buckets);
    JoinAdjacent(key, uf, matched);
    ghost var edges := uf.edges;
    forall x: nat, y: nat ensures uf.rep(x) == uf.rep(y) <==> Connected(Relation(key, limit), x, y) {
      SameComponents(key, limit, order, buckets, matched, edges, x, y);
    }
    SameComponents(key, limit, order, buckets, matched, edges, 0, 0);
    var roots, clusters := BuildClusters(uf, matched);
    assert forall k :: 0 <= k < |roots| ==> roots[k] in roots;
    classes := Values(roots, clusters);
    ClassesPartition(key, limit, uf.rep, matched, roots, clusters, classes);
  }

  lemma {:induction false} ClassesPartition(key: Keying, limit: nat, rep: nat -> nat, matched: seq<nat>, roots: seq<int>, clusters: Buckets,
                         classes: seq<seq<nat>>)
    requires KeysInOrder(roots, clusters) && ClustersOk(rep, matched, |matched|, clusters)
    requires |classes| == |roots| && forall k :: 0 <= k < |roots| ==> roots[k] in clusters && classes[k] == clusters[roots[k]]
    requires forall p: nat :: p in matched <==> Matched(key, p)
    requires forall x: nat, y: nat :: rep(x) == rep(y) <==> Connected(Relation(key, limit), x, y)
    ensures IsPartition(key, limit, classes)
  {
    assert matched[..|matched|] == matched;
    forall p: nat | Matched(key, p) ensures exists c :: 0 <= c < |classes| && p in classes[c] {
      assert p in matched && rep(p) in roots;
      var c :| 0 <= c < |roots| && roots[c] == rep(p);
      assert p in classes[c];
    }
  }
}
