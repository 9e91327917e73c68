/** Which files and names the packages' entry points make public (scripts/cleanup-scan.ts). */
module PublicSurface {
  import opened Prelude

  /** `export { name } from "source"` */
  datatype Reexport = Reexport(name: string, source: string)

  datatype FileInfo = FileInfo(exportStar: seq<string>, namedReexports: seq<Reexport>)

  type Files = map<string, FileInfo>

  /** Where a specifier in a file leads, among the known files. */
  type Resolver = (string, string) -> Option<string>

  function Target(files: Files, resolve: Resolver, rel: string, spec: string): (r: Option<string>)
    ensures forall b :: r == Some(b) <==> resolve(rel, spec) == Some(b) && b in files
  {
    var target := resolve(rel, spec);
    if target.Some? && target.value in files then target else None
  }

  /** `a` has an `export *` from `b`. */
  predicate Stars(files: Files, resolve: Resolver, a: string, b: string) {
    a in files && exists i :: 0 <= i < |files[a].exportStar| && Target(files, resolve, a, files[a].exportStar[i]) == Some(b)
  }

  ghost predicate IsPath(files: Files, resolve: Resolver, p: seq<string>) {
    p != [] && forall i :: 0 <= i < |p| - 1 ==> Stars(files, resolve, p[i], p[i + 1])
  }

  /** A chain of `export *` leads from an entry point to `x`. */
  ghost predicate Reached(files: Files, resolve: Resolver, entries: set<string>, x: string) {
    exists p :: IsPath(files, resolve, p) && p[0] in entries && p[|p| - 1] == x
  }

  /** `a` makes `name` of `b` public. */
  predicate Names(files: Files, resolve: Resolver, a: string, b: string, name: string) {
    a in files && exists i :: 0 <= i < |files[a].namedReexports| && files[a].namedReexports[i].name == name &&
                            Target(files, resolve, a, files[a].namedReexports[i].source) == Some(b)
  }

  predicate Recorded(names: map<string, set<string>>, b: string, name: string) {
    b in names && name in names[b]
  }

  lemma {:induction false} EntryReached(files: Files, resolve: Resolver, entries: set<string>, x: string)
    requires x in entries
    ensures Reached(files, resolve, entries, x)
  {
    assert IsPath(files, resolve, [x]) && [x][|[x]| - 1] == x;
  }

  lemma {:induction false} StarReached(files: Files, resolve: Resolver, entries: set<string>, x: string, y: string)
    requires Reached(files, resolve, entries, x) && Stars(files, resolve, x, y)
    ensures Reached(files, resolve, entries, y)
  {
    var p :| IsPath(files, resolve, p) && p[0] in entries && p[|p| - 1] == x;
    var q := p + [y];
    forall i | 0 <= i < |q| - 1 ensures Stars(files, resolve, q[i], q[i + 1]) {
      assert q[i] == p[i] && (i + 1 < |p| ==> q[i + 1] == p[i + 1]);
    }
    assert IsPath(files, resolve, q) && q[|q| - 1] == y;
  }

  /** Whatever holds the entry points and is closed under `export *` holds all that is reached. */
  lemma {:induction false} ClosedHolds(files: Files, resolve: Resolver, entries: set<string>, held: set<string>, x: string)
    requires entries <= held && Reached(files, resolve, entries, x)
    requires forall a, b :: a in held && Stars(files, resolve, a, b) ==> b in held
    ensures x in held
  {
    var p :| IsPath(files, resolve, p) && p[0] in entries && p[|p| - 1] == x;
    for i := 1 to |p|
      invariant p[i - 1] in held
    {
      assert Stars(files, resolve, p[i - 1], p[i - 1 + 1]);
    }
  }

  // ---------------------------------------------------------------- the worklist

  /** Every file on the list is known and reached; files done have their targets done or on the list. */
  ghost predicate Working(files: Files, resolve: Resolver, entries: set<string>, done: set<string>, queue: seq<string>) {
    && entries <= done + SetOf(queue) && done <= files.Keys && SetOf(queue) <= files.Keys
    && (forall x :: x in done || x in queue ==> Reached(files, resolve, entries, x))
    && forall a, b :: a in done && Stars(files, resolve, a, b) ==> b in done || b in queue
  }

  /** The names recorded are those that the files done re-export. */
  ghost predicate Naming(files: Files, resolve: Resolver, done: set<string>, names: map<string, set<string>>) {
    forall b, name :: Recorded(names, b, name) <==> exists a :: a in done && Names(files, resolve, a, b, name)
  }

  /**
   The barrel-public files are exactly those that the entry points reach through `export *`, and the names made public
   are exactly the named re-exports of those files, whatever the order of packages and entries.
   */
  method ComputePublicSurface(files: Files, resolve: Resolver, packages: seq<seq<string>>)
    returns (barrelFiles: set<string>, barrelNames: map<string, set<string>>)
    requires forall i, x :: 0 <= i < |packages| && x in packages[i] ==> x in files
    ensures forall x :: x in barrelFiles <==> Reached(files, resolve, Entries(packages, |packages|), x)
    ensures Naming(files, resolve, barrelFiles, barrelNames)
  {
    barrelFiles, barrelNames := {}, map[];
    for i := 0 to |packages|
      invariant Working(files, resolve, Entries(packages, i), barrelFiles, [])
      invariant Naming(files, resolve, barrelFiles, barrelNames)
    {
      MoreEntries(files, resolve, packages, i, barrelFiles);
      barrelFiles, barrelNames := Close(files, resolve, Entries(packages, i + 1), packages[i], barrelFiles, barrelNames);
    }
    forall x ensures x in barrelFiles <==> Reached(files, resolve, Entries(packages, |packages|), x) {
      if Reached(files, resolve, Entries(packages, |packages|), x) {
        ClosedHolds(files, resolve, Entries(packages, |packages|), barrelFiles, x);
      }
    }
  }

  /** The entry points of the first `n` packages. */
  function Entries(packages: seq<seq<string>>, n: nat): set<string>
    requires n <= |packages|
  {
    if n == 0 then {} else Entries(packages, n - 1) + SetOf(packages[n - 1])
  }

  lemma {:induction false} EntriesAre(packages: seq<seq<string>>, n: nat, x: string)
    requires n <= |packages|
    ensures x in Entries(packages, n) <==> exists i :: 0 <= i < n && x in packages[i]
  {
    if n > 0 {
      EntriesAre(packages, n - 1, x);
    }
  }

  lemma {:induction false} MoreEntries(files: Files, resolve: Resolver, packages: seq<seq<string>>, i: nat, done: set<string>)
    requires i < |packages| && (forall x :: x in packages[i] ==> x in files)
    requires Working(files, resolve, Entries(packages, i), done, [])
    ensures Working(files, resolve, Entries(packages, i + 1), done, packages[i])
  {
    var before, now := Entries(packages, i), Entries(packages, i + 1);
    forall x | x in done || x in packages[i] ensures Reached(files, resolve, now, x) {
      if x in packages[i] {
        EntryReached(files, resolve, now, x);
      } else {
        var p :| IsPath(files, resolve, p) && p[0] in before && p[|p| - 1] == x;
      }
    }
  }

  method Close(files: Files, resolve: Resolver, ghost entries: set<string>, queue0: seq<string>, done0: set<string>,
               names0: map<string, set<string>>)
    returns (done: set<string>, names: map<string, set<string>>)
    requires Working(files, resolve, entries, done0, queue0) && Naming(files, resolve, done0, names0)
    ensures Working(files, resolve, entries, done, []) && Naming(files, resolve, done, names)
  {
    done, names := done0, names0;
    var queue := queue0;
    while queue != []
      invariant Working(files, resolve, entries, done, queue) && Naming(files, resolve, done, names)
      decreases files.Keys - done, |queue|
    {
      var rel := queue[|queue| - 1];
      assert queue == queue[..|queue| - 1] + [rel];
      assert rel in queue;
      ghost var was := queue;
      queue := queue[..|queue| - 1];
      if rel in done {
        assert SetOf(was) == SetOf(queue) + {rel};
        continue;
      }
      var more := StarTargets(files, resolve, rel);
      Popped(files, resolve, entries, done, was, rel, more);
      done := done + {rel};
      queue := queue + more;
      names := RecordNames(files, resolve, done - {rel}, rel, names);
      assert done - {rel} + {rel} == done;
    }
  }

  lemma {:induction false} Popped(files: Files, resolve: Resolver, entries: set<string>, done: set<string>, queue: seq<string>,
                                  rel: string, more: seq<string>)
    requires Working(files, resolve, entries, done, queue) && queue != [] && queue[|queue| - 1] == rel
    requires forall b :: b in more <==> Stars(files, resolve, rel, b)
    ensures Working(files, resolve, entries, done + {rel}, queue[..|queue| - 1] + more)
  {
    var rest := queue[..|queue| - 1] + more;
    assert queue == queue[..|queue| - 1] + [rel];
    forall x | x in done + {rel} || x in rest ensures Reached(files, resolve, entries, x) && x in files {
      if x in more {
        assert rel in queue;
        StarReached(files, resolve, entries, rel, x);
      } else {
        assert x in done || x in queue;
      }
    }
  }

  method StarTargets(files: Files, resolve: Resolver, rel: string) returns (more: seq<string>)
    requires rel in files
    ensures forall b :: b in more <==> Stars(files, resolve, rel, b)
  {
    more := [];
    var specs := files[rel].exportStar;
    for i := 0 to |specs|
      invariant forall b :: b in more <==> exists k :: 0 <= k < i && Target(files, resolve, rel, specs[k]) == Some(b)
    {
      var target := Target(files, resolve, rel, specs[i]);
      if target.Some? {
        more := more + [target.value];
      }
    }
  }

  method RecordNames(files: Files, resolve: Resolver, ghost done: set<string>, rel: string, names0: map<string, set<string>>)
    returns (names: map<string, set<string>>)
    requires rel in files && Naming(files, resolve, done, names0)
    ensures Naming(files, resolve, done + {rel}, names)
  {
    names := names0;
    var res := files[rel].namedReexports;
    hide Naming, Recorded, NamedBefore;
    NoneNamed(files, resolve, rel, names0);
    for i := 0 to |res|
      invariant RecordedTo(files, resolve, rel, names0, names, i)
    {
      var target := Target(files, resolve, rel, res[i].source);
      RecordNext(files, resolve, rel, names0, names, i);
      if target.Some? {
        names := Record(names, target.value, res[i].name);
      }
    }
    AllRecorded(files, resolve, done, rel, names0, names);
  }

  function Record(names: map<string, set<string>>, b: string, name: string): map<string, set<string>> {
    names[b := (if b in names then names[b] else {}) + {name}]
  }

  /** One of the first `n` named re-exports of `rel` makes `name` of `b` public. */
  predicate NamedBefore(files: Files, resolve: Resolver, rel: string, n: nat, b: string, name: string)
    requires rel in files && n <= |files[rel].namedReexports|
  {
    var res := files[rel].namedReexports;
    exists k :: 0 <= k < n && res[k].name == name && Target(files, resolve, rel, res[k].source) == Some(b)
  }

  ghost predicate RecordedTo(files: Files, resolve: Resolver, rel: string, names0: map<string, set<string>>,
                             names: map<string, set<string>>, n: nat)
    requires rel in files && n <= |files[rel].namedReexports|
  {
    forall b, name :: Recorded(names, b, name) <==> Recorded(names0, b, name) || NamedBefore(files, resolve, rel, n, b, name)
  }

  lemma {:induction false} NoneNamed(files: Files, resolve: Resolver, rel: string, names0: map<string, set<string>>)
    requires rel in files
    ensures RecordedTo(files, resolve, rel, names0, names0, 0)
  {
  }

  lemma {:induction false} RecordNext(files: Files, resolve: Resolver, rel: string, names0: map<string, set<string>>,
                                      names: map<string, set<string>>, i: nat)
    requires rel in files && i < |files[rel].namedReexports| && RecordedTo(files, resolve, rel, names0, names, i)
    ensures var one := files[rel].namedReexports[i];
            var target := Target(files, resolve, rel, one.source);
            RecordedTo(files, resolve, rel, names0, if target.Some? then Record(names, target.value, one.name) else names, i + 1)
  {
    var one := files[rel].namedReexports[i];
    var target := Target(files, resolve, rel, one.source);
    var now := if target.Some? then Record(names, target.value, one.name) else names;
    forall b, name
      ensures Recorded(now, b, name) <==> Recorded(names0, b, name) || NamedBefore(files, resolve, rel, i + 1, b, name)
    {
      NamedNext(files, resolve, rel, i, b, name);
      assert Recorded(now, b, name) <==> Recorded(names, b, name) || (target == Some(b) && one.name == name);
    }
  }

  lemma {:induction false} NamedNext(files: Files, resolve: Resolver, rel: string, i: nat, b: string, name: string)
    requires rel in files && i < |files[rel].namedReexports|
    ensures var one := files[rel].namedReexports[i];
            NamedBefore(files, resolve, rel, i + 1, b, name) <==>
            NamedBefore(files, resolve, rel, i, b, name) ||
            (one.name == name && Target(files, resolve, rel, one.source) == Some(b))
  {
  }

  lemma {:induction false} AllRecorded(files: Files, resolve: Resolver, done: set<string>, rel: string,
                                       names0: map<string, set<string>>, names: map<string, set<string>>)
    requires rel in files && Naming(files, resolve, done, names0)
    requires RecordedTo(files, resolve, rel, names0, names, |files[rel].namedReexports|)
    ensures Naming(files, resolve, done + {rel}, names)
  {
    hide Recorded, Target;
    forall b, name ensures Recorded(names, b, name) <==> exists a :: a in done + {rel} && Names(files, resolve, a, b, name) {
      assert NamedBefore(files, resolve, rel, |files[rel].namedReexports|, b, name) <==> Names(files, resolve, rel, b, name);
      if Names(files, resolve, rel, b, name) {
        assert rel in done + {rel};
      }
    }
  }
}
