/** Why a promoted entry stands in [Unreleased] exactly once (scripts/fix-changelogs.ts). */
module ChangelogOnce {
  import opened Prelude
  import opened LineSplit
  import opened ChangelogDocument
  import opened ChangelogItems
  import opened ChangelogKeys
  import opened ChangelogNormalize
  import opened ChangelogMoves
  import opened ChangelogPromote
  import opened ChangelogFix
  import opened ChangelogConservation

  /** How often an entry stands under a title, in the first `n` subsections. */
  function Count(subs: seq<Sub>, n: nat, title: string, key: Key): nat
    requires n <= |subs|
  {
    if n == 0 then 0
    else Count(subs, n - 1, title, key) + if subs[n - 1].title == title then multiset(Keys(Texts(subs[n - 1].lines)))[key] else 0
  }

  lemma {:induction false} CountSame(a: seq<Sub>, b: seq<Sub>, n: nat, title: string, key: Key)
    requires n <= |a| && n <= |b| && forall i :: 0 <= i < n ==> a[i] == b[i]
    ensures Count(a, n, title, key) == Count(b, n, title, key)
  {
    if n > 0 {
      CountSame(a, b, n - 1, title, key);
    }
  }

  lemma {:induction false} CountHas(subs: seq<Sub>, n: nat, k: nat, key: Key)
    requires k < n <= |subs| && key in Keys(Texts(subs[k].lines))
    ensures Count(subs, n, subs[k].title, key) > 0
  {
    if k < n - 1 {
      CountHas(subs, n - 1, k, key);
    }
  }

  lemma {:induction false} CountNone(subs: seq<Sub>, n: nat, title: string, key: Key)
    requires n <= |subs| && forall k :: 0 <= k < n ==> key !in Keys(Texts(subs[k].lines))
    ensures Count(subs, n, title, key) == 0
  {
    if n > 0 {
      CountNone(subs, n - 1, title, key);
    }
  }

  // ---------------------------------------------------------------- what a move adds

  /** A subsection that gets one more entry. */
  lemma {:induction false} CountAppended(s: seq<Sub>, k: nat, item: seq<Line>, n: nat, title: string, key: Key)
    requires k < n <= |s| && IsBlock(item)
    ensures Count(s[k := AppendTo(s[k], item)], n, title, key) ==
            Count(s, n, title, key) + if s[k].title == title && item == key then 1 else 0
  {
    var now := s[k := AppendTo(s[k], item)];
    AppendedSub(s[k], item);
    if k < n - 1 {
      CountAppended(s, k, item, n - 1, title, key);
    } else {
      CountSame(s, now, n - 1, title, key);
    }
  }

  lemma {:induction false} CountWithTitle(subs: seq<Sub>, added: string, title: string, key: Key)
    ensures var s := WithTitle(subs, added); Count(s, |s|, title, key) == Count(subs, |subs|, title, key)
  {
    var s := WithTitle(subs, added);
    CountSame(subs, s, |subs|, title, key);
    assert Keys(Texts([])) == [];
  }

  /** A move adds its entry under its title, unless it is there, and adds nothing else. */
  lemma {:induction false} MoveCounts(subs: seq<Sub>, mv: Move, title: string, key: Key)
    requires IsBlock(mv.lines)
    ensures var now := AddMove(subs, mv);
            Count(now, |now|, title, key) ==
            Count(subs, |subs|, title, key) + if mv == Move(title, key) && !Present(subs, mv) then 1 else 0
  {
    var s := WithTitle(subs, mv.title);
    var k := FindLast(s, |s|, mv.title);
    CountWithTitle(subs, mv.title, title, key);
    assert Keys(Texts([])) == [];
    assert HasItem(s[k].lines, mv.lines) <==> Present(subs, mv);
    if !HasItem(s[k].lines, mv.lines) {
      CountAppended(s, k, mv.lines, |s|, title, key);
    }
  }

  lemma {:induction false} PresentCounts(subs: seq<Sub>, mv: Move)
    requires Present(subs, mv) && IsBlock(mv.lines)
    ensures Count(subs, |subs|, mv.title, mv.lines) > 0
  {
    CountHas(subs, |subs|, FindLast(subs, |subs|, mv.title), mv.lines);
  }

  lemma {:induction false} MovesStep(subs: seq<Sub>, moves: seq<Move>, n: nat)
    requires AllBlocks(moves) && n <= |moves|
    ensures n == 0 ==> AddMoves(subs, moves, n) == subs
    ensures n > 0 ==>
              AddMoves(subs, moves, n) == AddMove(AddMoves(subs, moves, n - 1), moves[n - 1]) && IsBlock(moves[n - 1].lines)
  {
    hide AddMove, IsBlock;
  }

  predicate MovedTo(moves: seq<Move>, n: nat, mv: Move)
    requires n <= |moves|
  {
    exists i :: 0 <= i < n && moves[i] == mv
  }

  /** Moves bring an entry that is nowhere under its title there once, however often it moves. */
  lemma {:induction false} MovesCount(subs: seq<Sub>, moves: seq<Move>, n: nat, title: string, key: Key)
    requires AllBlocks(moves) && n <= |moves| && Count(subs, |subs|, title, key) == 0
    ensures var now := AddMoves(subs, moves, n);
            Count(now, |now|, title, key) == if MovedTo(moves, n, Move(title, key)) then 1 else 0
  {
    hide AllBlocks, AddMove, AddMoves, Present, IsBlock, Count;
    MovesStep(subs, moves, n);
    if n > 0 {
      var before, mv := AddMoves(subs, moves, n - 1), moves[n - 1];
      MovesCount(subs, moves, n - 1, title, key);
      MoveCounts(before, mv, title, key);
      MovedBefore(subs, moves, n, mv);
      assert MovedTo(moves, n, Move(title, key)) <==> MovedTo(moves, n - 1, Move(title, key)) || mv == Move(title, key);
    }
  }

  /** The `n`-th move finds its entry if it has moved before, and if it finds it, it is under its title. */
  lemma {:induction false} MovedBefore(subs: seq<Sub>, moves: seq<Move>, n: nat, mv: Move)
    requires AllBlocks(moves) && 0 < n <= |moves| && mv == moves[n - 1]
    ensures var before := AddMoves(subs, moves, n - 1);
            && (MovedTo(moves, n - 1, mv) ==> Present(before, mv))
            && (Present(before, mv) ==> Count(before, |before|, mv.title, mv.lines) > 0)
  {
    hide AllBlocks, AddMove, AddMoves, Present, IsBlock, Count;
    var before := AddMoves(subs, moves, n - 1);
    MovesStep(subs, moves, n);
    if MovedTo(moves, n - 1, mv) {
      var i :| 0 <= i < n - 1 && moves[i] == mv;
      MovesPresent(subs, moves, n - 1, i);
    }
    if Present(before, mv) {
      PresentCounts(before, mv);
    }
  }

  // ---------------------------------------------------------------- before anything moves

  /** A subsection without the entries in `keys` has none of them. */
  lemma {:induction false} StrippedOfKeys(sub: Sub, keys: set<Key>, key: Key)
    requires key in keys
    ensures key !in Keys(Texts(Strip(sub, InKeys(keys)).lines))
  {
    var lines := Strip(sub, InKeys(keys)).lines;
    StripTwice(sub, InKeys(keys));
    ItemTexts(lines);
    FilterPicks(Parts(lines), InKeys(keys));
    var items := ItemsOfParts(Parts(lines));
    forall i | 0 <= i < |items| ensures items[i].lines != key {
      FilterEmpty(items, InKeys(keys), i);
    }
  }

  lemma {:induction false} FilterEmpty(items: seq<ParsedItem>, q: Test, i: nat)
    requires Filter(items, q) == [] && i < |items|
    ensures !q(items[i])
  {
    if i > 0 {
      FilterEmpty(items[1..], q, i - 1);
    }
  }

  lemma {:induction false} SubKeyHolds(subs: seq<Sub>, n: nat, k: nat, key: Key)
    requires k < n <= |subs| && key in Keys(Texts(subs[k].lines))
    ensures key in SubKeys(subs, n)
  {
    if k < n - 1 {
      SubKeyHolds(subs, n - 1, k, key);
    }
  }

  lemma {:induction false} ReleasedKeyHolds(sections: seq<Section>, n: nat, i: nat, k: nat, key: Key)
    requires i < n <= |sections| && sections[i].title != UNRELEASED
    requires k < |sections[i].subsections| && key in Keys(Texts(sections[i].subsections[k].lines))
    ensures key in ReleasedKeys(sections, n)
  {
    if i < n - 1 {
      ReleasedKeyHolds(sections, n - 1, i, k, key);
    } else {
      SubKeyHolds(sections[i].subsections, |sections[i].subsections|, k, key);
    }
  }

  /** Once duplicates have been dropped, [Unreleased] has no entry of a release, promotable or not. */
  lemma {:induction false} NoneBefore(content: seq<Line>, historical: set<Key>, title: string, key: Key)
    requires var sections := Parsed(content).sections; key in ReleasedKeys(sections, |sections|)
    ensures var subs := UnreleasedSubs(Deduplicated(content, historical)); Count(subs, |subs|, title, key) == 0
  {
    var sections, now := Parsed(content).sections, Deduplicated(content, historical);
    var u, keys := First(sections), ReleasedKeys(sections, |sections|) + historical;
    if u >= 0 {
      FirstAt(now, u);
      var subs := sections[u].subsections;
      assert UnreleasedSubs(now) == StripTo(subs, InKeys(keys), |subs|);
      forall k | 0 <= k < |subs| ensures key !in Keys(Texts(UnreleasedSubs(now)[k].lines)) {
        StrippedOfKeys(subs[k], keys, key);
      }
      CountNone(UnreleasedSubs(now), |subs|, title, key);
    } else {
      FirstNone(now);
    }
  }

  // ---------------------------------------------------------------- after the promotion

  /**
   A promotable entry stands in [Unreleased] under its heading exactly once after the promotion: not again where
   [Unreleased] had it already, under whatever heading and in whatever subsection, nor for a second release that has it.
   */
  lemma {:induction false} PromotedOnce(content: seq<Line>, promotable: set<nat>, historical: set<Key>, i: nat, k: nat, it: nat)
    requires var sections := Parsed(content).sections;
             && i < |sections| && sections[i].title != UNRELEASED && k < |sections[i].subsections|
             && it < |Picked(sections[i].subsections[k].lines, StartIn(promotable))|
    ensures var sub := Parsed(content).sections[i].subsections[k];
            var subs := UnreleasedSubs(Moved(content, promotable, historical));
            Count(subs, |subs|, sub.title, Picked(sub.lines, StartIn(promotable))[it].lines) == 1
  {
    hide AddMoves, Picked, Strip, Dropped, Promoted, Count;
    var sections, q := Deduplicated(content, historical), StartIn(promotable);
    var sub := Parsed(content).sections[i].subsections[k];
    ReleasedStay(content, historical, i);
    var key := Picked(sub.lines, q)[it].lines;
    PickedInKeys(sub.lines, q, it);
    ReleasedKeyHolds(Parsed(content).sections, |Parsed(content).sections|, i, k, key);
    NoneBefore(content, historical, sub.title, key);
    var moves := AllMoves(sections, q, |sections|);
    var m := MoveListed(sections, q, |sections|, i, k, it);
    MovesAreBlocks(sections, q, |sections|);
    MovesCount(UnreleasedSubs(sections), moves, |moves|, sub.title, key);
    assert MovedTo(moves, |moves|, Move(sub.title, key));
    PromotedSections(sections, q);
  }

  lemma {:induction false} ReleasedStay(content: seq<Line>, historical: set<Key>, i: nat)
    requires i < |Parsed(content).sections| && Parsed(content).sections[i].title != UNRELEASED
    ensures i < |Deduplicated(content, historical)| && Deduplicated(content, historical)[i] == Parsed(content).sections[i]
  {
  }
}
