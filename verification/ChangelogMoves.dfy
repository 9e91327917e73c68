/** Adding promoted bullets to [Unreleased] (scripts/fix-changelogs.ts). */
module ChangelogMoves {
  import opened LineSplit
  import opened ChangelogDocument
  import opened ChangelogRender
  import opened ChangelogItems
  import opened ChangelogKeys
  import opened ChangelogNormalize

  // ---------------------------------------------------------------- moving an item under a title

  datatype Move = Move(title: string, lines: seq<Line>)

  /** `findLast` among the first `n`; -1 if there is none. */
  function FindLast(subs: seq<Sub>, n: nat, title: string): (k: int)
    requires n <= |subs|
    ensures -1 <= k < n && (k >= 0 ==> subs[k].title == title)
    ensures forall i :: k < i < n ==> subs[i].title != title
  {
    if n == 0 then -1 else if subs[n - 1].title == title then n - 1 else FindLast(subs, n - 1, title)
  }

  /** `getOrCreateSubsection` */
  function WithTitle(subs: seq<Sub>, title: string): seq<Sub> {
    if FindLast(subs, |subs|, title) < 0 then subs + [Subsection(title, [])] else subs
  }

  /** The item is in the subsection its title leads to. */
  predicate Present(subs: seq<Sub>, mv: Move) {
    var k := FindLast(subs, |subs|, mv.title);
    k >= 0 && HasItem(subs[k].lines, mv.lines)
  }

  function AddMove(subs: seq<Sub>, mv: Move): seq<Sub> {
    var s := WithTitle(subs, mv.title);
    var k := FindLast(s, |s|, mv.title);
    if HasItem(s[k].lines, mv.lines) then s else s[k := AppendTo(s[k], mv.lines)]
  }

  function AddMoves(subs: seq<Sub>, moves: seq<Move>, n: nat): seq<Sub>
    requires n <= |moves|
  {
    if n == 0 then subs else AddMove(AddMoves(subs, moves, n - 1), moves[n - 1])
  }

  predicate AllBlocks(moves: seq<Move>) {
    forall i :: 0 <= i < |moves| ==> IsBlock(moves[i].lines)
  }

  // what a move does

  lemma {:induction false} FindLastAt(subs: seq<Sub>, k: nat, title: string)
    requires k < |subs| && subs[k].title == title && forall i :: k < i < |subs| ==> subs[i].title != title
    ensures FindLast(subs, |subs|, title) == k
  {
  }

  lemma {:induction false} AppendedSub(sub: Sub, item: seq<Line>)
    requires IsBlock(item)
    ensures var r := AppendTo(sub, item);
            && r.title == sub.title && Keys(Texts(r.lines)) == Keys(Texts(sub.lines)) + [item]
            && Solid(Texts(r.lines)) == Solid(Texts(sub.lines)) + Solid(item)
  {
    TrimOfTrimmed(item);
    SyntheticTexts(Appended(Texts(sub.lines), item));
    KeysAppended(Texts(sub.lines), item);
    SolidAppended(Texts(sub.lines), item);
  }

  /** After a move the item is there, and every item that was there still is. */
  lemma {:induction false} MovePresent(subs: seq<Sub>, mv: Move, other: Move)
    requires IsBlock(mv.lines) && IsBlock(other.lines)
    ensures Present(AddMove(subs, mv), mv)
    ensures Present(subs, other) ==> Present(AddMove(subs, mv), other)
  {
    if Present(subs, mv) {
    } else {
      var s := WithTitle(subs, mv.title);
      var k := FindLast(s, |s|, mv.title);
      AppendedSub(s[k], mv.lines);
      var now := s[k := AppendTo(s[k], mv.lines)];
      FindLastAt(now, k, mv.title);
      var texts := Texts(now[k].lines);
      assert Keys(texts)[|Keys(Texts(s[k].lines))|] == mv.lines;
      if Present(subs, other) {
        OtherStays(subs, s, now, k, mv, other);
      }
    }
  }

  lemma {:induction false} OtherStays(subs: seq<Sub>, s: seq<Sub>, now: seq<Sub>, k: nat, mv: Move, other: Move)
    requires s == WithTitle(subs, mv.title) && k < |s| && k == FindLast(s, |s|, mv.title)
    requires |now| == |s| && (forall i :: 0 <= i < |s| && i != k ==> now[i] == s[i]) && now[k].title == s[k].title
    requires forall key :: key in Keys(Texts(s[k].lines)) ==> key in Keys(Texts(now[k].lines))
    requires Present(subs, other)
    ensures Present(now, other)
  {
    var j := FindLast(subs, |subs|, other.title);
    assert s[j] == subs[j];
    assert other.title != mv.title || |s| == |subs|;
    FindLastAt(s, j, other.title);
    FindLastAt(now, j, other.title);
  }

  /** All items moved so far are there. */
  lemma {:induction false} MovesPresent(subs: seq<Sub>, moves: seq<Move>, n: nat, i: nat)
    requires AllBlocks(moves) && i < n <= |moves|
    ensures Present(AddMoves(subs, moves, n), moves[i])
  {
    hide Present, AddMove, IsBlock;
    MovePresent(AddMoves(subs, moves, n - 1), moves[n - 1], moves[i]);
    if i < n - 1 {
      MovesPresent(subs, moves, n - 1, i);
    }
  }

  // ---------------------------------------------------------------- text gained

  lemma {:induction false} UnderExtended(s: seq<Sub>, k: nat, x: Sub, n: nat, more: seq<Line>)
    requires k < n <= |s| && x.title == s[k].title && (forall i :: k < i < n ==> s[i].title != x.title)
    requires Solid(Texts(x.lines)) == Solid(Texts(s[k].lines)) + more
    ensures UnderTo(s[k := x], n, x.title) == UnderTo(s, n, x.title) + more
  {
    if n > k + 1 {
      UnderExtended(s, k, x, n - 1, more);
    } else {
      UnderSame(s, s[k := x], k, x.title);
      Associates(UnderTo(s, k, x.title), Solid(Texts(s[k].lines)), more);
    }
  }

  /** The text a move brings: none if the item is there already. */
  function Gain(subs: seq<Sub>, mv: Move): seq<Line> {
    if Present(subs, mv) then [] else Solid(mv.lines)
  }

  lemma {:induction false} MoveUnder(subs: seq<Sub>, mv: Move, title: string)
    requires IsBlock(mv.lines)
    ensures Under(AddMove(subs, mv), title) == Under(subs, title) + if title == mv.title then Gain(subs, mv) else []
  {
    if Present(subs, mv) {
    } else {
      var s := WithTitle(subs, mv.title);
      var k := FindLast(s, |s|, mv.title);
      var x := AppendTo(s[k], mv.lines);
      AppendedSub(s[k], mv.lines);
      assert Under(s, title) == Under(subs, title) by {
        if s != subs {
          UnderPush(subs, Subsection(mv.title, []), title);
          assert Solid(Texts([])) == [];
        }
      }
      if title == mv.title {
        UnderExtended(s, k, x, |s|, Solid(mv.lines));
      } else {
        UnderElsewhere(s, s[k := x], |s|, k, title);
      }
    }
  }

  /** The text under a title that the first `n` moves bring, in order. */
  function Gains(subs: seq<Sub>, moves: seq<Move>, n: nat, title: string): seq<Line>
    requires n <= |moves|
  {
    if n == 0 then []
    else if moves[n - 1].title == title then Gains(subs, moves, n - 1, title) + Gain(AddMoves(subs, moves, n - 1), moves[n - 1])
    else Gains(subs, moves, n - 1, title)
  }

  /** Moves only add text, below what is under their title. */
  lemma {:induction false} MovesUnder(subs: seq<Sub>, moves: seq<Move>, n: nat, title: string)
    requires AllBlocks(moves) && n <= |moves|
    ensures Under(AddMoves(subs, moves, n), title) == Under(subs, title) + Gains(subs, moves, n, title)
  {
    hide AddMove, Gain, IsBlock;
    if n > 0 {
      MovesUnder(subs, moves, n - 1, title);
      MoveUnder(AddMoves(subs, moves, n - 1), moves[n - 1], title);
      Associates(Under(subs, title), Gains(subs, moves, n - 1, title), Gain(AddMoves(subs, moves, n - 1), moves[n - 1]));
    }
  }

  lemma {:induction false} KeyTextInFlat(keys: seq<seq<Line>>, i: nat, x: Line)
    requires i < |keys| && x in Solid(keys[i])
    ensures x in Solid(Flatten(keys))
  {
    SolidJoin(keys[0], Flatten(keys[1..]));
    if i > 0 {
      KeyTextInFlat(keys[1..], i - 1, x);
    }
  }

  lemma {:induction false} KeyTextInLines(lines: seq<Line>, key: seq<Line>, x: Line)
    requires key in Keys(lines) && x in Solid(key)
    ensures x in Solid(lines)
  {
    var s := ItemParts(lines);
    FlatOfSplit(lines, IsItem(Same));
    SolidOfKeys(s.parts);
    SolidJoin(s.before, FlatParts(s.parts));
    var i :| 0 <= i < |Keys(lines)| && Keys(lines)[i] == key;
    KeyTextInFlat(Keys(lines), i, x);
  }

  lemma {:induction false} SubTextUnder(subs: seq<Sub>, n: nat, k: nat, x: Line)
    requires k < n <= |subs| && x in Solid(Texts(subs[k].lines))
    ensures x in UnderTo(subs, n, subs[k].title)
  {
    if k < n - 1 {
      SubTextUnder(subs, n - 1, k, x);
    }
  }

  /** The text of an item that is there stands under its title. */
  lemma {:induction false} PresentText(subs: seq<Sub>, mv: Move, x: Line)
    requires Present(subs, mv) && x in Solid(mv.lines)
    ensures x in Under(subs, mv.title)
  {
    var k := FindLast(subs, |subs|, mv.title);
    KeyTextInLines(Texts(subs[k].lines), mv.lines, x);
    SubTextUnder(subs, |subs|, k, x);
  }
}
