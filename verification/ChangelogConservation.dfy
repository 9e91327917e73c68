/** What the changelog fixer keeps: every line of text, and where it stands (scripts/fix-changelogs.ts). */
module ChangelogConservation {
  import opened LineSplit
  import opened ChangelogDocument
  import opened ChangelogRender
  import opened ChangelogRoundTrip
  import opened ChangelogItems
  import opened ChangelogKeys
  import opened ChangelogNormalize
  import opened ChangelogMoves
  import opened ChangelogPromote
  import opened ChangelogFix
  import VersionOrder

  // ---------------------------------------------------------------- dropping duplicates

  lemma {:induction false} SubKeySource(subs: seq<Sub>, n: nat, key: Key) returns (k: nat)
    requires n <= |subs| && key in SubKeys(subs, n)
    ensures k < n && key in Keys(Texts(subs[k].lines))
  {
    if key in Keys(Texts(subs[n - 1].lines)) {
      k := n - 1;
    } else {
      k := SubKeySource(subs, n - 1, key);
    }
  }

  lemma {:induction false} KeySource(sections: seq<Section>, n: nat, key: Key) returns (i: nat, k: nat)
    requires n <= |sections| && key in ReleasedKeys(sections, n)
    ensures i < n && sections[i].title != UNRELEASED && k < |sections[i].subsections|
    ensures key in Keys(Texts(sections[i].subsections[k].lines))
  {
    if sections[n - 1].title != UNRELEASED && key in SubKeys(sections[n - 1].subsections, |sections[n - 1].subsections|) {
      i := n - 1;
      k := SubKeySource(sections[i].subsections, |sections[i].subsections|, key);
    } else {
      i, k := KeySource(sections, n - 1, key);
    }
  }

  lemma {:induction false} StrippedInSubs(s: Section, q: Test, x: Line)
    requires InSubs(StripSection(s, q).subsections, x)
    ensures InSubs(s.subsections, x)
  {
    var k :| 0 <= k < |s.subsections| && x in Solid(Texts(StripSection(s, q).subsections[k].lines));
    StripText(s.subsections[k], q, x);
  }

  /** Text that an entry of [Unreleased] loses as a duplicate stands in a released section. */
  lemma {:induction false} DuplicateText(sections: seq<Section>, k: nat, x: Line)
    requires First(sections) >= 0 && k < |sections[First(sections)].subsections|
    requires var keys := ReleasedKeys(sections, |sections|);
             x in BagOfItems(Picked(sections[First(sections)].subsections[k].lines, InKeys(keys)))
    ensures InSections(Dropped(sections, ReleasedKeys(sections, |sections|)), x)
  {
    var u, keys := First(sections), ReleasedKeys(sections, |sections|);
    var lines := sections[u].subsections[k].lines;
    var picked := Picked(lines, InKeys(keys));
    var it := BagHas(picked, x);
    PickedInKeys(lines, InKeys(keys), it);
    var i, j := KeySource(sections, |sections|, picked[it].lines);
    KeyTextInLines(Texts(sections[i].subsections[j].lines), picked[it].lines, x);
    assert Dropped(sections, keys)[i] == sections[i];
    assert InSubs(sections[i].subsections, x);
  }

  lemma {:induction false} DroppedInvents(sections: seq<Section>, keys: set<Key>, x: Line)
    requires InSections(Dropped(sections, keys), x)
    ensures InSections(sections, x)
  {
    var u, now := First(sections), Dropped(sections, keys);
    var i :| 0 <= i < |now| && InSubs(now[i].subsections, x);
    if i == u {
      StrippedInSubs(sections[i], InKeys(keys), x);
    }
    assert InSubs(sections[i].subsections, x);
  }

  lemma {:induction false} DroppedLoses(sections: seq<Section>, x: Line)
    requires InSections(sections, x)
    ensures InSections(Dropped(sections, ReleasedKeys(sections, |sections|)), x)
  {
    var u, keys := First(sections), ReleasedKeys(sections, |sections|);
    var now := Dropped(sections, keys);
    var i :| 0 <= i < |sections| && InSubs(sections[i].subsections, x);
    if i == u {
      var k :| 0 <= k < |sections[i].subsections| && x in Solid(Texts(sections[i].subsections[k].lines));
      StripText(sections[i].subsections[k], InKeys(keys), x);
      if x in BagOfItems(Picked(sections[i].subsections[k].lines, InKeys(keys))) {
        DuplicateText(sections, k, x);
      } else {
        assert x in Solid(Texts(now[i].subsections[k].lines));
        assert InSubs(now[i].subsections, x);
      }
    } else {
      assert InSubs(now[i].subsections, x);
    }
  }

  /** Dropping duplicates of released entries loses no line of text, and invents none. */
  lemma {:induction false} DroppedText(sections: seq<Section>, x: Line)
    ensures InSections(Dropped(sections, ReleasedKeys(sections, |sections|)), x) <==> InSections(sections, x)
  {
    if InSections(sections, x) {
      DroppedLoses(sections, x);
    }
    if InSections(Dropped(sections, ReleasedKeys(sections, |sections|)), x) {
      DroppedInvents(sections, ReleasedKeys(sections, |sections|), x);
    }
  }

  // ---------------------------------------------------------------- where moves come from

  lemma {:induction false} NoSubMoves(subs: seq<Sub>, q: Test)
    ensures SubMoves(subs, q, 0) == []
  {
  }

  lemma {:induction false} SubMoveAt(subs: seq<Sub>, q: Test, n: nat, m: nat)
    requires 0 < n <= |subs|
    ensures var before, items, all := SubMoves(subs, q, n - 1), Picked(subs[n - 1].lines, q), SubMoves(subs, q, n);
            && |all| == |before| + |items|
            && (m < |before| ==> all[m] == before[m])
            && (|before| <= m < |all| ==> all[m] == Move(subs[n - 1].title, items[m - |before|].lines))
  {
  }

  lemma {:induction false} SubMoveSource(subs: seq<Sub>, q: Test, n: nat, m: nat) returns (k: nat, it: nat)
    requires n <= |subs| && m < |SubMoves(subs, q, n)|
    ensures k < n && it < |Picked(subs[k].lines, q)|
    ensures SubMoves(subs, q, n)[m] == Move(subs[k].title, Picked(subs[k].lines, q)[it].lines)
    decreases n
  {
    hide *;
    NoSubMoves(subs, q);
    SubMoveAt(subs, q, n, m);
    var before := |SubMoves(subs, q, n - 1)|;
    if m < before {
      k, it := SubMoveSource(subs, q, n - 1, m);
    } else {
      k, it := n - 1, m - before;
    }
  }

  lemma {:induction false} SubMoveListed(subs: seq<Sub>, q: Test, n: nat, k: nat, it: nat) returns (m: nat)
    requires k < n <= |subs| && it < |Picked(subs[k].lines, q)|
    ensures m < |SubMoves(subs, q, n)|
    ensures SubMoves(subs, q, n)[m] == Move(subs[k].title, Picked(subs[k].lines, q)[it].lines)
    decreases n
  {
    hide *;
    if k == n - 1 {
      m := |SubMoves(subs, q, n - 1)| + it;
    } else {
      m := SubMoveListed(subs, q, n - 1, k, it);
    }
    SubMoveAt(subs, q, n, m);
  }

  /** A move comes from an entry of a released section. */
  lemma {:induction false} MoveSource(sections: seq<Section>, q: Test, n: nat, m: nat) returns (i: nat, k: nat, it: nat)
    requires n <= |sections| && m < |AllMoves(sections, q, n)|
    ensures i < n && sections[i].title != UNRELEASED && k < |sections[i].subsections|
    ensures it < |Picked(sections[i].subsections[k].lines, q)|
    ensures AllMoves(sections, q, n)[m] ==
            Move(sections[i].subsections[k].title, Picked(sections[i].subsections[k].lines, q)[it].lines)
  {
    hide SubMoves, Picked;
    var before := |AllMoves(sections, q, n - 1)|;
    if m < before {
      i, k, it := MoveSource(sections, q, n - 1, m);
    } else {
      i := n - 1;
      k, it := SubMoveSource(sections[i].subsections, q, |sections[i].subsections|, m - before);
    }
  }

  /** Every picked entry of a released section is moved. */
  lemma {:induction false} MoveListed(sections: seq<Section>, q: Test, n: nat, i: nat, k: nat, it: nat) returns (m: nat)
    requires i < n <= |sections| && sections[i].title != UNRELEASED && k < |sections[i].subsections|
    requires it < |Picked(sections[i].subsections[k].lines, q)|
    ensures m < |AllMoves(sections, q, n)|
    ensures AllMoves(sections, q, n)[m] ==
            Move(sections[i].subsections[k].title, Picked(sections[i].subsections[k].lines, q)[it].lines)
  {
    hide SubMoves, Picked;
    if i == n - 1 {
      m := SubMoveListed(sections[i].subsections, q, |sections[i].subsections|, k, it);
      m := |AllMoves(sections, q, n - 1)| + m;
    } else {
      m := MoveListed(sections, q, n - 1, i, k, it);
    }
  }

  lemma {:induction false} MovesAreBlocks(sections: seq<Section>, q: Test, n: nat)
    requires n <= |sections|
    ensures AllBlocks(AllMoves(sections, q, n))
  {
    forall m: nat | m < |AllMoves(sections, q, n)| ensures IsBlock(AllMoves(sections, q, n)[m].lines) {
      var i, k, it := MoveSource(sections, q, n, m);
      PickedAreBlocks(sections[i].subsections[k].lines, q);
    }
  }

  // ---------------------------------------------------------------- promotion

  /** What [Unreleased] holds before anything moves: nothing if there is no such section. */
  function UnreleasedSubs(sections: seq<Section>): seq<Sub> {
    if First(sections) < 0 then [] else sections[First(sections)].subsections
  }

  /** The section at `i` stands here after the promotion. */
  function NowAt(sections: seq<Section>, q: Test, i: nat): nat {
    if Created(sections, q, |sections|) then i + 1 else i
  }

  /** After the promotion: released sections without what moved, and [Unreleased] with it. */
  lemma {:induction false} PromotedSections(sections: seq<Section>, q: Test)
    ensures var now, moves := Promoted(sections, q, |sections|), AllMoves(sections, q, |sections|);
            && (forall i :: 0 <= i < |sections| && sections[i].title != UNRELEASED ==>
                  NowAt(sections, q, i) < |now| && now[NowAt(sections, q, i)] == StripSection(sections[i], q))
            && (forall i :: 0 <= i < |sections| && sections[i].title == UNRELEASED && i != First(sections) ==> now[i] == sections[i])
            && (moves != [] || First(sections) >= 0 ==>
                  First(now) >= 0 && UnreleasedSubs(now) == AddMoves(UnreleasedSubs(sections), moves, |moves|))
            && (moves == [] && First(sections) < 0 ==> First(now) < 0)
            && |now| == |sections| + if Created(sections, q, |sections|) then 1 else 0
  {
    hide *;
    SectionsStay(sections, q);
    UnreleasedMoves(sections, q);
  }

  lemma {:induction false} SectionsStay(sections: seq<Section>, q: Test)
    ensures var now := Promoted(sections, q, |sections|);
            && |now| == |sections| + (if Created(sections, q, |sections|) then 1 else 0)
            && (forall i :: 0 <= i < |sections| && sections[i].title != UNRELEASED ==>
                  NowAt(sections, q, i) < |now| && now[NowAt(sections, q, i)] == StripSection(sections[i], q))
            && (forall i :: 0 <= i < |sections| && sections[i].title == UNRELEASED && i != First(sections) ==> now[i] == sections[i])
  {
    hide *;
    PromotedLength(sections, q, |sections|);
    forall i | 0 <= i < |sections|
      ensures var now := Promoted(sections, q, |sections|);
              && (sections[i].title != UNRELEASED ==> NowAt(sections, q, i) < |now| && now[NowAt(sections, q, i)] == StripSection(sections[i], q))
              && (sections[i].title == UNRELEASED && i != First(sections) ==> i < |now| && now[i] == sections[i])
    {
      SectionStays(sections, q, i);
    }
  }

  lemma {:induction false} SectionStays(sections: seq<Section>, q: Test, i: nat)
    requires i < |sections|
    ensures var now := Promoted(sections, q, |sections|);
            && (sections[i].title != UNRELEASED ==> NowAt(sections, q, i) < |now| && now[NowAt(sections, q, i)] == StripSection(sections[i], q))
            && (sections[i].title == UNRELEASED && i != First(sections) ==> i < |now| && now[i] == sections[i])
  {
    hide AddMoves, AllMoves, StripSection, FirstFrom, Gaining;
    FirstOfStripped(sections, q, |sections|);
    var x := StripAll(sections, q, |sections|);
    assert x[i] == if sections[i].title != UNRELEASED then StripSection(sections[i], q) else sections[i];
    assert First(sections) < 0 ==> sections[i].title != UNRELEASED;
    hide StripAll;
  }

  lemma {:induction false} UnreleasedMoves(sections: seq<Section>, q: Test)
    ensures var now, moves := Promoted(sections, q, |sections|), AllMoves(sections, q, |sections|);
            && (moves != [] || First(sections) >= 0 ==>
                  First(now) >= 0 && UnreleasedSubs(now) == AddMoves(UnreleasedSubs(sections), moves, |moves|))
            && (moves == [] && First(sections) < 0 ==> First(now) < 0)
  {
    hide AddMoves, StripSection, FirstFrom;
    FirstOfStripped(sections, q, |sections|);
    var x, moves := StripAll(sections, q, |sections|), AllMoves(sections, q, |sections|);
    if moves != [] {
      FirstWithMoves(x, moves);
    } else {
      NoMoves(UnreleasedSubs(sections));
    }
  }

  lemma {:induction false} NoMoves(subs: seq<Sub>)
    ensures AddMoves(subs, [], 0) == subs
  {
  }

  /** Each promoted entry is in [Unreleased], under the heading it had, and gone from its section. */
  lemma {:induction false} PromotedIsThere(sections: seq<Section>, q: Test, i: nat, k: nat, it: nat)
    requires i < |sections| && sections[i].title != UNRELEASED && k < |sections[i].subsections|
    requires it < |Picked(sections[i].subsections[k].lines, q)|
    ensures var now, sub := Promoted(sections, q, |sections|), sections[i].subsections[k];
            && Present(UnreleasedSubs(now), Move(sub.title, Picked(sub.lines, q)[it].lines))
            && NowAt(sections, q, i) < |now| && k < |now[NowAt(sections, q, i)].subsections|
            && Picked(now[NowAt(sections, q, i)].subsections[k].lines, q) == []
  {
    hide AddMoves, Picked, Strip;
    var m := MoveListed(sections, q, |sections|, i, k, it);
    var moves := AllMoves(sections, q, |sections|);
    MovesAreBlocks(sections, q, |sections|);
    MovesPresent(UnreleasedSubs(sections), moves, |moves|, m);
    PromotedSections(sections, q);
    StripTwice(sections[i].subsections[k], q);
  }

  /** Under each heading, [Unreleased] keeps its text and gains the text of what moved there and was not there yet. */
  lemma {:induction false} UnreleasedGains(sections: seq<Section>, q: Test, title: string)
    ensures var now, moves := Promoted(sections, q, |sections|), AllMoves(sections, q, |sections|);
            Under(UnreleasedSubs(now), title) ==
              Under(UnreleasedSubs(sections), title) + Gains(UnreleasedSubs(sections), moves, |moves|, title)
  {
    hide AddMoves;
    var moves := AllMoves(sections, q, |sections|);
    MovesAreBlocks(sections, q, |sections|);
    MovesUnder(UnreleasedSubs(sections), moves, |moves|, title);
    PromotedSections(sections, q);
    if moves == [] {
      NoMoves(UnreleasedSubs(sections));
    }
  }

  lemma {:induction false} GainIsText(subs: seq<Sub>, move: Move)
    ensures Gain(subs, move) == Solid(move.lines) || Gain(subs, move) == []
  {
  }

  lemma {:induction false} GainSource(subs: seq<Sub>, moves: seq<Move>, n: nat, title: string, x: Line) returns (m: nat)
    requires n <= |moves| && x in Gains(subs, moves, n, title)
    ensures m < n && x in Solid(moves[m].lines)
  {
    hide AddMoves, Gain, Solid, AddMove;
    if moves[n - 1].title == title && x in Gain(AddMoves(subs, moves, n - 1), moves[n - 1]) {
      GainIsText(AddMoves(subs, moves, n - 1), moves[n - 1]);
      m := n - 1;
    } else {
      m := GainSource(subs, moves, n - 1, title, x);
    }
  }

  lemma {:induction false} InUnreleased(now: seq<Section>, title: string, x: Line)
    requires First(now) >= 0 && x in Under(UnreleasedSubs(now), title)
    ensures InSections(now, x)
  {
    UnderInSubs(UnreleasedSubs(now), title, x);
    assert InSubs(now[First(now)].subsections, x);
  }

  /** The text of a promoted entry stands in [Unreleased]. */
  lemma {:induction false} PromotedEntryText(sections: seq<Section>, q: Test, i: nat, k: nat, x: Line)
    requires i < |sections| && sections[i].title != UNRELEASED && k < |sections[i].subsections|
    requires x in BagOfItems(Picked(sections[i].subsections[k].lines, q))
    ensures InSections(Promoted(sections, q, |sections|), x)
  {
    hide AddMoves;
    var sub, now := sections[i].subsections[k], Promoted(sections, q, |sections|);
    var it := BagHas(Picked(sub.lines, q), x);
    PromotedIsThere(sections, q, i, k, it);
    var m := MoveListed(sections, q, |sections|, i, k, it);
    PromotedSections(sections, q);
    PresentText(UnreleasedSubs(now), Move(sub.title, Picked(sub.lines, q)[it].lines), x);
    InUnreleased(now, sub.title, x);
  }

  /** Text of a release that is not promoted stays where it is. */
  lemma {:induction false} StayingText(sections: seq<Section>, q: Test, i: nat, k: nat, x: Line)
    requires i < |sections| && sections[i].title != UNRELEASED && k < |sections[i].subsections|
    requires x in Solid(Texts(Strip(sections[i].subsections[k], q).lines))
    ensures InSections(Promoted(sections, q, |sections|), x)
  {
    hide AddMoves, Picked, Strip, Promoted;
    var p, now := NowAt(sections, q, i), Promoted(sections, q, |sections|);
    PromotedSections(sections, q);
    assert x in Solid(Texts(now[p].subsections[k].lines));
    assert InSubs(now[p].subsections, x);
  }

  lemma {:induction false} ReleasedText(sections: seq<Section>, q: Test, i: nat, k: nat, x: Line)
    requires i < |sections| && sections[i].title != UNRELEASED && k < |sections[i].subsections|
    requires x in Solid(Texts(sections[i].subsections[k].lines))
    ensures InSections(Promoted(sections, q, |sections|), x)
  {
    hide AddMoves, Picked, Strip, Promoted, InSections;
    StripText(sections[i].subsections[k], q, x);
    if x in BagOfItems(Picked(sections[i].subsections[k].lines, q)) {
      PromotedEntryText(sections, q, i, k, x);
    } else {
      StayingText(sections, q, i, k, x);
    }
  }

  /** Text of [Unreleased], the first or another, stays there. */
  lemma {:induction false} UnreleasedText(sections: seq<Section>, q: Test, i: nat, k: nat, x: Line)
    requires i < |sections| && sections[i].title == UNRELEASED && k < |sections[i].subsections|
    requires x in Solid(Texts(sections[i].subsections[k].lines))
    ensures InSections(Promoted(sections, q, |sections|), x)
  {
    hide AddMoves, Picked, Strip, Promoted;
    var now := Promoted(sections, q, |sections|);
    PromotedSections(sections, q);
    if i == First(sections) {
      var title := sections[i].subsections[k].title;
      SubTextUnder(sections[i].subsections, |sections[i].subsections|, k, x);
      UnreleasedGains(sections, q, title);
      InUnreleased(now, title, x);
    } else {
      assert InSubs(now[i].subsections, x);
    }
  }

  lemma {:induction false} PromotedLoses(sections: seq<Section>, q: Test, x: Line)
    requires InSections(sections, x)
    ensures InSections(Promoted(sections, q, |sections|), x)
  {
    hide Promoted;
    var i :| 0 <= i < |sections| && InSubs(sections[i].subsections, x);
    var k :| 0 <= k < |sections[i].subsections| && x in Solid(Texts(sections[i].subsections[k].lines));
    if sections[i].title != UNRELEASED {
      ReleasedText(sections, q, i, k, x);
    } else {
      UnreleasedText(sections, q, i, k, x);
    }
  }

  lemma {:induction false} GainedText(sections: seq<Section>, q: Test, title: string, x: Line)
    requires var moves := AllMoves(sections, q, |sections|);
             x in Gains(UnreleasedSubs(sections), moves, |moves|, title)
    ensures InSections(sections, x)
  {
    hide AddMoves, Strip;
    var moves := AllMoves(sections, q, |sections|);
    var m := GainSource(UnreleasedSubs(sections), moves, |moves|, title, x);
    var i, k, it := MoveSource(sections, q, |sections|, m);
    BagHolds(Picked(sections[i].subsections[k].lines, q), it, x);
    StripText(sections[i].subsections[k], q, x);
    assert InSubs(sections[i].subsections, x);
  }

  /** Which section of the input a section of the output was. */
  lemma {:induction false} CameFrom(sections: seq<Section>, q: Test, p: nat) returns (i: nat)
    requires p < |Promoted(sections, q, |sections|)| && p != First(Promoted(sections, q, |sections|))
    ensures i < |sections|
    ensures var now := Promoted(sections, q, |sections|);
            if sections[i].title != UNRELEASED then now[p] == StripSection(sections[i], q) else now[p] == sections[i]
  {
    hide AddMoves, StripSection;
    PromotedShape(sections, q);
    hide *;
    i := if Created(sections, q, |sections|) then p - 1 else p;
    PromotedAt(sections, q, i);
  }

  lemma {:induction false} PromotedShape(sections: seq<Section>, q: Test)
    ensures var now, created := Promoted(sections, q, |sections|), Created(sections, q, |sections|);
            && |now| == |sections| + (if created then 1 else 0)
            && (if created then First(sections) < 0 && First(now) == 0 else First(now) == First(sections))
  {
    hide AddMoves, StripSection;
    FirstOfStripped(sections, q, |sections|);
    var x, moves := StripAll(sections, q, |sections|), AllMoves(sections, q, |sections|);
    if moves != [] {
      FirstWithMoves(x, moves);
    }
  }

  /** Where a section other than the first [Unreleased] is after the promotion. */
  lemma {:induction false} PromotedAt(sections: seq<Section>, q: Test, i: nat)
    requires i < |sections| && i != First(sections)
    ensures var now, p := Promoted(sections, q, |sections|), i + if Created(sections, q, |sections|) then 1 else 0;
            p < |now| && now[p] == if sections[i].title != UNRELEASED then StripSection(sections[i], q) else sections[i]
  {
    hide AddMoves, StripSection;
    PromotedSections(sections, q);
    FirstOfStripped(sections, q, |sections|);
  }

  lemma {:induction false} PromotedInvents(sections: seq<Section>, q: Test, x: Line)
    requires InSections(Promoted(sections, q, |sections|), x)
    ensures InSections(sections, x)
  {
    hide AddMoves, Promoted, Strip, StripSection;
    var now := Promoted(sections, q, |sections|);
    var p :| 0 <= p < |now| && InSubs(now[p].subsections, x);
    if p == First(now) {
      var k :| 0 <= k < |now[p].subsections| && x in Solid(Texts(now[p].subsections[k].lines));
      var title := now[p].subsections[k].title;
      SubTextUnder(now[p].subsections, |now[p].subsections|, k, x);
      UnreleasedGains(sections, q, title);
      if x in Under(UnreleasedSubs(sections), title) {
        UnderInSubs(UnreleasedSubs(sections), title, x);
        assert First(sections) >= 0 ==> InSubs(sections[First(sections)].subsections, x);
      } else {
        GainedText(sections, q, title, x);
      }
    } else {
      var i := CameFrom(sections, q, p);
      if sections[i].title != UNRELEASED {
        StrippedInSubs(sections[i], q, x);
      }
      assert InSubs(sections[i].subsections, x);
    }
  }

  // ---------------------------------------------------------------- the whole fix

  lemma {:induction false} ArrangedText(t: seq<Section>, parts: VersionOrder.Parts, x: Line)
    ensures InSections(Arrange(t, parts), x) <==> InSections(t, x)
  {
    ArrangePermutes(t, parts);
    if InSections(t, x) {
      PermutedText(t, Arrange(t, parts), x);
    }
    if InSections(Arrange(t, parts), x) {
      PermutedText(Arrange(t, parts), t, x);
    }
  }

  /** Without historical entries, the fixed file has the lines of text of the file it was given: none lost, none new. */
  lemma {:induction false} TextIsConserved(content: seq<Line>, promotable: set<nat>, parts: VersionOrder.Parts, t: seq<Section>, fixed: seq<Line>, x: Line)
    requires Fixes(content, promotable, {}, parts, t, fixed)
    ensures InSections(Arrange(t, parts), x) <==> InSections(Parsed(content).sections, x)
  {
    hide Promoted, Dropped, Arrange;
    var sections := Parsed(content).sections;
    var dropped := Deduplicated(content, {});
    assert ReleasedKeys(sections, |sections|) + {} == ReleasedKeys(sections, |sections|);
    DroppedText(sections, x);
    if InSections(dropped, x) {
      PromotedLoses(dropped, StartIn(promotable), x);
    }
    if InSections(Promoted(dropped, StartIn(promotable), |dropped|), x) {
      PromotedInvents(dropped, StartIn(promotable), x);
    }
    NormalizedText(Moved(content, promotable, {}), t, x);
    ArrangedText(t, parts, x);
  }

  /** With historical entries, no text is new. */
  lemma {:induction false} NothingInvented(content: seq<Line>, promotable: set<nat>, historical: set<Key>, parts: VersionOrder.Parts,
                        t: seq<Section>, fixed: seq<Line>, x: Line)
    requires Fixes(content, promotable, historical, parts, t, fixed) && InSections(Arrange(t, parts), x)
    ensures InSections(Parsed(content).sections, x)
  {
    hide Promoted, Dropped, Arrange;
    var sections := Parsed(content).sections;
    ArrangedText(t, parts, x);
    NormalizedText(Moved(content, promotable, historical), t, x);
    PromotedInvents(Deduplicated(content, historical), StartIn(promotable), x);
    DroppedInvents(sections, ReleasedKeys(sections, |sections|) + historical, x);
  }

  /** Where a section of the fixed file stands in it. */
  lemma {:induction false} ArrangedAt(t: seq<Section>, parts: VersionOrder.Parts, i: nat) returns (j: nat)
    requires i < |t|
    ensures j < |Arrange(t, parts)| && Arrange(t, parts)[j] == t[i]
  {
    ArrangePermutes(t, parts);
    assert t[i] in multiset(Arrange(t, parts));
    j :| 0 <= j < |Arrange(t, parts)| && Arrange(t, parts)[j] == t[i];
  }

  /**
   Every release of the file is in the fixed file, with its heading, its leading text, and under each heading its own
   text without the promoted entries, in the order it had.
   */
  lemma {:induction false} ReleasesAreKept(content: seq<Line>, promotable: set<nat>, historical: set<Key>, parts: VersionOrder.Parts,
                        t: seq<Section>, fixed: seq<Line>, i: nat) returns (j: nat)
    requires Fixes(content, promotable, historical, parts, t, fixed)
    requires i < |Parsed(content).sections| && Parsed(content).sections[i].title != UNRELEASED
    ensures j < |Arrange(t, parts)|
    ensures SameText(StripSection(Parsed(content).sections[i], StartIn(promotable)), Arrange(t, parts)[j])
    ensures DistinctTitles(Arrange(t, parts)[j].subsections)
    ensures Arrange(t, parts)[j] == NormalSection(StripSection(Parsed(content).sections[i], StartIn(promotable)))
  {
    hide Promoted, Arrange, StripSection, SameText, NormalSection;
    NormalSectionKeeps(StripSection(Parsed(content).sections[i], StartIn(promotable)));
    var sections, q := Deduplicated(content, historical), StartIn(promotable);
    assert sections[i] == Parsed(content).sections[i];
    PromotedSections(sections, q);
    j := ArrangedAt(t, parts, NowAt(sections, q, i));
  }

  /**
   Every promotable entry of a release stands whole in the [Unreleased] of the fixed file, in the one subsection with the
   heading it had.
   */
  lemma {:induction false} PromotableIsUnreleased(content: seq<Line>, promotable: set<nat>, historical: set<Key>, parts: VersionOrder.Parts,
                               t: seq<Section>, fixed: seq<Line>, i: nat, k: nat, it: nat) returns (j: nat)
    requires Fixes(content, promotable, historical, parts, t, fixed)
    requires i < |Parsed(content).sections| && Parsed(content).sections[i].title != UNRELEASED
    requires var subs := Parsed(content).sections[i].subsections;
             k < |subs| && it < |Picked(subs[k].lines, StartIn(promotable))|
    ensures j < |Arrange(t, parts)| && Arrange(t, parts)[j].title == UNRELEASED
    ensures DistinctTitles(Arrange(t, parts)[j].subsections)
    ensures var sub := Parsed(content).sections[i].subsections[k];
            HasKey(Arrange(t, parts)[j].subsections, sub.title, Picked(sub.lines, StartIn(promotable))[it].lines)
  {
    hide Promoted, Arrange, Picked, AddMoves, Strip, HasKey, LastKept, Keys;
    var sections, q := Deduplicated(content, historical), StartIn(promotable);
    assert sections[i] == Parsed(content).sections[i];
    var sub, now := sections[i].subsections[k], Moved(content, promotable, historical);
    PromotedIsThere(sections, q, i, k, it);
    PromotedSections(sections, q);
    var m := MoveListed(sections, q, |sections|, i, k, it);
    MovesAreBlocks(sections, q, |sections|);
    var u := First(now);
    NormalSectionKeeps(now[u]);
    PresentIsKept(t[u].subsections, now[u].subsections, Move(sub.title, Picked(sub.lines, q)[it].lines));
    j := ArrangedAt(t, parts, u);
  }

  /** An item that a move put, or found, under its title is in the last subsection with it, and stays whole. */
  lemma {:induction false} PresentIsKept(t: seq<Sub>, now: seq<Sub>, mv: Move)
    requires LastKept(t, now, |now|) && Present(now, mv) && IsBlock(mv.lines)
    ensures HasKey(t, mv.title, mv.lines)
  {
    var k := FindLast(now, |now|, mv.title);
    assert IsLast(now, k, |now|);
  }
}
