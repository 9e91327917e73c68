/** A stamp followed by a refresh leaves a valid ad-hoc signature, and nothing else changes. */
module SignatureKept {
  import opened Prelude
  import opened VersionStamp
  import opened AdhocSignature

  // ---------------------------------------------------------------- what a valid signature is

  ghost predicate SlotHolds(b: seq<byte>, h: Hasher, d: Directory, page: nat) {
    Sub(b, SlotAt(d, page), SlotAt(d, page) + d.hash.Size()) == PageDigest(b, h, d, page)
  }

  /** Every page of the directory has its digest in its slot, from page `from` on. */
  ghost predicate DirectoryHolds(b: seq<byte>, h: Hasher, d: Directory, from: nat) {
    forall page: nat :: from <= page < d.pages ==> SlotHolds(b, h, d, page)
  }

  ghost predicate EntryHolds(b: seq<byte>, h: Hasher, e: Entry) {
    e.Code? ==> DirectoryHolds(b, h, e.directory, 0)
  }

  ghost predicate Verifies(b: seq<byte>, h: Hasher, es: seq<Entry>) {
    forall i :: 0 <= i < |es| ==> EntryHolds(b, h, es[i])
  }

  // ---------------------------------------------------------------- what a well-formed image is

  function SlotsEnd(d: Directory): nat {
    SlotAt(d, d.pages)
  }

  predicate InSlots(e: Entry, x: int) {
    e.Code? && e.directory.slots <= x < SlotsEnd(e.directory)
  }

  /** `x` is a byte of a slot of an entry from the `i`-th on. */
  predicate InSlotsFrom(es: seq<Entry>, i: nat, x: int) {
    exists j :: i <= j < |es| && InSlots(es[j], x)
  }

  /** `x` is a byte of the entry's own header. */
  predicate InHeader(e: Entry, x: int) {
    e.at <= x < e.at + if e.Code? then 40 else 4
  }

  predicate InSomeHeader(es: seq<Entry>, sig: nat, x: int) {
    sig <= x < sig + 16 + 8 * |es| || exists k :: 0 <= k < |es| && InHeader(es[k], x)
  }

  /** The slots lie inside the file and behind the signed bytes, and are apart from each other and from all headers. */
  ghost predicate Layout(es: seq<Entry>, sig: nat, length: nat) {
    && (forall i :: 0 <= i < |es| && es[i].Code? ==>
          es[i].directory.codeLimit <= sig <= es[i].directory.slots && SlotsEnd(es[i].directory) <= length)
    && (forall i :: 0 <= i < |es| ==> sig <= es[i].at)
    && (forall i, j, x :: 0 <= i < j < |es| && InSlots(es[i], x) ==> !InSlots(es[j], x))
    && (forall i, x :: 0 <= i < |es| && InSlots(es[i], x) ==> !InSomeHeader(es, sig, x))
  }

  /** The entries are what the super blob at `sig` lists. */
  ghost predicate Lists(b: seq<byte>, sig: nat, es: seq<Entry>) {
    EntryCount(b, sig) == Ok(|es|) && forall i :: 0 <= i < |es| ==> ReadEntry(b, sig, i) == Ok(es[i])
  }

  /** The load commands, as far as they are read, end before `limit`. */
  predicate CommandsBelow(b: seq<byte>, cursor: nat, left: nat, limit: nat)
    decreases left
  {
    left == 0 ||
    (&& cursor + 8 <= limit <= |b|
     && (U32LE(b, cursor) == Some(LC_CODE_SIGNATURE) ==> cursor + 16 <= limit)
     && CommandsBelow(b, cursor + U32LE(b, cursor + 4).value, left - 1, limit))
  }

  /** A thin signed image: load commands below `commands`, then code and data, then the signature at `sig`. */
  ghost predicate WellFormed(b: seq<byte>, commands: nat, sig: nat, es: seq<Entry>) {
    && 32 <= commands <= sig <= |b|
    && Signature(b) == Ok(Some(sig))
    && CommandsBelow(b, 32, U32LE(b, 16).value, commands)
    && Lists(b, sig, es)
    && Layout(es, sig, |b|)
  }

  // ---------------------------------------------------------------- what the headers depend on

  ghost predicate SameHeaders(b: seq<byte>, c: seq<byte>, commands: nat, sig: nat, es: seq<Entry>) {
    |b| == |c| && forall x :: 0 <= x < |b| && (x < commands || InSomeHeader(es, sig, x)) ==> b[x] == c[x]
  }

  ghost predicate SameOn(b: seq<byte>, c: seq<byte>, lo: nat, hi: nat) {
    |b| == |c| && forall x :: lo <= x < hi && x < |b| ==> b[x] == c[x]
  }

  lemma {:induction false} SubSame(b: seq<byte>, c: seq<byte>, lo: nat, hi: nat)
    requires SameOn(b, c, lo, hi)
    ensures Sub(b, lo, hi) == Sub(c, lo, hi)
  {
  }

  lemma {:induction false} CommandsSame(b: seq<byte>, c: seq<byte>, cursor: nat, left: nat, limit: nat, found: Option<nat>)
    requires SameOn(b, c, 0, limit) && CommandsBelow(b, cursor, left, limit)
    ensures CommandsBelow(c, cursor, left, limit)
    ensures FindSignature(b, cursor, left, found) == FindSignature(c, cursor, left, found)
    decreases left
  {
    if left > 0 {
      assert U32LE(b, cursor) == U32LE(c, cursor);
      assert U32LE(b, cursor + 4) == U32LE(c, cursor + 4);
      var next := cursor + U32LE(b, cursor + 4).value;
      if U32LE(b, cursor).value == LC_CODE_SIGNATURE {
        CommandsSame(b, c, next, left - 1, limit, U32LE(b, cursor + 8));
      } else {
        CommandsSame(b, c, next, left - 1, limit, found);
      }
    }
  }

  lemma {:induction false} DirectorySame(b: seq<byte>, c: seq<byte>, cd: nat, e: Entry)
    requires SameOn(b, c, cd, cd + 40) && ReadDirectory(b, cd) == Ok(e)
    ensures ReadDirectory(c, cd) == Ok(e)
  {
  }

  lemma {:induction false} EntrySame(b: seq<byte>, c: seq<byte>, sig: nat, i: nat, e: Entry)
    requires SameOn(b, c, sig + 16 + 8 * i, sig + 20 + 8 * i)
    requires ReadEntry(b, sig, i) == Ok(e) && SameOn(b, c, e.at, e.at + if e.Code? then 40 else 4)
    ensures ReadEntry(c, sig, i) == Ok(e)
  {
    assert U32BE(b, sig + 16 + 8 * i) == U32BE(c, sig + 16 + 8 * i);
    var at := sig + U32BE(b, sig + 16 + 8 * i).value;
    assert at == e.at;
    assert U32BE(b, at) == U32BE(c, at);
    if e.Code? {
      DirectorySame(b, c, at, e);
    }
  }

  lemma {:induction false} HeadersDecide(b: seq<byte>, c: seq<byte>, commands: nat, sig: nat, es: seq<Entry>)
    requires WellFormed(b, commands, sig, es) && SameHeaders(b, c, commands, sig, es)
    ensures WellFormed(c, commands, sig, es)
  {
    assert SameOn(b, c, 0, commands);
    assert U32LE(b, 0) == U32LE(c, 0) && U32LE(b, 16) == U32LE(c, 16);
    CommandsSame(b, c, 32, U32LE(b, 16).value, commands, None);
    assert EntryCount(c, sig) == Ok(|es|) by {
      assert SameOn(b, c, sig, sig + 12);
      assert U32BE(b, sig) == U32BE(c, sig) && U32BE(b, sig + 8) == U32BE(c, sig + 8);
    }
    forall i | 0 <= i < |es| ensures ReadEntry(c, sig, i) == Ok(es[i]) {
      assert SameOn(b, c, sig + 16 + 8 * i, sig + 20 + 8 * i);
      forall x | es[i].at <= x < es[i].at + (if es[i].Code? then 40 else 4) && x < |b| ensures b[x] == c[x] {
        assert InHeader(es[i], x);
      }
      EntrySame(b, c, sig, i, es[i]);
    }
  }

  // ---------------------------------------------------------------- one directory

  lemma {:induction false} SlotsAscend(d: Directory, p: nat, q: nat)
    requires p < q
    ensures SlotAt(d, p) + d.hash.Size() <= SlotAt(d, q)
    decreases q - p
  {
    if p + 1 < q {
      SlotsAscend(d, p, q - 1);
    }
  }

  lemma {:induction false} SlotsStart(d: Directory)
    ensures SlotAt(d, 0) == d.slots
  {
  }

  /** The slot of a page lies within the slots of its directory. */
  lemma {:induction false} SlotInside(d: Directory, page: nat)
    requires page < d.pages
    ensures d.slots <= SlotAt(d, page) && SlotAt(d, page) + d.hash.Size() <= SlotsEnd(d)
  {
    SlotsStart(d);
    SlotsAscend(d, page, d.pages);
    if page > 0 {
      SlotsAscend(d, 0, page);
    }
  }

  lemma {:induction false} PagesSame(b: seq<byte>, c: seq<byte>, h: Hasher, d: Directory, page: nat)
    requires SameOn(b, c, 0, d.codeLimit)
    ensures PageDigest(b, h, d, page) == PageDigest(c, h, d, page)
  {
    var start := Times(page, d.pageSize);
    SubSame(b, c, start, if start + d.pageSize < d.codeLimit then start + d.pageSize else d.codeLimit);
  }

  lemma {:induction false} SlotSame(b: seq<byte>, c: seq<byte>, h: Hasher, d: Directory, page: nat)
    requires SameOn(b, c, 0, d.codeLimit) && SameOn(b, c, SlotAt(d, page), SlotAt(d, page) + d.hash.Size())
    ensures SlotHolds(b, h, d, page) <==> SlotHolds(c, h, d, page)
  {
    PagesSame(b, c, h, d, page);
    SubSame(b, c, SlotAt(d, page), SlotAt(d, page) + d.hash.Size());
  }

  /** `c` is `b` with the slots from `lo` up to `hi` brought up to date, `changed` if that was needed. */
  ghost predicate OnlyWithin(b: seq<byte>, c: seq<byte>, lo: nat, hi: nat) {
    |b| == |c| && forall x :: 0 <= x < |b| && !(lo <= x < hi) ==> b[x] == c[x]
  }

  lemma {:induction false} PageRefreshed(b: seq<byte>, h: Hasher, d: Directory, page: nat)
    requires d.codeLimit <= d.slots && page < d.pages && SlotsEnd(d) <= |b|
    ensures RefreshPage(b, h, d, page).Ok?
    ensures var s := RefreshPage(b, h, d, page).value;
            && OnlyWithin(b, s.bytes, SlotAt(d, page), SlotAt(d, page + 1))
            && SlotHolds(s.bytes, h, d, page)
            && (s.changed <==> s.bytes != b)
  {
    SlotInside(d, page);
    var digest, slot := PageDigest(b, h, d, page), SlotAt(d, page);
    var s := RefreshPage(b, h, d, page).value;
    assert SlotAt(d, page + 1) == slot + d.hash.Size();
    PagesSame(b, s.bytes, h, d, page);
    assert Sub(s.bytes, slot, slot + d.hash.Size()) == digest;
  }

  /** Refreshing the pages from `page` on makes `c` of `b`. */
  ghost predicate PagesSettled(b: seq<byte>, c: seq<byte>, h: Hasher, d: Directory, page: nat) {
    OnlyWithin(b, c, SlotAt(d, page), SlotsEnd(d)) && DirectoryHolds(c, h, d, page)
  }

  /** The loop over the pages of a directory settles all their slots and touches nothing else. */
  lemma {:induction false} PagesRefreshed(b: seq<byte>, h: Hasher, d: Directory, page: nat, changed: bool)
    requires d.codeLimit <= d.slots && page <= d.pages && SlotsEnd(d) <= |b|
    ensures Each(b, PageStep(h, d), page, d.pages, changed).Ok?
    ensures var s := Each(b, PageStep(h, d), page, d.pages, changed).value;
            PagesSettled(b, s.bytes, h, d, page) && (s.changed <==> changed || s.bytes != b)
    decreases d.pages - page
  {
    if page == d.pages {
      EachEnds(b, PageStep(h, d), page, d.pages, changed);
    } else {
      PageRefreshed(b, h, d, page);
      var first := RefreshPage(b, h, d, page).value;
      EachUnfolds(b, PageStep(h, d), page, d.pages, changed, first);
      hide Each, RefreshPage, SlotHolds, OnlyWithin, DirectoryHolds, PagesSettled, SlotsEnd, SlotAt;
      PagesRefreshed(first.bytes, h, d, page + 1, changed || first.changed);
      var s := Each(first.bytes, PageStep(h, d), page + 1, d.pages, changed || first.changed).value;
      PagesJoin(b, first.bytes, s.bytes, h, d, page);
    }
  }

  lemma {:induction false} PagesJoin(b: seq<byte>, c: seq<byte>, e: seq<byte>, h: Hasher, d: Directory, page: nat)
    requires d.codeLimit <= d.slots && page < d.pages && SlotsEnd(d) <= |b|
    requires OnlyWithin(b, c, SlotAt(d, page), SlotAt(d, page + 1)) && SlotHolds(c, h, d, page)
    requires PagesSettled(c, e, h, d, page + 1)
    ensures PagesSettled(b, e, h, d, page) && (b == e <==> b == c && c == e)
  {
    SlotInside(d, page);
    assert SlotAt(d, page + 1) == SlotAt(d, page) + d.hash.Size();
    SlotSame(c, e, h, d, page);
    assert OnlyWithin(c, e, SlotAt(d, page + 1), SlotsEnd(d)) && DirectoryHolds(e, h, d, page + 1);
    hide OnlyWithin, SlotHolds, SlotAt, SlotsEnd;
    WithinJoin(b, c, e, SlotAt(d, page), SlotAt(d, page + 1), SlotsEnd(d));
    assert forall p: nat :: page <= p < d.pages ==> SlotHolds(e, h, d, p);
  }

  lemma {:induction false} WithinJoin(b: seq<byte>, c: seq<byte>, e: seq<byte>, lo: nat, mid: nat, hi: nat)
    requires lo <= mid <= hi && OnlyWithin(b, c, lo, mid) && OnlyWithin(c, e, mid, hi)
    ensures OnlyWithin(b, e, lo, hi) && (b == e <==> b == c && c == e)
  {
    if b == e {
      forall x | 0 <= x < |b| ensures b[x] == c[x] {
      }
    }
  }

  // ---------------------------------------------------------------- all entries

  ghost predicate OnlySlotsFrom(b: seq<byte>, c: seq<byte>, es: seq<Entry>, i: nat) {
    |b| == |c| && forall x :: 0 <= x < |b| && !InSlotsFrom(es, i, x) ==> b[x] == c[x]
  }

  lemma {:induction false} SlotsApartFromHeaders(es: seq<Entry>, sig: nat, length: nat, i: nat, x: int)
    requires Layout(es, sig, length) && InSlotsFrom(es, i, x)
    ensures sig <= x && !InSomeHeader(es, sig, x)
  {
  }

  lemma {:induction false} SlotsAreNoHeaders(b: seq<byte>, c: seq<byte>, commands: nat, sig: nat, es: seq<Entry>, i: nat)
    requires WellFormed(b, commands, sig, es) && OnlySlotsFrom(b, c, es, i)
    ensures WellFormed(c, commands, sig, es) && SameOn(b, c, 0, sig)
  {
    forall x | InSlotsFrom(es, i, x) ensures sig <= x && !InSomeHeader(es, sig, x) {
      SlotsApartFromHeaders(es, sig, |b|, i, x);
    }
    HeadersDecide(b, c, commands, sig, es);
  }

  /** Later entries leave an entry that is up to date alone. */
  lemma {:induction false} HoldsOn(b: seq<byte>, c: seq<byte>, h: Hasher, commands: nat, sig: nat, es: seq<Entry>, i: nat)
    requires WellFormed(b, commands, sig, es) && OnlySlotsFrom(b, c, es, i + 1) && i < |es| && EntryHolds(b, h, es[i])
    ensures EntryHolds(c, h, es[i])
  {
    if es[i].Code? {
      var d := es[i].directory;
      SlotsAreNoHeaders(b, c, commands, sig, es, i + 1);
      forall page: nat | page < d.pages ensures SlotHolds(c, h, d, page) {
        SlotInside(d, page);
        forall x | SlotAt(d, page) <= x < SlotAt(d, page) + d.hash.Size() && x < |b| ensures b[x] == c[x] {
          assert InSlots(es[i], x);
        }
        SlotSame(b, c, h, d, page);
      }
    }
  }

  /** Refreshing the `i`-th entry makes `c` of `b`. */
  ghost predicate EntrySettled(b: seq<byte>, c: seq<byte>, h: Hasher, es: seq<Entry>, i: nat)
    requires i < |es|
  {
    && |c| == |b| && (forall x :: 0 <= x < |b| && !InSlots(es[i], x) ==> b[x] == c[x])
    && EntryHolds(c, h, es[i])
  }

  lemma {:induction false} EntryRefreshed(b: seq<byte>, h: Hasher, commands: nat, sig: nat, es: seq<Entry>, i: nat)
    requires WellFormed(b, commands, sig, es) && i < |es|
    ensures RefreshEntry(b, h, sig, i).Ok?
    ensures var s := RefreshEntry(b, h, sig, i).value;
            EntrySettled(b, s.bytes, h, es, i) && (s.changed <==> s.bytes != b)
  {
    assert ReadEntry(b, sig, i) == Ok(es[i]);
    if es[i].Code? {
      PagesRefreshed(b, h, es[i].directory, 0, false);
      SlotsStart(es[i].directory);
    }
  }

  /** Refreshing the entries from the `i`-th on makes `c` of `b`. */
  ghost predicate Settled(b: seq<byte>, c: seq<byte>, h: Hasher, es: seq<Entry>, i: nat) {
    OnlySlotsFrom(b, c, es, i) && forall k :: i <= k < |es| ==> EntryHolds(c, h, es[k])
  }

  lemma {:induction false} EntriesRefreshed(b: seq<byte>, h: Hasher, commands: nat, sig: nat, es: seq<Entry>, i: nat, changed: bool)
    requires WellFormed(b, commands, sig, es) && i <= |es|
    ensures Each(b, EntryStep(h, sig), i, |es|, changed).Ok?
    ensures var s := Each(b, EntryStep(h, sig), i, |es|, changed).value;
            Settled(b, s.bytes, h, es, i) && (s.changed <==> changed || s.bytes != b)
    decreases |es| - i
  {
    hide WellFormed, RefreshEntry, EntrySettled;
    if i < |es| {
      EntryRefreshed(b, h, commands, sig, es, i);
      var first := RefreshEntry(b, h, sig, i).value;
      EntriesStep(b, first.bytes, h, commands, sig, es, i);
      EntriesRefreshed(first.bytes, h, commands, sig, es, i + 1, changed || first.changed);
      var s := Each(first.bytes, EntryStep(h, sig), i + 1, |es|, changed || first.changed).value;
      SettledStep(b, first.bytes, s.bytes, h, commands, sig, es, i);
      EachUnfolds(b, EntryStep(h, sig), i, |es|, changed, first);
    }
  }

  lemma {:induction false} EachUnfolds(b: seq<byte>, step: Step, i: nat, n: nat, changed: bool, first: Refreshed)
    requires i < n && step(b, i) == Ok(first)
    ensures Each(b, step, i, n, changed) == Each(first.bytes, step, i + 1, n, changed || first.changed)
  {
  }

  lemma {:induction false} SettledStep(b: seq<byte>, c: seq<byte>, e: seq<byte>, h: Hasher, commands: nat, sig: nat, es: seq<Entry>, i: nat)
    requires WellFormed(b, commands, sig, es) && i < |es| && EntrySettled(b, c, h, es, i) && Settled(c, e, h, es, i + 1)
    ensures Settled(b, e, h, es, i) && (b == e <==> b == c && c == e)
  {
    EntriesStep(b, c, h, commands, sig, es, i);
    HoldsOn(c, e, h, commands, sig, es, i);
    EntriesJoin(b, c, e, es, sig, i);
  }

  lemma {:induction false} EntriesStep(b: seq<byte>, c: seq<byte>, h: Hasher, commands: nat, sig: nat, es: seq<Entry>, i: nat)
    requires WellFormed(b, commands, sig, es) && i < |es|
    requires |c| == |b| && forall x :: 0 <= x < |b| && !InSlots(es[i], x) ==> b[x] == c[x]
    ensures WellFormed(c, commands, sig, es)
  {
    assert OnlySlotsFrom(b, c, es, i);
    SlotsAreNoHeaders(b, c, commands, sig, es, i);
  }

  /** Two refreshes with separate slots add up: the second cannot undo the first. */
  lemma {:induction false} EntriesJoin(b: seq<byte>, c: seq<byte>, e: seq<byte>, es: seq<Entry>, sig: nat, i: nat)
    requires Layout(es, sig, |b|) && i < |es| && OnlySlotsFrom(c, e, es, i + 1)
    requires |c| == |b| && forall x :: 0 <= x < |b| && !InSlots(es[i], x) ==> b[x] == c[x]
    ensures OnlySlotsFrom(b, e, es, i) && (b == e <==> b == c && c == e)
  {
    forall x | 0 <= x < |b| && !InSlotsFrom(es, i, x) ensures b[x] == e[x] {
      assert !InSlots(es[i], x);
      assert !InSlotsFrom(es, i + 1, x);
    }
    if b == e {
      forall x | 0 <= x < |b| ensures b[x] == c[x] {
        if InSlots(es[i], x) {
          assert !InSlotsFrom(es, i + 1, x);
        }
      }
    }
  }

  // ---------------------------------------------------------------- refreshing the whole image

  /** A refreshed image verifies, only slot bytes differ, and the result says whether any does. */
  lemma {:induction false} RefreshVerifies(b: seq<byte>, h: Hasher, commands: nat, sig: nat, es: seq<Entry>)
    requires WellFormed(b, commands, sig, es)
    ensures Refresh(b, h).Ok?
    ensures var s := Refresh(b, h).value;
            && WellFormed(s.bytes, commands, sig, es)
            && Verifies(s.bytes, h, es)
            && OnlySlotsFrom(b, s.bytes, es, 0)
            && (s.changed <==> s.bytes != b)
  {
    EntriesRefreshed(b, h, commands, sig, es, 0, false);
    SlotsAreNoHeaders(b, Refresh(b, h).value.bytes, commands, sig, es, 0);
  }

  lemma {:induction false} PageHeld(b: seq<byte>, h: Hasher, d: Directory, page: nat)
    requires SlotHolds(b, h, d, page)
    ensures RefreshPage(b, h, d, page) == Ok(Refreshed(b, false))
  {
  }

  lemma {:induction false} PagesHeld(b: seq<byte>, h: Hasher, d: Directory, page: nat)
    requires DirectoryHolds(b, h, d, page)
    ensures Each(b, PageStep(h, d), page, d.pages, false) == Ok(Refreshed(b, false))
    decreases d.pages - page
  {
    if page < d.pages {
      PageHeld(b, h, d, page);
      EachUnfolds(b, PageStep(h, d), page, d.pages, false, Refreshed(b, false));
      hide Each, RefreshPage, SlotHolds;
      PagesHeld(b, h, d, page + 1);
    } else {
      EachEnds(b, PageStep(h, d), page, d.pages, false);
    }
  }

  lemma {:induction false} EntriesHeld(b: seq<byte>, h: Hasher, sig: nat, es: seq<Entry>, i: nat)
    requires Lists(b, sig, es) && Verifies(b, h, es)
    ensures Each(b, EntryStep(h, sig), i, |es|, false) == Ok(Refreshed(b, false))
    decreases |es| - i
  {
    if i < |es| {
      assert ReadEntry(b, sig, i) == Ok(es[i]);
      EntryHeld(b, h, sig, es[i], i);
      hide Each, RefreshEntry, Lists, Verifies;
      EachUnfolds(b, EntryStep(h, sig), i, |es|, false, Refreshed(b, false));
      EntriesHeld(b, h, sig, es, i + 1);
    } else {
      EachEnds(b, EntryStep(h, sig), i, |es|, false);
    }
  }

  lemma {:induction false} EntryHeld(b: seq<byte>, h: Hasher, sig: nat, e: Entry, i: nat)
    requires ReadEntry(b, sig, i) == Ok(e) && EntryHolds(b, h, e)
    ensures RefreshEntry(b, h, sig, i) == Ok(Refreshed(b, false))
  {
    hide ReadEntry;
    if e.Code? {
      PagesHeld(b, h, e.directory, 0);
    }
  }

  /** `refreshAdhocSignature` reports no change exactly when the signature verifies as it is. */
  lemma {:induction false} UnchangedExactlyWhenValid(b: seq<byte>, h: Hasher, commands: nat, sig: nat, es: seq<Entry>)
    requires WellFormed(b, commands, sig, es)
    ensures Refresh(b, h) == Ok(Refreshed(b, false)) <==> Verifies(b, h, es)
  {
    RefreshVerifies(b, h, commands, sig, es);
    if Verifies(b, h, es) {
      EntriesHeld(b, h, sig, es, 0);
    }
  }

  /** A second refresh returns false and leaves the bytes as they are. */
  lemma {:induction false} RefreshTwice(b: seq<byte>, h: Hasher, commands: nat, sig: nat, es: seq<Entry>)
    requires WellFormed(b, commands, sig, es)
    ensures Refresh(b, h).Ok? && Refresh(Refresh(b, h).value.bytes, h) == Ok(Refreshed(Refresh(b, h).value.bytes, false))
  {
    RefreshVerifies(b, h, commands, sig, es);
    UnchangedExactlyWhenValid(Refresh(b, h).value.bytes, h, commands, sig, es);
  }
}
