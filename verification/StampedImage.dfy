/** Stamping an addon and refreshing its signature in one write (`stampNativeVersion`). */
module StampedImage {
  import opened Prelude
  import opened VersionStamp
  import opened AdhocSignature
  import opened SignatureKept

  /** Thin or fat Mach-O images, in either byte order. */
  predicate IsMachO(b: seq<byte>) {
    U32BE(b, 0).Some? && U32BE(b, 0).value in {0xfeedface, 0xfeedfacf, 0xcefaedfe, 0xcffaedfe, 0xcafebabe, 0xbebafeca}
  }

  datatype VersionError = Stamping(stamp: StampError) | Signing(sign: SignError)

  /** The image to be written back, or None when the file is left alone. */
  function StampVersion(b: seq<byte>, m: seq<byte>, version: seq<byte>, sign: bool, h: Hasher)
    : Result<Option<seq<byte>>, VersionError>
    requires |m| == MAGIC_SIZE
  {
    match Stamp(b, m, version)
    case Err(e) => Err(Stamping(e))
    case Ok(s) =>
      if !s.changed then Ok(None)
      else if sign && IsMachO(s.bytes) then
        match Refresh(s.bytes, h)
        case Err(e) => Err(Signing(e))
        case Ok(t) => Ok(Some(t.bytes))
      else Ok(Some(s.bytes))
  }

  /** Patch the bytes read from the file; true when they are to be written back. */
  method StampNativeVersion(bytes: array<byte>, m: seq<byte>, version: seq<byte>, sign: bool, h: Hasher)
    returns (r: Result<bool, VersionError>)
    requires |m| == MAGIC_SIZE
    modifies bytes
    ensures match StampVersion(old(bytes[..]), m, version, sign, h)
            case Err(e) => r == Err(e)
            case Ok(None) => r == Ok(false) && bytes[..] == old(bytes[..])
            case Ok(Some(c)) => r == Ok(true) && bytes[..] == c
  {
    var stamped := StampNativeBytes(bytes, m, version);
    if stamped.Err? {
      return Err(Stamping(stamped.error));
    }
    if !stamped.value {
      return Ok(false);
    }
    if sign && IsMachO(bytes[..]) {
      var signed := RefreshAdhocSignature(bytes, h);
      if signed.Err? {
        return Err(Signing(signed.error));
      }
    }
    return Ok(true);
  }

  /** What the file holds afterwards. */
  function FileAfter(b: seq<byte>, m: seq<byte>, version: seq<byte>, h: Hasher): seq<byte>
    requires |m| == MAGIC_SIZE
  {
    var r := StampVersion(b, m, version, true, h);
    if r.Ok? && r.value.Some? then r.value.value else b
  }

  /** Stamping leaves the first bytes of a file alone, so a Mach-O image stays one. */
  lemma {:induction false} StampKeepsKind(b: seq<byte>, m: seq<byte>, version: seq<byte>)
    requires |m| == MAGIC_SIZE && Stamp(b, m, version).Ok?
    ensures IsMachO(Stamp(b, m, version).value.bytes) == IsMachO(b)
  {
    var c := Stamp(b, m, version).value.bytes;
    assert |c| == |b| && forall x :: 0 <= x < MAGIC_SIZE && x < |b| ==> c[x] == b[x];
    hide Stamp;
  }

  /**
   Without signing, and for an image that is no Mach-O, the file is written as it was, but for the slot, which holds the version
   and NULs; it is not written if that is what the slot holds.
   */
  lemma {:induction false} StampsOnly(b: seq<byte>, m: seq<byte>, version: seq<byte>, sign: bool, h: Hasher)
    requires |m| == MAGIC_SIZE && Stamp(b, m, version).Ok? && (sign ==> !IsMachO(b))
    ensures FindSlot(b, m).Ok? && |version| <= MAX_VERSION
    ensures var at, end := FindSlot(b, m).value + MAGIC_SIZE, FindSlot(b, m).value + VERSION_STAMP_SIZE;
            var zeros := seq(PAYLOAD - |version|, _ => 0 as byte);
            && end <= |b|
            && var now := b[..at] + version + zeros + b[end..];
            StampVersion(b, m, version, sign, h) == Ok(if now == b then None else Some(now))
  {
    StampKeepsKind(b, m, version);
    var at := FindSlot(b, m).value + MAGIC_SIZE;
    var zeros := seq(PAYLOAD - |version|, _ => 0 as byte);
    assert Stamp(b, m, version).value.bytes == b[..at] + version + zeros + b[at + PAYLOAD..];
    hide FindSlot, Refresh, IsMachO, CheckVersion, Overwrite, PayloadFor;
  }

  // ---------------------------------------------------------------- the signature stays valid

  /** The slot lies between the load commands and the signature. */
  ghost predicate SlotInCode(b: seq<byte>, m: seq<byte>, commands: nat, sig: nat) {
    FindSlot(b, m).Ok? && commands <= FindSlot(b, m).value + MAGIC_SIZE && FindSlot(b, m).value + VERSION_STAMP_SIZE <= sig
  }

  predicate InPayload(at: nat, x: int) {
    at + MAGIC_SIZE <= x < at + VERSION_STAMP_SIZE
  }

  lemma {:induction false} ThinIsMachO(b: seq<byte>)
    requires U32LE(b, 0) == Some(MH_MAGIC_64)
    ensures IsMachO(b)
  {
    assert b[0] == 0xcf && b[1] == 0xfa && b[2] == 0xed && b[3] == 0xfe;
  }

  lemma {:induction false} StampKeepsHeaders(b: seq<byte>, m: seq<byte>, version: seq<byte>, commands: nat, sig: nat, es: seq<Entry>)
    requires |m| == MAGIC_SIZE && WellFormed(b, commands, sig, es) && SlotInCode(b, m, commands, sig)
    requires Stamp(b, m, version).Ok?
    ensures WellFormed(Stamp(b, m, version).value.bytes, commands, sig, es)
  {
    var c := Stamp(b, m, version).value.bytes;
    assert SameHeaders(b, c, commands, sig, es);
    HeadersDecide(b, c, commands, sig, es);
  }

  ghost predicate Carries(c: seq<byte>, at: nat, version: seq<byte>)
    requires |version| <= MAX_VERSION
  {
    at + VERSION_STAMP_SIZE <= |c| && forall i :: 0 <= i < PAYLOAD ==> c[at + MAGIC_SIZE + i] == PayloadFor(version)[i]
  }

  ghost predicate OnlyPayloadAndSlots(b: seq<byte>, c: seq<byte>, at: nat, es: seq<Entry>) {
    |c| == |b| && forall x :: 0 <= x < |b| && !InPayload(at, x) && !InSlotsFrom(es, 0, x) ==> c[x] == b[x]
  }

  /** `c` carries the version, differs from `b` only in the payload and the hash slots, and verifies. */
  ghost predicate SignedStamp(b: seq<byte>, c: seq<byte>, at: nat, version: seq<byte>, h: Hasher, es: seq<Entry>)
    requires |version| <= MAX_VERSION
  {
    Carries(c, at, version) && OnlyPayloadAndSlots(b, c, at, es) && Verifies(c, h, es)
  }

  lemma {:induction false} RefreshCarries(b: seq<byte>, c: seq<byte>, e: seq<byte>, at: nat, version: seq<byte>, sig: nat, es: seq<Entry>)
    requires |version| <= MAX_VERSION && at + VERSION_STAMP_SIZE <= sig && Layout(es, sig, |b|)
    requires Carries(c, at, version) && OnlyPayloadAndSlots(b, c, at, es) && OnlySlotsFrom(c, e, es, 0)
    ensures Carries(e, at, version) && OnlyPayloadAndSlots(b, e, at, es)
  {
    forall x | InSlotsFrom(es, 0, x) ensures sig <= x {
      SlotsApartFromHeaders(es, sig, |b|, 0, x);
    }
    forall i | 0 <= i < PAYLOAD ensures e[at + MAGIC_SIZE + i] == PayloadFor(version)[i] {
      assert c[at + MAGIC_SIZE + i] == PayloadFor(version)[i];
    }
  }

  lemma {:induction false} StampThenRefresh(b: seq<byte>, c: seq<byte>, at: nat, version: seq<byte>, h: Hasher, commands: nat, sig: nat,
                         es: seq<Entry>)
    requires |version| <= MAX_VERSION && at + VERSION_STAMP_SIZE <= sig && WellFormed(c, commands, sig, es)
    requires Carries(c, at, version) && OnlyPayloadAndSlots(b, c, at, es)
    ensures Refresh(c, h).Ok? && WellFormed(Refresh(c, h).value.bytes, commands, sig, es)
    ensures SignedStamp(b, Refresh(c, h).value.bytes, at, version, h, es)
  {
    RefreshVerifies(c, h, commands, sig, es);
    RefreshCarries(b, c, Refresh(c, h).value.bytes, at, version, sig, es);
  }

  /**
   Stamping a signed image succeeds; afterwards the file holds the version, its signature verifies if it did before or
   if the stamp changed anything, and only payload and hash slots differ.
   */
  lemma {:induction false} StampKeepsSignature(b: seq<byte>, m: seq<byte>, version: seq<byte>, h: Hasher, commands: nat, sig: nat, es: seq<Entry>)
    requires |m| == MAGIC_SIZE && WellFormed(b, commands, sig, es) && SlotInCode(b, m, commands, sig)
    requires Stamp(b, m, version).Ok?
    requires Verifies(b, h, es) || Stamp(b, m, version).value.changed
    ensures StampVersion(b, m, version, true, h).Ok?
    ensures WellFormed(FileAfter(b, m, version, h), commands, sig, es)
    ensures SignedStamp(b, FileAfter(b, m, version, h), FindSlot(b, m).value, version, h, es)
  {
    var s, at := Stamp(b, m, version).value, FindSlot(b, m).value;
    StampKeepsHeaders(b, m, version, commands, sig, es);
    StampedCarries(b, m, version, es);
    if s.changed {
      hide WellFormed, Refresh, Stamp, StampVersion, FileAfter, Carries, OnlyPayloadAndSlots, Verifies, SignedStamp, FindSlot;
      StampThenRefresh(b, s.bytes, at, version, h, commands, sig, es);
      ChangedFile(b, m, version, h);
    } else {
      hide WellFormed, Refresh, Stamp, Carries, OnlyPayloadAndSlots, Verifies, FindSlot;
      assert FileAfter(b, m, version, h) == s.bytes;
    }
  }

  lemma {:induction false} StampedCarries(b: seq<byte>, m: seq<byte>, version: seq<byte>, es: seq<Entry>)
    requires |m| == MAGIC_SIZE && Stamp(b, m, version).Ok?
    ensures |version| <= MAX_VERSION && FindSlot(b, m).Ok?
    ensures var s, at := Stamp(b, m, version).value, FindSlot(b, m).value;
            && Carries(s.bytes, at, version) && OnlyPayloadAndSlots(b, s.bytes, at, es) && (!s.changed ==> s.bytes == b)
  {
  }

  lemma {:induction false} ChangedFile(b: seq<byte>, m: seq<byte>, version: seq<byte>, h: Hasher)
    requires |m| == MAGIC_SIZE && Stamp(b, m, version).Ok? && Stamp(b, m, version).value.changed
    requires Signature(Stamp(b, m, version).value.bytes).Ok? && Refresh(Stamp(b, m, version).value.bytes, h).Ok?
    ensures StampVersion(b, m, version, true, h).Ok?
    ensures FileAfter(b, m, version, h) == Refresh(Stamp(b, m, version).value.bytes, h).value.bytes
  {
    ThinIsMachO(Stamp(b, m, version).value.bytes);
  }

  /** A hash slot changes only if its page holds payload bytes. */
  lemma {:induction false} OtherPagesKeepTheirSlots(b: seq<byte>, m: seq<byte>, version: seq<byte>, h: Hasher, commands: nat, sig: nat,
                                 es: seq<Entry>, i: nat, page: nat)
    requires |m| == MAGIC_SIZE && WellFormed(b, commands, sig, es) && SlotInCode(b, m, commands, sig)
    requires Stamp(b, m, version).Ok? && Verifies(b, h, es)
    requires i < |es| && es[i].Code? && page < es[i].directory.pages
    requires NoPayload(es[i].directory, page, FindSlot(b, m).value)
    ensures var d := es[i].directory;
            SameOn(b, FileAfter(b, m, version, h), SlotAt(d, page), SlotAt(d, page) + d.hash.Size())
  {
    var d, c, at := es[i].directory, FileAfter(b, m, version, h), FindSlot(b, m).value;
    StampKeepsSignature(b, m, version, h, commands, sig, es);
    PageKept(b, c, d, page, at, sig, es);
    SlotsDetermined(b, c, h, es, i, page);
  }

  /** The page holds no byte of the payload at `at`. */
  ghost predicate NoPayload(d: Directory, page: nat, at: nat) {
    forall x :: Times(page, d.pageSize) <= x < Times(page, d.pageSize) + d.pageSize ==> !InPayload(at, x)
  }

  lemma {:induction false} PageKept(b: seq<byte>, c: seq<byte>, d: Directory, page: nat, at: nat, sig: nat, es: seq<Entry>)
    requires Layout(es, sig, |b|) && d.codeLimit <= sig && OnlyPayloadAndSlots(b, c, at, es) && NoPayload(d, page, at)
    ensures PageBytes(b, d, page) == PageBytes(c, d, page)
  {
    forall x | InSlotsFrom(es, 0, x) ensures sig <= x {
      SlotsApartFromHeaders(es, sig, |b|, 0, x);
    }
    var start := Times(page, d.pageSize);
    SubSame(b, c, start, if start + d.pageSize < d.codeLimit then start + d.pageSize else d.codeLimit);
  }

  /** Two valid images with the same page have the same digest in its slot. */
  lemma {:induction false} SlotsDetermined(b: seq<byte>, c: seq<byte>, h: Hasher, es: seq<Entry>, i: nat, page: nat)
    requires Verifies(b, h, es) && Verifies(c, h, es) && |b| == |c|
    requires i < |es| && es[i].Code? && page < es[i].directory.pages && SlotsEnd(es[i].directory) <= |b|
    requires PageBytes(b, es[i].directory, page) == PageBytes(c, es[i].directory, page)
    ensures var d := es[i].directory; SameOn(b, c, SlotAt(d, page), SlotAt(d, page) + d.hash.Size())
  {
    var d := es[i].directory;
    assert EntryHolds(b, h, es[i]) && EntryHolds(c, h, es[i]);
    assert SlotHolds(b, h, d, page) && SlotHolds(c, h, d, page);
    SlotInside(d, page);
    assert PageDigest(b, h, d, page) == PageDigest(c, h, d, page);
    var at, end := SlotAt(d, page), SlotAt(d, page) + d.hash.Size();
    assert Sub(b, at, end) == Sub(c, at, end);
    hide Verifies, EntryHolds, SlotHolds, PageDigest, PageBytes, SlotAt;
    SubEqual(b, c, at, end);
  }

  lemma {:induction false} SubEqual(b: seq<byte>, c: seq<byte>, lo: nat, hi: nat)
    requires |b| == |c| && lo <= hi <= |b| && Sub(b, lo, hi) == Sub(c, lo, hi)
    ensures SameOn(b, c, lo, hi)
  {
    forall x | lo <= x < hi ensures b[x] == c[x] {
      assert Sub(b, lo, hi)[x - lo] == b[x] && Sub(c, lo, hi)[x - lo] == c[x];
    }
  }

  // ---------------------------------------------------------------- stamping a signed image again

  lemma {:induction false} PageOf(d: Directory, n: nat, x: nat) returns (page: nat)
    requires d.slots <= x < SlotAt(d, n)
    ensures page < n && SlotAt(d, page) <= x < SlotAt(d, page) + d.hash.Size()
  {
    if x >= SlotAt(d, n - 1) {
      page := n - 1;
    } else {
      page := PageOf(d, n - 1, x);
    }
  }

  /** Outside its hash slots a valid image determines them. */
  lemma {:induction false} ValidIsUnique(b: seq<byte>, c: seq<byte>, h: Hasher, commands: nat, sig: nat, es: seq<Entry>)
    requires WellFormed(b, commands, sig, es) && Verifies(b, h, es) && Verifies(c, h, es) && OnlySlotsFrom(b, c, es, 0)
    ensures b == c
  {
    SlotsAreNoHeaders(b, c, commands, sig, es, 0);
    forall x | 0 <= x < |b| && InSlotsFrom(es, 0, x) ensures b[x] == c[x] {
      var j :| 0 <= j < |es| && InSlots(es[j], x);
      var d := es[j].directory;
      var page := PageOf(d, d.pages, x);
      CodeKept(b, c, d, page);
      SlotsDetermined(b, c, h, es, j, page);
    }
  }

  lemma {:induction false} CodeKept(b: seq<byte>, c: seq<byte>, d: Directory, page: nat)
    requires SameOn(b, c, 0, d.codeLimit)
    ensures PageBytes(b, d, page) == PageBytes(c, d, page)
  {
    var start := Times(page, d.pageSize);
    SubSame(b, c, start, if start + d.pageSize < d.codeLimit then start + d.pageSize else d.codeLimit);
  }

  /** A refreshed digest completes an occurrence of the magic at `k`. */
  ghost predicate Completed(b: seq<byte>, c: seq<byte>, m: seq<byte>, es: seq<Entry>, k: int) {
    OccursAt(c, m, k) && exists x :: k <= x < k + |m| && x < |b| && x < |c| && InSlotsFrom(es, 0, x) && b[x] != c[x]
  }

  /** What occurs after stamping alone occurs after the refresh, and the other way round, unless a digest completes it. */
  lemma {:induction false} OccursAlike(b: seq<byte>, c: seq<byte>, m: seq<byte>, version: seq<byte>, at: nat, h: Hasher, sig: nat,
                                       es: seq<Entry>, k: int)
    requires |m| == MAGIC_SIZE && |version| <= MAX_VERSION && at + VERSION_STAMP_SIZE <= sig && Layout(es, sig, |b|)
    requires SignedStamp(b, c, at, version, h, es) && at + VERSION_STAMP_SIZE <= |b|
    ensures OccursAt(c, m, k) && !Completed(b, c, m, es, k) ==> OccursAt(Written(b, at, version), m, k)
    ensures OccursAt(Written(b, at, version), m, k) && k + |m| <= sig ==> OccursAt(c, m, k) && !Completed(b, c, m, es, k)
  {
    var w := Written(b, at, version);
    forall x | 0 <= x < |b| && !InSlotsFrom(es, 0, x) ensures w[x] == c[x] {
      if InPayload(at, x) {
        assert c[at + MAGIC_SIZE + (x - at - MAGIC_SIZE)] == PayloadFor(version)[x - at - MAGIC_SIZE];
      }
    }
    forall x | InSlotsFrom(es, 0, x) ensures sig <= x && !InPayload(at, x) {
      SlotsApartFromHeaders(es, sig, |b|, 0, x);
    }
    if OccursAt(c, m, k) && !Completed(b, c, m, es, k) {
      OccursElsewhere(c, w, m, k);
    }
    if OccursAt(w, m, k) && k + |m| <= sig {
      OccursElsewhere(w, c, m, k);
    }
  }

  /** The slot is found again exactly when neither the version holds the magic nor a refreshed digest completes one. */
  lemma {:induction false} SlotFoundAgain(b: seq<byte>, c: seq<byte>, m: seq<byte>, version: seq<byte>, at: nat, h: Hasher, sig: nat,
                                          es: seq<Entry>)
    requires IsMagic(m) && CheckVersion(version).None? && FindSlot(b, m) == Ok(at)
    requires SignedStamp(b, c, at, version, h, es) && at + VERSION_STAMP_SIZE <= sig && Layout(es, sig, |b|)
    ensures FindSlot(c, m) == Ok(at) <==> !Contains(version, m) && !exists k :: Completed(b, c, m, es, k)
  {
    FindSlotIs(b, m, at);
    FindSlotIs(c, m, at);
    MagicStays(b, c, m, version, at, h, sig, es);
    hide *;
    if Contains(version, m) {
      MagicInVersion(b, c, m, version, at, h, sig, es);
    } else {
      OnlyMagic(b, c, m, version, at, h, sig, es);
    }
  }

  /** The magic of the slot is not touched. */
  lemma {:induction false} MagicStays(b: seq<byte>, c: seq<byte>, m: seq<byte>, version: seq<byte>, at: nat, h: Hasher, sig: nat,
                                      es: seq<Entry>)
    requires |m| == MAGIC_SIZE && |version| <= MAX_VERSION && at + VERSION_STAMP_SIZE <= sig && Layout(es, sig, |b|)
    requires SignedStamp(b, c, at, version, h, es) && at + VERSION_STAMP_SIZE <= |b| && OnlyAt(b, m, at)
    ensures OccursAt(c, m, at) && !Completed(b, c, m, es, at) && |b| == |c|
  {
    OccursElsewhere(b, Written(b, at, version), m, at);
    OccursAlike(b, c, m, version, at, h, sig, es, at);
  }

  lemma {:induction false} MagicInVersion(b: seq<byte>, c: seq<byte>, m: seq<byte>, version: seq<byte>, at: nat, h: Hasher, sig: nat,
                                          es: seq<Entry>)
    requires |m| == MAGIC_SIZE && |version| <= MAX_VERSION && at + VERSION_STAMP_SIZE <= sig && Layout(es, sig, |b|)
    requires SignedStamp(b, c, at, version, h, es) && at + VERSION_STAMP_SIZE <= |b| && Contains(version, m)
    ensures !OnlyAt(c, m, at)
  {
    hide *;
    var k := OccursIn(version, m);
    VersionFits();
    VersionInside(b, m, version, at, k);
    OccursAlike(b, c, m, version, at, h, sig, es, at + MAGIC_SIZE + k);
    NotOnly(c, m, at, at + MAGIC_SIZE + k);
  }

  lemma {:induction false} VersionFits()
    ensures 0 < MAGIC_SIZE && MAGIC_SIZE + MAX_VERSION <= VERSION_STAMP_SIZE
  {
  }

  lemma {:induction false} OccursIn(version: seq<byte>, m: seq<byte>) returns (k: nat)
    requires Contains(version, m)
    ensures OccursAt(version, m, k) && k + |m| <= |version|
  {
    k :| 0 <= k <= |version| && OccursAt(version, m, k);
  }

  lemma {:induction false} NotOnly(c: seq<byte>, m: seq<byte>, at: int, k: int)
    requires OccursAt(c, m, k) && k != at
    ensures !OnlyAt(c, m, at)
  {
  }

  lemma {:induction false} OnlyMagic(b: seq<byte>, c: seq<byte>, m: seq<byte>, version: seq<byte>, at: nat, h: Hasher, sig: nat,
                                     es: seq<Entry>)
    requires IsMagic(m) && CheckVersion(version).None? && FindSlot(b, m) == Ok(at) && !Contains(version, m)
    requires SignedStamp(b, c, at, version, h, es) && at + VERSION_STAMP_SIZE <= sig && Layout(es, sig, |b|)
    requires at + VERSION_STAMP_SIZE <= |b| && OccursAt(c, m, at) && !Completed(b, c, m, es, at)
    ensures OnlyAt(c, m, at) <==> !exists k :: Completed(b, c, m, es, k)
  {
    StampedSlot(b, m, version, at);
    FindSlotIs(Written(b, at, version), m, at);
    NotCompleted(b, c, m, es);
    hide SignedStamp, OccursAt, Written, Contains, Completed, FindSlot, IsMagic, Layout;
    forall k | OccursAt(c, m, k) && !Completed(b, c, m, es, k) ensures k == at {
      OccursAlike(b, c, m, version, at, h, sig, es, k);
    }
  }

  lemma {:induction false} NotCompleted(b: seq<byte>, c: seq<byte>, m: seq<byte>, es: seq<Entry>)
    ensures forall k :: Completed(b, c, m, es, k) ==> OccursAt(c, m, k)
  {
  }

  /**
   Stamping a validly signed image twice leaves what stamping the second version alone leaves, hash slots included,
   unless the first version contains the magic or a refreshed digest completes an occurrence of it.
   */
  lemma {:induction false} RestampSigned(b: seq<byte>, m: seq<byte>, v1: seq<byte>, v2: seq<byte>, h: Hasher, commands: nat, sig: nat, es: seq<Entry>)
    requires IsMagic(m) && WellFormed(b, commands, sig, es) && SlotInCode(b, m, commands, sig)
    requires Verifies(b, h, es) && Stamp(b, m, v1).Ok? && Stamp(b, m, v2).Ok?
    requires !Contains(v1, m) && forall k :: !Completed(b, FileAfter(b, m, v1, h), m, es, k)
    ensures FindSlot(FileAfter(b, m, v1, h), m) == FindSlot(b, m)
    ensures FileAfter(FileAfter(b, m, v1, h), m, v2, h) == FileAfter(b, m, v2, h)
  {
    var c, at := FileAfter(b, m, v1, h), FindSlot(b, m).value;
    StampKeepsSignature(b, m, v1, h, commands, sig, es);
    SlotFoundAgain(b, c, m, v1, at, h, sig, es);
    StampKeepsSignature(b, m, v2, h, commands, sig, es);
    StampKeepsSignature(c, m, v2, h, commands, sig, es);
    hide WellFormed, Verifies, FileAfter, FindSlot, Stamp, IsMagic, Contains, OnlySlotsFrom, Completed;
    SamePayloads(b, c, FileAfter(b, m, v2, h), FileAfter(c, m, v2, h), at, v1, v2, h, es);
    ValidIsUnique(FileAfter(b, m, v2, h), FileAfter(c, m, v2, h), h, commands, sig, es);
  }

  lemma {:induction false} SamePayloads(b: seq<byte>, c: seq<byte>, b2: seq<byte>, c2: seq<byte>, at: nat, v1: seq<byte>, v2: seq<byte>,
                     h: Hasher, es: seq<Entry>)
    requires |v1| <= MAX_VERSION && |v2| <= MAX_VERSION
    requires SignedStamp(b, c, at, v1, h, es) && SignedStamp(b, b2, at, v2, h, es) && SignedStamp(c, c2, at, v2, h, es)
    ensures OnlySlotsFrom(b2, c2, es, 0)
  {
    forall x | 0 <= x < |b| && !InSlotsFrom(es, 0, x) ensures b2[x] == c2[x] {
      if InPayload(at, x) {
        var i := x - at - MAGIC_SIZE;
        assert b2[at + MAGIC_SIZE + i] == PayloadFor(v2)[i] == c2[at + MAGIC_SIZE + i];
      }
    }
  }
}
