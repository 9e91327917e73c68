/** The post-link version stamp of scripts/stamp-native-version.ts: a magic, the version, NUL padding. */
module VersionStamp {
  import opened Prelude

  newtype byte = x: int | 0 <= x < 256

  const MAGIC_SIZE := 25
  const VERSION_STAMP_SIZE := 64
  const PAYLOAD := VERSION_STAMP_SIZE - MAGIC_SIZE
  const MAX_VERSION := PAYLOAD - 1

  // ---------------------------------------------------------------- the magic

  /** `PI_NATIVES_VERSION_STAMP:` */
  function MagicBytes(): (m: seq<byte>)
    ensures |m| == MAGIC_SIZE
  {
    [80, 73, 95, 78, 65, 84, 73, 86, 69, 83, 95, 86, 69, 82, 83, 73, 79, 78, 95, 83, 84, 65, 77, 80, 58]
  }

  /** The first two letters come together again at `k`. */
  predicate Restarts(m: seq<byte>, k: nat)
    requires k + 1 < |m|
  {
    m[k] == m[0] && m[k + 1] == m[1]
  }

  /** All that stamping needs of a magic: its length, no NUL in it, and no way to overlap itself. */
  ghost predicate IsMagic(m: seq<byte>) {
    && |m| == MAGIC_SIZE
    && (forall i :: 0 <= i < MAGIC_SIZE ==> m[i] != 0)
    && (forall k: nat :: 0 < k < MAGIC_SIZE - 1 ==> !Restarts(m, k))
    && m[MAGIC_SIZE - 1] != m[0]
  }

  lemma {:induction false} MagicQualifies()
    ensures IsMagic(MagicBytes())
  {
    var m := MagicBytes();
    forall k: nat | 0 < k < MAGIC_SIZE - 1 ensures !Restarts(m, k) {
      assert m[k] == 80 ==> k == 23;
    }
  }

  // ---------------------------------------------------------------- searching

  predicate OccursAt(b: seq<byte>, m: seq<byte>, at: int) {
    0 <= at && at + |m| <= |b| && forall i :: 0 <= i < |m| ==> b[at + i] == m[i]
  }

  predicate Contains(b: seq<byte>, m: seq<byte>) {
    exists at :: 0 <= at <= |b| && OccursAt(b, m, at)
  }

  /** `Buffer.indexOf`: the first occurrence at or after `from`, or -1. */
  function IndexOf(b: seq<byte>, m: seq<byte>, from: nat): (r: int)
    ensures r == -1 || (from <= r && OccursAt(b, m, r))
    ensures forall at :: from <= at && (at < r || r == -1) ==> !OccursAt(b, m, at)
    decreases |b| - from
  {
    if from + |m| > |b| then -1
    else if OccursAt(b, m, from) then from
    else IndexOf(b, m, from + 1)
  }

  /** The magic occurs at `at` and nowhere else. */
  ghost predicate OnlyAt(b: seq<byte>, m: seq<byte>, at: int) {
    OccursAt(b, m, at) && forall k :: OccursAt(b, m, k) ==> k == at
  }

  // ---------------------------------------------------------------- stamping

  datatype StampError = Empty | TooLong | HasNul | NoMagic | ManyMagics | Truncated

  datatype Stamped = Stamped(bytes: seq<byte>, changed: bool)

  /** The version followed by NULs up to the end of the slot. */
  function PayloadFor(version: seq<byte>): (p: seq<byte>)
    requires |version| <= MAX_VERSION
    ensures |p| == PAYLOAD
    ensures forall i :: 0 <= i < PAYLOAD ==> p[i] == (if i < |version| then version[i] else 0)
  {
    version + seq(PAYLOAD - |version|, _ => 0)
  }

  /** Why a version cannot be written into a slot. */
  function CheckVersion(version: seq<byte>): Option<StampError> {
    if |version| == 0 then Some(Empty)
    else if |version| > MAX_VERSION then Some(TooLong)
    else if 0 in version then Some(HasNul)
    else None
  }

  /** Where the only slot is. */
  function FindSlot(b: seq<byte>, m: seq<byte>): Result<nat, StampError> {
    var first := IndexOf(b, m, 0);
    if first == -1 then Err(NoMagic)
    else if IndexOf(b, m, first + 1) != -1 then Err(ManyMagics)
    else if first + VERSION_STAMP_SIZE > |b| then Err(Truncated)
    else Ok(first)
  }

  function Overwrite(b: seq<byte>, at: nat, p: seq<byte>): (r: seq<byte>)
    requires at + |p| <= |b|
    ensures |r| == |b|
    ensures forall i :: 0 <= i < |b| ==> r[i] == (if at <= i < at + |p| then p[i - at] else b[i])
  {
    b[..at] + p + b[at + |p|..]
  }

  function Stamp(b: seq<byte>, m: seq<byte>, version: seq<byte>): Result<Stamped, StampError>
    requires |m| == MAGIC_SIZE
  {
    if CheckVersion(version).Some? then Err(CheckVersion(version).value)
    else if FindSlot(b, m).Err? then Err(FindSlot(b, m).error)
    else
      var after := Overwrite(b, FindSlot(b, m).value + MAGIC_SIZE, PayloadFor(version));
      Ok(Stamped(after, after != b))
  }

  /** Write the version into the slot in place; false when the slot holds it already. */
  method StampNativeBytes(bytes: array<byte>, m: seq<byte>, version: seq<byte>) returns (r: Result<bool, StampError>)
    requires |m| == MAGIC_SIZE
    modifies bytes
    ensures match Stamp(old(bytes[..]), m, version)
            case Err(e) => r == Err(e) && bytes[..] == old(bytes[..])
            case Ok(s) => r == Ok(s.changed) && bytes[..] == s.bytes
  {
    if |version| == 0 {
      return Err(Empty);
    }
    if |version| > MAX_VERSION {
      return Err(TooLong);
    }
    if 0 in version {
      return Err(HasNul);
    }
    var first := IndexOf(bytes[..], m, 0);
    if first == -1 {
      return Err(NoMagic);
    }
    if IndexOf(bytes[..], m, first + 1) != -1 {
      return Err(ManyMagics);
    }
    var payloadStart, payloadEnd := first + MAGIC_SIZE, first + VERSION_STAMP_SIZE;
    if payloadEnd > bytes.Length {
      return Err(Truncated);
    }
    var desired := PayloadFor(version);
    ghost var before := bytes[..];
    ghost var after := Overwrite(before, payloadStart, desired);
    assert bytes[payloadStart..payloadEnd] == before[payloadStart..payloadEnd];
    assert Stamp(before, m, version) == Ok(Stamped(after, after != before));
    assert before[payloadStart..payloadEnd] == desired <==> after == before;
    hide *;
    if bytes[payloadStart..payloadEnd] == desired {
      return Ok(false);
    }
    CopyInto(bytes, payloadStart, desired);
    return Ok(true);
  }

  /** Which error is reported: the first reason there is, in the order of the checks; none means that the slot is written. */
  lemma {:induction false} StampRefuses(b: seq<byte>, m: seq<byte>, version: seq<byte>)
    requires |m| == MAGIC_SIZE
    ensures var r, fine := Stamp(b, m, version), 0 < |version| <= MAX_VERSION && 0 !in version;
            && (r == Err(Empty) <==> version == [])
            && (r == Err(TooLong) <==> |version| > MAX_VERSION)
            && (r == Err(HasNul) <==> 0 < |version| <= MAX_VERSION && 0 in version)
            && (r == Err(NoMagic) <==> fine && !Contains(b, m))
            && (r == Err(ManyMagics) <==> fine && exists i, j :: i < j && OccursAt(b, m, i) && OccursAt(b, m, j))
            && (r == Err(Truncated) <==> fine && exists at: nat :: OnlyAt(b, m, at) && at + VERSION_STAMP_SIZE > |b|)
            && (r.Ok? <==> fine && exists at: nat :: OnlyAt(b, m, at) && at + VERSION_STAMP_SIZE <= |b|)
  {
    var first := IndexOf(b, m, 0);
    if Contains(b, m) {
      assert first != -1;
      assert IndexOf(b, m, first + 1) == -1 <==> OnlyAt(b, m, first);
    }
  }

  /** `Buffer.copy`. */
  method CopyInto(bytes: array<byte>, at: nat, p: seq<byte>)
    requires at + |p| <= bytes.Length
    modifies bytes
    ensures bytes[..] == Overwrite(old(bytes[..]), at, p)
  {
    ghost var before := bytes[..];
    for i := 0 to |p|
      invariant forall j :: 0 <= j < bytes.Length ==> bytes[j] == if at <= j < at + i then p[j - at] else before[j]
    {
      bytes[at + i] := p[i];
    }
  }

  // ---------------------------------------------------------------- restamping

  lemma {:induction false} FindSlotIs(b: seq<byte>, m: seq<byte>, at: nat)
    ensures FindSlot(b, m) == Ok(at) <==> OnlyAt(b, m, at) && at + VERSION_STAMP_SIZE <= |b|
  {
    if OnlyAt(b, m, at) {
      assert OccursAt(b, m, at);
    }
  }

  lemma {:induction false} OverlapRestarts(b: seq<byte>, m: seq<byte>, j: int, k: int)
    requires |m| == MAGIC_SIZE && OccursAt(b, m, j) && OccursAt(b, m, k) && j < k < j + MAGIC_SIZE
    ensures m[k - j] == m[0] && (k - j < MAGIC_SIZE - 1 ==> Restarts(m, k - j))
  {
    var d := k - j;
    assert b[j + d] == m[d] && b[k + 0] == m[0];
    if d < MAGIC_SIZE - 1 {
      assert b[j + (d + 1)] == m[d + 1] && b[k + 1] == m[1];
    }
  }

  /** Two occurrences of the magic cannot overlap. */
  lemma {:induction false} OccurrencesApart(b: seq<byte>, m: seq<byte>, j: int, k: int)
    requires IsMagic(m) && OccursAt(b, m, j) && OccursAt(b, m, k) && j < k
    ensures j + MAGIC_SIZE <= k
  {
    if k < j + MAGIC_SIZE {
      OverlapRestarts(b, m, j, k);
    }
  }

  lemma {:induction false} OccursElsewhere(b: seq<byte>, c: seq<byte>, m: seq<byte>, k: int)
    requires |b| == |c| && OccursAt(b, m, k)
    requires forall i :: k <= i < k + |m| ==> b[i] == c[i]
    ensures OccursAt(c, m, k)
  {
    forall i | 0 <= i < |m| ensures c[k + i] == m[i] {
      assert b[k + i] == m[i];
    }
  }

  /** The image with the version written into the slot at `at`. */
  function Written(b: seq<byte>, at: nat, version: seq<byte>): (r: seq<byte>)
    requires |version| <= MAX_VERSION && at + VERSION_STAMP_SIZE <= |b|
    ensures |r| == |b|
  {
    Overwrite(b, at + MAGIC_SIZE, PayloadFor(version))
  }

  /** After stamping, the image has one magic, and so can be stamped again, exactly when the version holds none. */
  lemma {:induction false} StampedSlot(b: seq<byte>, m: seq<byte>, version: seq<byte>, at: nat)
    requires IsMagic(m) && CheckVersion(version).None? && FindSlot(b, m) == Ok(at)
    ensures FindSlot(Written(b, at, version), m) == Ok(at) <==> !Contains(version, m)
  {
    var after := Written(b, at, version);
    FindSlotIs(b, m, at);
    FindSlotIs(after, m, at);
    OccursElsewhere(b, after, m, at);
    if Contains(version, m) {
      var k :| 0 <= k <= |version| && OccursAt(version, m, k);
      VersionInside(b, m, version, at, k);
    } else {
      forall k | OccursAt(after, m, k) ensures k == at {
        if k != at {
          OnlyInVersion(b, m, version, at, k);
        }
      }
    }
  }

  lemma {:induction false} VersionInside(b: seq<byte>, m: seq<byte>, version: seq<byte>, at: nat, k: int)
    requires |version| <= MAX_VERSION && at + VERSION_STAMP_SIZE <= |b| && OccursAt(version, m, k)
    ensures OccursAt(Written(b, at, version), m, at + MAGIC_SIZE + k)
  {
    var after := Written(b, at, version);
    forall i | 0 <= i < |m| ensures after[at + MAGIC_SIZE + k + i] == m[i] {
      assert version[k + i] == m[i];
    }
  }

  /** A second occurrence lies inside the version: it is not older, overlaps no magic and reaches no padding. */
  lemma {:induction false} OnlyInVersion(b: seq<byte>, m: seq<byte>, version: seq<byte>, at: nat, k: int)
    requires IsMagic(m) && CheckVersion(version).None? && OnlyAt(b, m, at) && at + VERSION_STAMP_SIZE <= |b|
    requires OccursAt(Written(b, at, version), m, k) && k != at
    ensures OccursAt(version, m, k - at - MAGIC_SIZE)
  {
    var after := Written(b, at, version);
    OccursElsewhere(b, after, m, at);
    if k < at {
      OccurrencesApart(after, m, k, at);
      OccursElsewhere(after, b, m, k);
    } else {
      OccurrencesApart(after, m, at, k);
      if k >= at + VERSION_STAMP_SIZE {
        OccursElsewhere(after, b, m, k);
      } else {
        EndsInVersion(b, m, version, at, k);
        forall i | 0 <= i < |m| ensures version[k - at - MAGIC_SIZE + i] == m[i] {
          assert after[k + i] == m[i];
        }
      }
    }
  }

  lemma {:induction false} EndsInVersion(b: seq<byte>, m: seq<byte>, version: seq<byte>, at: nat, k: int)
    requires IsMagic(m) && |version| <= MAX_VERSION && at + VERSION_STAMP_SIZE <= |b|
    requires OccursAt(Written(b, at, version), m, k) && at + MAGIC_SIZE <= k < at + VERSION_STAMP_SIZE
    ensures k + MAGIC_SIZE <= at + MAGIC_SIZE + |version|
  {
    var after := Written(b, at, version);
    forall i | k <= i < k + MAGIC_SIZE ensures after[i] != 0 {
      assert after[k + (i - k)] == m[i - k];
    }
    var nul := if k - at - MAGIC_SIZE >= |version| then k else at + MAGIC_SIZE + |version|;
    assert after[nul] == 0;
  }

  /** Stamping again with the same version changes nothing and says so. */
  lemma {:induction false} StampTwice(b: seq<byte>, m: seq<byte>, version: seq<byte>)
    requires IsMagic(m) && Stamp(b, m, version).Ok? && !Contains(version, m)
    ensures Stamp(Stamp(b, m, version).value.bytes, m, version) == Ok(Stamped(Stamp(b, m, version).value.bytes, false))
  {
    var at := FindSlot(b, m).value;
    StampedSlot(b, m, version, at);
    OverwriteTwice(b, at + MAGIC_SIZE, PayloadFor(version), PayloadFor(version));
    hide PayloadFor, Overwrite, IsMagic, Contains, FindSlot, CheckVersion;
  }

  /** Stamping `v1` and then `v2` gives the bytes of stamping `v2` alone, or its error. */
  lemma {:induction false} Restamp(b: seq<byte>, m: seq<byte>, v1: seq<byte>, v2: seq<byte>)
    requires IsMagic(m) && Stamp(b, m, v1).Ok? && !Contains(v1, m)
    ensures match (Stamp(Stamp(b, m, v1).value.bytes, m, v2), Stamp(b, m, v2))
            case (Ok(x), Ok(y)) => x.bytes == y.bytes
            case (Err(x), Err(y)) => x == y
            case _ => false
  {
    var at := FindSlot(b, m).value;
    StampedSlot(b, m, v1, at);
    if CheckVersion(v2).None? {
      OverwriteTwice(b, at + MAGIC_SIZE, PayloadFor(v1), PayloadFor(v2));
    }
  }

  lemma {:induction false} OverwriteTwice(b: seq<byte>, at: nat, p: seq<byte>, q: seq<byte>)
    requires |p| == |q| && at + |p| <= |b|
    ensures Overwrite(Overwrite(b, at, p), at, q) == Overwrite(b, at, q)
  {
  }

  // ---------------------------------------------------------------- reading the stamp back

  /** `containsVersionStamp`: the magic, the version and a NUL occur together. */
  predicate ContainsVersionStamp(b: seq<byte>, m: seq<byte>, version: seq<byte>) {
    version != [] && Contains(b, m + version + [0])
  }

  /** A stamped image carries the stamp of its version and of no other: a longer or shorter one does not match. */
  lemma {:induction false} StampReadsBack(b: seq<byte>, m: seq<byte>, version: seq<byte>, w: seq<byte>)
    requires IsMagic(m) && Stamp(b, m, version).Ok? && !Contains(version, m) && w != [] && 0 !in w
    ensures ContainsVersionStamp(Stamp(b, m, version).value.bytes, m, w) <==> w == version
  {
    var at := FindSlot(b, m).value;
    var after := Written(b, at, version);
    StampedSlot(b, m, version, at);
    FindSlotIs(after, m, at);
    if w == version {
      StampOccurs(b, m, at, version);
    }
    if ContainsVersionStamp(after, m, w) {
      var n := m + w + [0];
      assert n == m + (w + [0]);
      var k :| 0 <= k <= |after| && OccursAt(after, n, k);
      LongerOccurs(after, m, w + [0], k);
      SamePayload(b, m, at, version, w);
    }
  }

  lemma {:induction false} StampOccurs(b: seq<byte>, m: seq<byte>, at: nat, version: seq<byte>)
    requires |m| == MAGIC_SIZE && |version| <= MAX_VERSION && at + VERSION_STAMP_SIZE <= |b|
    requires OccursAt(Written(b, at, version), m, at)
    ensures OccursAt(Written(b, at, version), m + version + [0], at)
  {
    var after, n := Written(b, at, version), m + version + [0];
    forall i | 0 <= i < |n| ensures after[at + i] == n[i] {
      if i < MAGIC_SIZE {
        assert after[at + i] == m[i];
      }
    }
  }

  lemma {:induction false} LongerOccurs(b: seq<byte>, m: seq<byte>, rest: seq<byte>, k: int)
    requires OccursAt(b, m + rest, k)
    ensures OccursAt(b, m, k)
  {
    forall i | 0 <= i < |m| ensures b[k + i] == m[i] {
      assert (m + rest)[i] == m[i];
    }
  }

  /** The NUL that ends a version in the slot ends both at the same place. */
  lemma {:induction false} SamePayload(b: seq<byte>, m: seq<byte>, at: nat, version: seq<byte>, w: seq<byte>)
    requires |m| == MAGIC_SIZE && CheckVersion(version).None? && at + VERSION_STAMP_SIZE <= |b| && 0 !in w
    requires OccursAt(Written(b, at, version), m + w + [0], at)
    ensures w == version
  {
    var after, n := Written(b, at, version), m + w + [0];
    var start := at + MAGIC_SIZE;
    forall i | 0 <= i < |w| ensures after[start + i] == w[i] && w[i] != 0 {
      assert after[at + (MAGIC_SIZE + i)] == n[MAGIC_SIZE + i];
    }
    assert after[start + |w|] == 0 by {
      assert after[at + (MAGIC_SIZE + |w|)] == n[MAGIC_SIZE + |w|];
    }
    forall i | 0 <= i < |version| ensures after[start + i] == version[i] && version[i] != 0 {
    }
    assert after[start + |version|] == 0;
    assert forall j :: start <= j < start + |w| ==> after[j] != 0 by {
      forall j | start <= j < start + |w| ensures after[j] != 0 {
        assert w[j - start] != 0;
      }
    }
    assert forall j :: start <= j < start + |version| ==> after[j] != 0 by {
      forall j | start <= j < start + |version| ensures after[j] != 0 {
        assert version[j - start] != 0;
      }
    }
    assert |w| == |version|;
  }
}
