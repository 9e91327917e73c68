/** Refreshing the page hashes of an embedded ad-hoc signature (scripts/stamp-native-version.ts). */
module AdhocSignature {
  import opened Prelude
  import opened VersionStamp

  // ---------------------------------------------------------------- reading the image

  const MH_MAGIC_64 := 0xfeedfacf
  const LC_CODE_SIGNATURE := 0x1d
  const CSMAGIC_EMBEDDED_SIGNATURE := 0xfade0cc0
  const CSMAGIC_CODEDIRECTORY := 0xfade0c02

  /** `getUint32`, big endian; None where it would throw. */
  function U32BE(b: seq<byte>, at: nat): Option<nat> {
    if at + 4 > |b| then None
    else Some(((b[at] as int * 256 + b[at + 1] as int) * 256 + b[at + 2] as int) * 256 + b[at + 3] as int)
  }

  /** `getUint32`, little endian. */
  function U32LE(b: seq<byte>, at: nat): Option<nat> {
    if at + 4 > |b| then None
    else Some(((b[at + 3] as int * 256 + b[at + 2] as int) * 256 + b[at + 1] as int) * 256 + b[at] as int)
  }

  /** `subarray`, which clamps both ends. */
  function Sub(b: seq<byte>, lo: nat, hi: nat): seq<byte> {
    var end := if hi < |b| then hi else |b|;
    if lo < end then b[lo..end] else []
  }

  function Pow2(k: nat): (p: nat)
    ensures p > 0
  {
    if k == 0 then 1 else 2 * Pow2(k - 1)
  }

  datatype SignError = OutOfRange | NotThin64 | NotEmbedded | SignedByIdentity | UnsupportedHash

  datatype Algorithm = Sha1 | Sha256

  function DigestSize(a: Algorithm): nat {
    if a.Sha1? then 20 else 32
  }

  ghost predicate Digests(h: (Algorithm, seq<byte>) -> seq<byte>) {
    forall a: Algorithm, s: seq<byte> :: |h(a, s)| == DigestSize(a)
  }

  type Hasher = h: (Algorithm, seq<byte>) -> seq<byte> | Digests(h)
    witness (a: Algorithm, s: seq<byte>) => seq(DigestSize(a), _ => 0)

  /** The hash types a code directory may name. */
  datatype HashType = HashSha1 | HashSha256 | HashSha256Truncated {
    function Algorithm(): Algorithm {
      if HashSha1? then Sha1 else Sha256
    }

    function Size(): (n: nat)
      ensures 0 < n <= DigestSize(Algorithm())
    {
      if HashSha256? then 32 else 20
    }
  }

  /** A code directory: a digest, stored from `slots` on, for each of its `pages` pages of the first `codeLimit` bytes. */
  datatype Directory = Directory(slots: nat, pages: nat, codeLimit: nat, hash: HashType, pageSize: nat)

  /** An entry of the super blob, and where its header starts. */
  datatype Entry = Other(at: nat) | Code(at: nat, directory: Directory)

  function HashTypeOf(kind: byte): Option<HashType> {
    if kind == 1 then Some(HashSha1)
    else if kind == 2 then Some(HashSha256)
    else if kind == 3 then Some(HashSha256Truncated)
    else None
  }

  function ReadDirectory(b: seq<byte>, cd: nat): (r: Result<Entry, SignError>)
    ensures r.Ok? ==> r.value.Code? && r.value.at == cd && cd <= r.value.directory.slots
  {
    if U32BE(b, cd + 12).None? then Err(OutOfRange)
    else if U32BE(b, cd + 12).value / 2 % 2 == 0 then Err(SignedByIdentity)
    else if cd + 38 > |b| then Err(OutOfRange)
    else
      var hash := HashTypeOf(b[cd + 37]);
      if hash.None? || b[cd + 36] as int != hash.value.Size() then Err(UnsupportedHash)
      else if cd + 40 > |b| then Err(OutOfRange)
      else
        Ok(Code(cd, Directory(cd + U32BE(b, cd + 16).value, U32BE(b, cd + 28).value, U32BE(b, cd + 32).value,
                              hash.value, Pow2(b[cd + 39] as int))))
  }

  function ReadEntry(b: seq<byte>, sig: nat, i: nat): (r: Result<Entry, SignError>)
    ensures r.Ok? ==> sig <= r.value.at && (r.value.Code? ==> sig <= r.value.directory.slots)
  {
    if U32BE(b, sig + 16 + 8 * i).None? then Err(OutOfRange)
    else
      var at := sig + U32BE(b, sig + 16 + 8 * i).value;
      if U32BE(b, at).None? then Err(OutOfRange)
      else if U32BE(b, at).value != CSMAGIC_CODEDIRECTORY then Ok(Other(at))
      else ReadDirectory(b, at)
  }

  /** Where the last LC_CODE_SIGNATURE of `left` load commands from `cursor` on points. */
  function FindSignature(b: seq<byte>, cursor: nat, left: nat, found: Option<nat>): Result<Option<nat>, SignError>
    decreases left
  {
    if left == 0 then Ok(found)
    else if U32LE(b, cursor).None? || U32LE(b, cursor + 4).None? then Err(OutOfRange)
    else
      var next := cursor + U32LE(b, cursor + 4).value;
      if U32LE(b, cursor).value != LC_CODE_SIGNATURE then FindSignature(b, next, left - 1, found)
      else if U32LE(b, cursor + 12).None? then Err(OutOfRange)
      else FindSignature(b, next, left - 1, U32LE(b, cursor + 8))
  }

  // ---------------------------------------------------------------- refreshing

  datatype Refreshed = Refreshed(bytes: seq<byte>, changed: bool)

  type Step = (seq<byte>, nat) -> Result<Refreshed, SignError>

  /** `n * k`, as a sum: the proofs only ever step from one page to the next. */
  function Times(n: nat, k: nat): nat {
    if n == 0 then 0 else Times(n - 1, k) + k
  }

  lemma {:induction false} TimesIsProduct(n: nat, k: nat)
    ensures Times(n, k) == n * k
  {
    if n > 0 {
      TimesIsProduct(n - 1, k);
    }
  }

  function SlotAt(d: Directory, page: nat): nat {
    d.slots + Times(page, d.hash.Size())
  }

  function PageBytes(b: seq<byte>, d: Directory, page: nat): seq<byte> {
    var start := Times(page, d.pageSize);
    Sub(b, start, if start + d.pageSize < d.codeLimit then start + d.pageSize else d.codeLimit)
  }

  /** The bytes the slot of a page must hold. */
  function PageDigest(b: seq<byte>, h: Hasher, d: Directory, page: nat): (r: seq<byte>)
    ensures |r| == d.hash.Size()
  {
    h(d.hash.Algorithm(), PageBytes(b, d, page))[..d.hash.Size()]
  }

  /** One slot brought up to date. */
  function RefreshPage(b: seq<byte>, h: Hasher, d: Directory, page: nat): (r: Result<Refreshed, SignError>)
  {
    var digest, slot := PageDigest(b, h, d, page), SlotAt(d, page);
    if Sub(b, slot, slot + d.hash.Size()) == digest then Ok(Refreshed(b, false))
    else if slot + d.hash.Size() > |b| then Err(OutOfRange)
    else Ok(Refreshed(Overwrite(b, slot, digest), true))
  }

  /** Patch the image for each index from `i` up to `n`, in order, and say whether any of the patches changed it. */
  function Each(b: seq<byte>, step: Step, i: nat, n: nat, changed: bool): Result<Refreshed, SignError>
    decreases n - i
  {
    if i >= n then Ok(Refreshed(b, changed))
    else
      match step(b, i)
      case Err(e) => Err(e)
      case Ok(s) => Each(s.bytes, step, i + 1, n, changed || s.changed)
  }

  function PageStep(h: Hasher, d: Directory): Step {
    (b: seq<byte>, page: nat) => RefreshPage(b, h, d, page)
  }

  /** Every slot of one entry, which may be no code directory at all. */
  function RefreshEntry(b: seq<byte>, h: Hasher, sig: nat, i: nat): Result<Refreshed, SignError>
  {
    match ReadEntry(b, sig, i)
    case Err(e) => Err(e)
    case Ok(Other(_)) => Ok(Refreshed(b, false))
    case Ok(Code(_, d)) => Each(b, PageStep(h, d), 0, d.pages, false)
  }

  function EntryStep(h: Hasher, sig: nat): Step {
    (b: seq<byte>, i: nat) => RefreshEntry(b, h, sig, i)
  }

  /** The signature of a thin 64-bit image, if it has one. */
  function Signature(b: seq<byte>): Result<Option<nat>, SignError> {
    if U32LE(b, 0).None? then Err(OutOfRange)
    else if U32LE(b, 0).value != MH_MAGIC_64 then Err(NotThin64)
    else if U32LE(b, 16).None? then Err(OutOfRange)
    else FindSignature(b, 32, U32LE(b, 16).value, None)
  }

  /** How many entries the super blob has. */
  function EntryCount(b: seq<byte>, sig: nat): Result<nat, SignError> {
    if U32BE(b, sig).None? then Err(OutOfRange)
    else if U32BE(b, sig).value != CSMAGIC_EMBEDDED_SIGNATURE then Err(NotEmbedded)
    else if U32BE(b, sig + 8).None? then Err(OutOfRange)
    else Ok(U32BE(b, sig + 8).value)
  }

  function Refresh(b: seq<byte>, h: Hasher): Result<Refreshed, SignError>
  {
    if Signature(b).Err? then Err(Signature(b).error)
    else if Signature(b).value.None? then Ok(Refreshed(b, false))
    else
      var sig := Signature(b).value.value;
      if EntryCount(b, sig).Err? then Err(EntryCount(b, sig).error)
      else Each(b, EntryStep(h, sig), 0, EntryCount(b, sig).value, false)
  }

  /** The result of a step that patches `bytes`: its new contents on success, its error otherwise. */
  ghost predicate Reports(spec: Result<Refreshed, SignError>, r: Result<bool, SignError>, now: seq<byte>) {
    match spec
    case Err(e) => r == Err(e)
    case Ok(s) => r == Ok(s.changed) && now == s.bytes
  }

  method RefreshAdhocSignature(bytes: array<byte>, h: Hasher) returns (r: Result<bool, SignError>)
    modifies bytes
    ensures Reports(Refresh(old(bytes[..]), h), r, bytes[..])
  {
    if U32LE(bytes[..], 0).None? {
      return Err(OutOfRange);
    }
    if U32LE(bytes[..], 0).value != MH_MAGIC_64 {
      return Err(NotThin64);
    }
    if U32LE(bytes[..], 16).None? {
      return Err(OutOfRange);
    }
    var signature := ScanCommands(bytes, U32LE(bytes[..], 16).value);
    if signature.Err? {
      return Err(signature.error);
    }
    if signature.value.None? {
      return Ok(false);
    }
    var sig := signature.value.value;
    var count := EntryCount(bytes[..], sig);
    if count.Err? {
      return Err(count.error);
    }
    r := RefreshSignature(bytes, h, sig, count.value);
  }

  method RefreshSignature(bytes: array<byte>, h: Hasher, sig: nat, count: nat) returns (r: Result<bool, SignError>)
    modifies bytes
    ensures Reports(Each(old(bytes[..]), EntryStep(h, sig), 0, count, false), r, bytes[..])
  {
    ghost var goal := Each(bytes[..], EntryStep(h, sig), 0, count, false);
    var refreshed := false;
    var i := 0;
    hide Each, RefreshEntry;
    while i < count
      invariant i <= count
      invariant Each(bytes[..], EntryStep(h, sig), i, count, refreshed) == goal
    {
      ghost var was := bytes[..];
      var entry := RefreshOne(bytes, h, sig, i);
      EachStep(was, EntryStep(h, sig), i, count, refreshed);
      if entry.Err? {
        return Err(entry.error);
      }
      refreshed := refreshed || entry.value;
      i := i + 1;
    }
    EachEnds(bytes[..], EntryStep(h, sig), i, count, refreshed);
    return Ok(refreshed);
  }

  lemma {:induction false} EachStep(b: seq<byte>, step: Step, i: nat, n: nat, changed: bool)
    requires i < n
    ensures Each(b, step, i, n, changed) ==
            match step(b, i)
            case Err(e) => Err(e)
            case Ok(s) => Each(s.bytes, step, i + 1, n, changed || s.changed)
  {
  }

  lemma {:induction false} EachEnds(b: seq<byte>, step: Step, i: nat, n: nat, changed: bool)
    requires i >= n
    ensures Each(b, step, i, n, changed) == Ok(Refreshed(b, changed))
  {
  }

  method RefreshOne(bytes: array<byte>, h: Hasher, sig: nat, i: nat) returns (r: Result<bool, SignError>)
    modifies bytes
    ensures Reports(RefreshEntry(old(bytes[..]), h, sig, i), r, bytes[..])
  {
    var entry := ReadEntry(bytes[..], sig, i);
    if entry.Err? {
      return Err(entry.error);
    }
    if entry.value.Other? {
      return Ok(false);
    }
    r := RefreshDirectory(bytes, h, entry.value.directory);
  }

  method ScanCommands(bytes: array<byte>, ncmds: nat) returns (r: Result<Option<nat>, SignError>)
    ensures r == FindSignature(bytes[..], 32, ncmds, None)
  {
    var cursor: nat := 32;
    var signature: Option<nat> := None;
    var i := 0;
    while i < ncmds
      invariant i <= ncmds
      invariant FindSignature(bytes[..], cursor, ncmds - i, signature) == FindSignature(bytes[..], 32, ncmds, None)
    {
      if U32LE(bytes[..], cursor).None? {
        return Err(OutOfRange);
      }
      if U32LE(bytes[..], cursor).value == LC_CODE_SIGNATURE {
        if U32LE(bytes[..], cursor + 12).None? {
          return Err(OutOfRange);
        }
        signature := U32LE(bytes[..], cursor + 8);
      }
      if U32LE(bytes[..], cursor + 4).None? {
        return Err(OutOfRange);
      }
      cursor := cursor + U32LE(bytes[..], cursor + 4).value;
      i := i + 1;
    }
    return Ok(signature);
  }

  method RefreshDirectory(bytes: array<byte>, h: Hasher, d: Directory) returns (r: Result<bool, SignError>)
    modifies bytes
    ensures Reports(Each(old(bytes[..]), PageStep(h, d), 0, d.pages, false), r, bytes[..])
  {
    ghost var goal := Each(bytes[..], PageStep(h, d), 0, d.pages, false);
    var changed := false;
    var page := 0;
    hide Each, RefreshPage;
    while page < d.pages
      invariant page <= d.pages
      invariant Each(bytes[..], PageStep(h, d), page, d.pages, changed) == goal
    {
      ghost var was := bytes[..];
      var step := RefreshSlot(bytes, h, d, page);
      EachStep(was, PageStep(h, d), page, d.pages, changed);
      if step.Err? {
        return Err(step.error);
      }
      changed := changed || step.value;
      page := page + 1;
    }
    EachEnds(bytes[..], PageStep(h, d), page, d.pages, changed);
    return Ok(changed);
  }

  method RefreshSlot(bytes: array<byte>, h: Hasher, d: Directory, page: nat) returns (r: Result<bool, SignError>)
    modifies bytes
    ensures Reports(RefreshPage(old(bytes[..]), h, d, page), r, bytes[..])
  {
    var digest, slot := PageDigest(bytes[..], h, d, page), SlotAt(d, page);
    if Sub(bytes[..], slot, slot + d.hash.Size()) == digest {
      return Ok(false);
    }
    if slot + d.hash.Size() > bytes.Length {
      return Err(OutOfRange);
    }
    CopyInto(bytes, slot, digest);
    return Ok(true);
  }
}
