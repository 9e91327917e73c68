/** What the fields, pages and load commands of a signed image are, byte by byte (scripts/stamp-native-version.ts). */
module SignatureLayout {
  import opened Prelude
  import opened VersionStamp
  import opened AdhocSignature
  import opened SignatureKept

  // ---------------------------------------------------------------- numbers

  const U32 := 0x1_0000_0000

  /** The four bytes of a number, most significant first. */
  function BigEndian(n: nat): seq<byte>
    requires n < U32
  {
    [(n / 0x100_0000) as byte, (n / 0x1_0000 % 0x100) as byte, (n / 0x100 % 0x100) as byte, (n % 0x100) as byte]
  }

  function LittleEndian(n: nat): seq<byte>
    requires n < U32
  {
    [(n % 0x100) as byte, (n / 0x100 % 0x100) as byte, (n / 0x1_0000 % 0x100) as byte, (n / 0x100_0000) as byte]
  }

  /** `part` stands in the image at `at`. */
  predicate Stands(b: seq<byte>, at: nat, part: seq<byte>) {
    at + |part| <= |b| && b[at..at + |part|] == part
  }

  lemma {:induction false} StandsAt(b: seq<byte>, at: nat, part: seq<byte>, k: nat)
    requires Stands(b, at, part) && k < |part|
    ensures at + k < |b| && b[at + k] == part[k]
  {
    assert b[at..at + |part|][k] == part[k];
  }

  lemma {:induction false} FourBytes(n: nat)
    requires n < U32
    ensures ((n / 0x100_0000 * 256 + n / 0x1_0000 % 0x100) * 256 + n / 0x100 % 0x100) * 256 + n % 0x100 == n
  {
    var a, b, c := n / 0x100, n / 0x1_0000, n / 0x100_0000;
    assert b == a / 0x100 && c == b / 0x100;
    assert c * 256 + b % 0x100 == b && b * 256 + a % 0x100 == a && a * 256 + n % 0x100 == n;
  }

  /** Reading four bytes finds the number that they were written for. */
  lemma {:induction false} ReadsBigEndian(b: seq<byte>, at: nat, n: nat)
    requires n < U32 && Stands(b, at, BigEndian(n))
    ensures U32BE(b, at) == Some(n)
  {
    FourBytes(n);
    forall k | 0 <= k < 4 ensures b[at + k] == BigEndian(n)[k] {
      StandsAt(b, at, BigEndian(n), k);
    }
    assert b[at] == b[at + 0];
  }

  lemma {:induction false} ReadsLittleEndian(b: seq<byte>, at: nat, n: nat)
    requires n < U32 && Stands(b, at, LittleEndian(n))
    ensures U32LE(b, at) == Some(n)
  {
    FourBytes(n);
    forall k | 0 <= k < 4 ensures b[at + k] == LittleEndian(n)[k] {
      StandsAt(b, at, LittleEndian(n), k);
    }
    assert b[at] == b[at + 0];
  }

  // ---------------------------------------------------------------- load commands

  /** A load command: what it is, how long it is, and the offset that a signature command holds. */
  datatype Command = Command(cmd: nat, size: nat, offset: nat)

  /** The commands stand one after another from `cursor` on. */
  predicate CommandsAt(b: seq<byte>, cursor: nat, cs: seq<Command>)
    decreases |cs|
  {
    cs == [] ||
    (&& cs[0].cmd < U32 && cs[0].size < U32 && cs[0].offset < U32
     && Stands(b, cursor, LittleEndian(cs[0].cmd)) && Stands(b, cursor + 4, LittleEndian(cs[0].size))
     && (cs[0].cmd == LC_CODE_SIGNATURE ==> cursor + 16 <= |b| && Stands(b, cursor + 8, LittleEndian(cs[0].offset)))
     && CommandsAt(b, cursor + cs[0].size, cs[1..]))
  }

  predicate IsLastSignature(cs: seq<Command>, k: nat) {
    k < |cs| && cs[k].cmd == LC_CODE_SIGNATURE && forall i :: k < i < |cs| ==> cs[i].cmd != LC_CODE_SIGNATURE
  }

  function LastOf(cs: seq<Command>, found: Option<nat>): Option<nat> {
    if cs == [] then found
    else LastOf(cs[1..], if cs[0].cmd == LC_CODE_SIGNATURE then Some(cs[0].offset) else found)
  }

  lemma {:induction false} LastOfIs(cs: seq<Command>, found: Option<nat>, k: nat)
    ensures (forall i :: 0 <= i < |cs| ==> cs[i].cmd != LC_CODE_SIGNATURE) ==> LastOf(cs, found) == found
    ensures IsLastSignature(cs, k) ==> LastOf(cs, found) == Some(cs[k].offset)
  {
    if cs != [] {
      var rest := cs[1..];
      assert forall i :: 0 <= i < |rest| ==> rest[i] == cs[i + 1];
      LastOfIs(rest, if cs[0].cmd == LC_CODE_SIGNATURE then Some(cs[0].offset) else found, if k > 0 then k - 1 else 0);
    }
  }

  lemma {:induction false} CommandsFind(b: seq<byte>, cursor: nat, cs: seq<Command>, found: Option<nat>)
    requires CommandsAt(b, cursor, cs)
    ensures FindSignature(b, cursor, |cs|, found) == Ok(LastOf(cs, found))
    decreases |cs|
  {
    hide *;
    if cs == [] {
      NoCommands(b, cursor, found);
    } else {
      FirstCommand(b, cursor, cs, found);
      var now := if cs[0].cmd == LC_CODE_SIGNATURE then Some(cs[0].offset) else found;
      CommandsFind(b, cursor + cs[0].size, cs[1..], now);
      LastOfNext(cs, found);
    }
  }

  lemma {:induction false} NoCommands(b: seq<byte>, cursor: nat, found: Option<nat>)
    ensures FindSignature(b, cursor, 0, found) == Ok(LastOf([], found))
  {
  }

  lemma {:induction false} LastOfNext(cs: seq<Command>, found: Option<nat>)
    requires cs != []
    ensures LastOf(cs, found) == LastOf(cs[1..], if cs[0].cmd == LC_CODE_SIGNATURE then Some(cs[0].offset) else found)
  {
  }

  /** The last signature command decides where the signature is; without one there is none. */
  lemma {:induction false} LastSignatureWins(b: seq<byte>, cursor: nat, cs: seq<Command>, k: nat)
    requires CommandsAt(b, cursor, cs)
    ensures (forall i :: 0 <= i < |cs| ==> cs[i].cmd != LC_CODE_SIGNATURE) ==> FindSignature(b, cursor, |cs|, None) == Ok(None)
    ensures IsLastSignature(cs, k) ==> FindSignature(b, cursor, |cs|, None) == Ok(Some(cs[k].offset))
  {
    hide CommandsAt, FindSignature, LastOf;
    CommandsFind(b, cursor, cs, None);
    LastOfIs(cs, None, k);
  }

  lemma {:induction false} FirstCommand(b: seq<byte>, cursor: nat, cs: seq<Command>, found: Option<nat>)
    requires cs != [] && CommandsAt(b, cursor, cs)
    ensures CommandsAt(b, cursor + cs[0].size, cs[1..])
    ensures var now := if cs[0].cmd == LC_CODE_SIGNATURE then Some(cs[0].offset) else found;
            FindSignature(b, cursor, |cs|, found) == FindSignature(b, cursor + cs[0].size, |cs| - 1, now)
  {
    var c := cs[0];
    hide Stands, LittleEndian, U32LE;
    ReadsLittleEndian(b, cursor, c.cmd);
    ReadsLittleEndian(b, cursor + 4, c.size);
    if c.cmd == LC_CODE_SIGNATURE {
      ReadsLittleEndian(b, cursor + 8, c.offset);
      FourAreThere(b, cursor + 12);
    }
  }

  lemma {:induction false} FourAreThere(b: seq<byte>, at: nat)
    requires at + 4 <= |b|
    ensures U32LE(b, at).Some?
  {
  }

  /** A thin 64-bit image has the signature that its last signature command points at; any other image is refused. */
  lemma {:induction false} ImageReadsBack(b: seq<byte>, cs: seq<Command>, k: nat)
    requires |cs| < U32 && |b| >= 4
    ensures !Stands(b, 0, LittleEndian(MH_MAGIC_64)) ==> Signature(b) == Err(NotThin64)
    ensures Stands(b, 0, LittleEndian(MH_MAGIC_64)) && Stands(b, 16, LittleEndian(|cs|)) && CommandsAt(b, 32, cs) ==>
              && ((forall i :: 0 <= i < |cs| ==> cs[i].cmd != LC_CODE_SIGNATURE) ==> Signature(b) == Ok(None))
              && (IsLastSignature(cs, k) ==> Signature(b) == Ok(Some(cs[k].offset)))
  {
    IsThin(b);
    hide Stands, LittleEndian, U32LE;
    if Stands(b, 0, LittleEndian(MH_MAGIC_64)) && Stands(b, 16, LittleEndian(|cs|)) && CommandsAt(b, 32, cs) {
      ReadsLittleEndian(b, 16, |cs|);
      hide CommandsAt, FindSignature;
      LastSignatureWins(b, 32, cs, k);
    }
  }

  lemma {:induction false} IsThin(b: seq<byte>)
    requires |b| >= 4
    ensures U32LE(b, 0).Some?
    ensures U32LE(b, 0).value == MH_MAGIC_64 <==> Stands(b, 0, LittleEndian(MH_MAGIC_64))
  {
    if Stands(b, 0, LittleEndian(MH_MAGIC_64)) {
      ReadsLittleEndian(b, 0, MH_MAGIC_64);
    }
    if U32LE(b, 0).value == MH_MAGIC_64 {
      LittleEndianOf(b);
    }
  }

  lemma {:induction false} LittleEndianOf(b: seq<byte>)
    requires U32LE(b, 0) == Some(MH_MAGIC_64)
    ensures Stands(b, 0, LittleEndian(MH_MAGIC_64))
  {
    var lo, hi := MH_MAGIC_64 % 0x1_0000, MH_MAGIC_64 / 0x1_0000;
  }

  // ---------------------------------------------------------------- the super blob and its directories

  /** The super blob at `sig`, with the offsets of its entries. */
  predicate BlobAt(b: seq<byte>, sig: nat, offsets: seq<nat>) {
    && |offsets| < U32 && Stands(b, sig, BigEndian(CSMAGIC_EMBEDDED_SIGNATURE)) && Stands(b, sig + 8, BigEndian(|offsets|))
    && forall i :: 0 <= i < |offsets| ==> offsets[i] < U32 && Stands(b, sig + 16 + 8 * i, BigEndian(offsets[i]))
  }

  /** The entries of the super blob are where its offsets say. */
  lemma {:induction false} BlobReadsBack(b: seq<byte>, sig: nat, offsets: seq<nat>, i: nat)
    requires BlobAt(b, sig, offsets) && i < |offsets|
    ensures EntryCount(b, sig) == Ok(|offsets|)
    ensures var at := sig + offsets[i];
            && (Stands(b, at, BigEndian(CSMAGIC_CODEDIRECTORY)) ==> ReadEntry(b, sig, i) == ReadDirectory(b, at))
            && (at + 4 <= |b| && !Stands(b, at, BigEndian(CSMAGIC_CODEDIRECTORY)) ==> ReadEntry(b, sig, i) == Ok(Other(at)))
  {
    BlobFields(b, sig, offsets, i);
    hide *;
    CountOf(b, sig, |offsets|);
    EntryAt(b, sig, i, offsets[i]);
  }

  lemma {:induction false} BlobFields(b: seq<byte>, sig: nat, offsets: seq<nat>, i: nat)
    requires BlobAt(b, sig, offsets) && i < |offsets|
    ensures U32BE(b, sig) == Some(CSMAGIC_EMBEDDED_SIGNATURE) && U32BE(b, sig + 8) == Some(|offsets|)
    ensures offsets[i] < U32 && U32BE(b, sig + 16 + 8 * i) == Some(offsets[i])
  {
    hide Stands, U32BE, BigEndian;
    ReadsBigEndian(b, sig, CSMAGIC_EMBEDDED_SIGNATURE);
    ReadsBigEndian(b, sig + 8, |offsets|);
    ReadsBigEndian(b, sig + 16 + 8 * i, offsets[i]);
  }

  lemma {:induction false} CountOf(b: seq<byte>, sig: nat, n: nat)
    requires U32BE(b, sig) == Some(CSMAGIC_EMBEDDED_SIGNATURE) && U32BE(b, sig + 8) == Some(n)
    ensures EntryCount(b, sig) == Ok(n)
  {
  }

  lemma {:induction false} EntryAt(b: seq<byte>, sig: nat, i: nat, offset: nat)
    requires U32BE(b, sig + 16 + 8 * i) == Some(offset)
    ensures var at := sig + offset;
            && (Stands(b, at, BigEndian(CSMAGIC_CODEDIRECTORY)) ==> ReadEntry(b, sig, i) == ReadDirectory(b, at))
            && (at + 4 <= |b| && !Stands(b, at, BigEndian(CSMAGIC_CODEDIRECTORY)) ==> ReadEntry(b, sig, i) == Ok(Other(at)))
  {
    var at := sig + offset;
    if at + 4 <= |b| {
      IsDirectory(b, at);
    }
    hide ReadDirectory, U32BE, Stands, BigEndian;
  }

  lemma {:induction false} IsDirectory(b: seq<byte>, at: nat)
    requires at + 4 <= |b|
    ensures U32BE(b, at).Some?
    ensures |BigEndian(CSMAGIC_CODEDIRECTORY)| == 4
    ensures U32BE(b, at).value == CSMAGIC_CODEDIRECTORY <==> Stands(b, at, BigEndian(CSMAGIC_CODEDIRECTORY))
  {
    if Stands(b, at, BigEndian(CSMAGIC_CODEDIRECTORY)) {
      ReadsBigEndian(b, at, CSMAGIC_CODEDIRECTORY);
    }
    if U32BE(b, at).value == CSMAGIC_CODEDIRECTORY {
      assert b[at..at + 4] == [b[at], b[at + 1], b[at + 2], b[at + 3]];
    }
  }

  /** The fields of a code directory's header. */
  datatype Header = Header(flags: nat, hashOffset: nat, codeSlots: nat, codeLimit: nat, hashSize: byte, hashType: byte, pageBits: byte)

  predicate HeaderAt(b: seq<byte>, cd: nat, f: Header) {
    && f.flags < U32 && f.hashOffset < U32 && f.codeSlots < U32 && f.codeLimit < U32
    && Stands(b, cd + 12, BigEndian(f.flags)) && Stands(b, cd + 16, BigEndian(f.hashOffset))
    && Stands(b, cd + 28, BigEndian(f.codeSlots)) && Stands(b, cd + 32, BigEndian(f.codeLimit))
    && Stands(b, cd + 36, [f.hashSize, f.hashType]) && Stands(b, cd + 39, [f.pageBits])
  }

  /** The hash types and sizes that are supported: SHA-1, SHA-256, and SHA-256 cut to 20 bytes. */
  predicate Supported(f: Header) {
    (f.hashType == 1 && f.hashSize == 20) || (f.hashType == 2 && f.hashSize == 32) || (f.hashType == 3 && f.hashSize == 20)
  }

  /** A directory reads back as its header was written; without the ad-hoc flag, or with another hash, it is refused. */
  lemma {:induction false} DirectoryReadsBack(b: seq<byte>, cd: nat, f: Header)
    requires HeaderAt(b, cd, f)
    ensures var r := ReadDirectory(b, cd);
            if f.flags / 2 % 2 == 0 then r == Err(SignedByIdentity)
            else if !Supported(f) then r == Err(UnsupportedHash)
            else
              && r.Ok? && r.value.Code? && r.value.at == cd
              && var d := r.value.directory;
              && d.slots == cd + f.hashOffset && d.pages == f.codeSlots && d.codeLimit == f.codeLimit
              && d.pageSize == Pow2(f.pageBits as int) && d.hash.Size() == f.hashSize as int
              && d.hash.Algorithm() == if f.hashType == 1 then Sha1 else Sha256
  {
    HeaderFields(b, cd, f);
    hide U32BE, Stands, BigEndian, HeaderAt, Pow2;
  }

  lemma {:induction false} HeaderFields(b: seq<byte>, cd: nat, f: Header)
    requires HeaderAt(b, cd, f)
    ensures cd + 40 <= |b| && b[cd + 36] == f.hashSize && b[cd + 37] == f.hashType && b[cd + 39] == f.pageBits
    ensures U32BE(b, cd + 12) == Some(f.flags) && U32BE(b, cd + 16) == Some(f.hashOffset)
    ensures U32BE(b, cd + 28) == Some(f.codeSlots) && U32BE(b, cd + 32) == Some(f.codeLimit)
  {
    StandsAt(b, cd + 36, [f.hashSize, f.hashType], 0);
    StandsAt(b, cd + 36, [f.hashSize, f.hashType], 1);
    StandsAt(b, cd + 39, [f.pageBits], 0);
    hide U32BE, Stands, BigEndian;
    ReadsBigEndian(b, cd + 12, f.flags);
    ReadsBigEndian(b, cd + 16, f.hashOffset);
    ReadsBigEndian(b, cd + 28, f.codeSlots);
    ReadsBigEndian(b, cd + 32, f.codeLimit);
  }

  /** `Pow2` is the power of two. */
  lemma {:induction false} Pow2Adds(a: nat, k: nat)
    ensures Pow2(0) == 1 && Pow2(1) == 2 && Pow2(a + k) == Pow2(a) * Pow2(k)
  {
    if k == 0 {
      assert Pow2(a + 0) == Pow2(a);
    } else {
      Pow2Adds(a, k - 1);
      assert Pow2(a + k) == 2 * Pow2(a + (k - 1));
    }
  }

  // ---------------------------------------------------------------- pages

  function Least(a: nat, b: nat): nat {
    if a < b then a else b
  }

  /** Where a page begins, or the signed bytes end. */
  function PageStart(d: Directory, page: nat): nat {
    Least(page * d.pageSize, d.codeLimit)
  }

  /** A page holds the signed bytes from its start to the start of the next page. */
  lemma {:induction false} PageIs(b: seq<byte>, d: Directory, page: nat)
    requires d.codeLimit <= |b|
    ensures PageStart(d, page) <= PageStart(d, page + 1) <= |b|
    ensures PageBytes(b, d, page) == b[PageStart(d, page)..PageStart(d, page + 1)]
  {
    TimesIsProduct(page, d.pageSize);
    assert (page + 1) * d.pageSize == page * d.pageSize + d.pageSize;
  }

  /** All pages, one after another. */
  function AllPages(b: seq<byte>, d: Directory, n: nat): seq<byte> {
    if n == 0 then [] else AllPages(b, d, n - 1) + PageBytes(b, d, n - 1)
  }

  /** The pages are the signed bytes: together all of them, in order, and each but the last is full. */
  lemma {:induction false} PagesTile(b: seq<byte>, d: Directory, n: nat)
    requires d.codeLimit <= |b|
    ensures AllPages(b, d, n) == b[..PageStart(d, n)]
    ensures n * d.pageSize >= d.codeLimit ==> AllPages(b, d, n) == b[..d.codeLimit]
    ensures forall page: nat :: page < n && (page + 1) * d.pageSize <= d.codeLimit ==> |PageBytes(b, d, page)| == d.pageSize
  {
    PagesAre(b, d, n);
    hide AllPages;
    forall page: nat | page < n && (page + 1) * d.pageSize <= d.codeLimit ensures |PageBytes(b, d, page)| == d.pageSize {
      PageIs(b, d, page);
      hide PageBytes;
      assert (page + 1) * d.pageSize == page * d.pageSize + d.pageSize;
    }
  }

  lemma {:induction false} PagesAre(b: seq<byte>, d: Directory, n: nat)
    requires d.codeLimit <= |b|
    ensures PageStart(d, n) <= |b| && AllPages(b, d, n) == b[..PageStart(d, n)]
  {
    hide *;
    if n == 0 {
      NoPages(b, d);
    } else {
      PagesAre(b, d, n - 1);
      PageIs(b, d, n - 1);
      PagesNext(b, d, n);
      assert b[..PageStart(d, n)] == b[..PageStart(d, n - 1)] + b[PageStart(d, n - 1)..PageStart(d, n)];
    }
  }

  lemma {:induction false} NoPages(b: seq<byte>, d: Directory)
    ensures PageStart(d, 0) == 0 && AllPages(b, d, 0) == b[..0]
  {
  }

  lemma {:induction false} PagesNext(b: seq<byte>, d: Directory, n: nat)
    requires n > 0
    ensures AllPages(b, d, n) == AllPages(b, d, n - 1) + PageBytes(b, d, n - 1)
  {
  }

  lemma {:induction false} OnPage(x: nat, size: nat)
    requires size > 0
    ensures var page := x / size; page * size <= x < page * size + size && (page + 1) * size == page * size + size
  {
  }

  lemma {:induction false} OtherPage(x: nat, size: nat, page: nat)
    requires size > 0 && page * size <= x < (page + 1) * size
    ensures page == x / size
  {
    OnPage(x, size);
    Scaled(x / size, page, size);
    Scaled(page, x / size, size);
  }

  lemma {:induction false} Scaled(p: nat, q: nat, size: nat)
    ensures p < q ==> (p + 1) * size <= q * size
  {
    if p < q {
      assert q * size == (p + 1) * size + (q - p - 1) * size;
    }
  }

  /** A signed byte stands on the page it belongs to. */
  lemma {:induction false} ByteOnPage(b: seq<byte>, d: Directory, x: nat)
    requires d.codeLimit <= |b| && x < d.codeLimit && d.pageSize > 0
    ensures var page := x / d.pageSize;
            && page * d.pageSize <= x && x - page * d.pageSize < |PageBytes(b, d, page)|
            && PageBytes(b, d, page)[x - page * d.pageSize] == b[x]
  {
    PageIs(b, d, x / d.pageSize);
    OnPage(x, d.pageSize);
    hide PageBytes;
  }

  /** Changing one signed byte changes its page and no other. */
  lemma {:induction false} OnlyItsPage(b: seq<byte>, c: seq<byte>, d: Directory, x: nat, page: nat)
    requires |b| == |c| && x < d.codeLimit <= |b| && d.pageSize > 0
    requires b[x] != c[x] && forall y :: 0 <= y < |b| && y != x ==> b[y] == c[y]
    ensures PageBytes(b, d, page) != PageBytes(c, d, page) <==> page == x / d.pageSize
  {
    ByteOnPage(b, d, x);
    ByteOnPage(c, d, x);
    PageIs(b, d, page);
    PageIs(c, d, page);
    hide PageBytes;
    if page != x / d.pageSize {
      var lo, hi := PageStart(d, page), PageStart(d, page + 1);
      if lo <= x < hi {
        OtherPage(x, d.pageSize, page);
      }
      assert b[lo..hi] == c[lo..hi];
    }
  }

  /** The slots of a directory are right exactly if each holds the digest, cut to size, of its part of the signed bytes. */
  lemma {:induction false} ValidMeans(b: seq<byte>, h: Hasher, d: Directory, page: nat)
    requires d.codeLimit <= |b| && page < d.pages && SlotsEnd(d) <= |b|
    ensures var lo, hi, size := PageStart(d, page), PageStart(d, page + 1), d.hash.Size();
            var slot := d.slots + page * size;
            && lo <= hi <= |b| && slot + size <= |b|
            && (SlotHolds(b, h, d, page) <==> b[slot..slot + size] == h(d.hash.Algorithm(), b[lo..hi])[..size])
  {
    PageIs(b, d, page);
    TimesIsProduct(page, d.hash.Size());
    SlotInside(d, page);
    hide PageBytes, PageStart, SlotsEnd, Times;
  }
}
