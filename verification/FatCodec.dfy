/**
 The on-disk records of the FAT64 file system (src/drivers/fat64/fat64.h): little-endian integers,
 the 16-byte cluster tags packed in sectors, and the 512-byte directory entries packed in a cluster.
 */
module FatCodec {
  import opened Common
  import opened FatVolume

  const SECTOR_SIZE: nat := 512
  const TAG_BYTES: nat := 16
  const TAGS_PER_SECTOR: nat := 32
  const ENTRY_BYTES: nat := 512
  const ENTRIES: nat := 8            // slots of a one-cluster directory

  const U64: nat := 0x1_0000_0000_0000_0000

  // ---------- integers ----------

  function Pow256(n: nat): (r: nat)
    ensures r > 0
  {
    if n == 0 then 1 else 256 * Pow256(n - 1)
  }

  function LE(x: nat, n: nat): (s: seq<Byte>)
    ensures |s| == n
  {
    if n == 0 then [] else [x % 256] + LE(x / 256, n - 1)
  }

  function FromLE(s: seq<Byte>): nat {
    if s == [] then 0 else s[0] + 256 * FromLE(s[1..])
  }

  lemma {:induction false} IntRoundTrip(x: nat, n: nat)
    requires x < Pow256(n)
    ensures FromLE(LE(x, n)) == x
  {
    if n > 0 {
      IntRoundTrip(x / 256, n - 1);
      assert LE(x, n)[1..] == LE(x / 256, n - 1);
    }
  }

  lemma Widths()
    ensures Pow256(8) == U64 && Pow256(4) == U32
  {
    assert Pow256(1) == 256 && Pow256(2) == 0x1_0000 && Pow256(3) == 0x100_0000 && Pow256(4) == U32;
    assert Pow256(5) == 0x100_0000_0000 && Pow256(6) == 0x1_0000_0000_0000 && Pow256(7) == 0x100_0000_0000_0000;
  }

  /** Bytes read as an integer are the bytes of that integer. */
  lemma {:induction false} BytesRoundTrip(s: seq<Byte>)
    ensures LE(FromLE(s), |s|) == s
  {
    if s != [] {
      BytesRoundTrip(s[1..]);
      var x := FromLE(s);
      assert x % 256 == s[0] && x / 256 == FromLE(s[1..]);
      assert LE(x, |s|) == [s[0]] + LE(FromLE(s[1..]), |s| - 1);
    }
  }

  /** The low byte comes first. */
  lemma {:induction false} ByteOrder(x: nat, n: nat, i: nat)
    requires i < n
    ensures LE(x, n)[i] == x / Pow256(i) % 256
  {
    if i > 0 {
      ByteOrder(x / 256, n - 1, i - 1);
      DivTwice(x, Pow256(i - 1));
    }
  }

  lemma DivTwice(x: nat, p: nat)
    requires p > 0
    ensures x / 256 / p == x / (256 * p)
  {
    var y := x / 256;
    var q, s, t := y / p, y % p, x % 256;
    assert y == p * q + s;
    assert x == 256 * (p * q) + (256 * s + t) && 256 * s + t < 256 * p;
    assert 256 * (p * q) == (256 * p) * q;
    Quotient(x, 256 * p, q, 256 * s + t);
  }

  lemma Quotient(x: nat, m: nat, q: nat, r: nat)
    requires x == m * q + r && r < m
    ensures x / m == q
  {
    var d := x / m - q;
    assert x == m * (x / m) + x % m;
    assert m * d == r - x % m by {
      assert m * d == m * (x / m) - m * q;
    }
    assert d >= 1 ==> m * d >= m;
    assert d <= -1 ==> m * d + m <= 0;
  }

  /** Bytes `[at, at + n)` hold this integer, low byte first. */
  ghost predicate Holds(b: seq<Byte>, at: nat, n: nat, x: nat) {
    at + n <= |b| && forall i :: 0 <= i < n ==> b[at + i] == x / Pow256(i) % 256
  }

  lemma HoldsAt(b: seq<Byte>, at: nat, n: nat, x: nat)
    requires at + n <= |b| && b[at..at + n] == LE(x, n)
    ensures Holds(b, at, n, x)
  {
    forall i | 0 <= i < n ensures b[at + i] == x / Pow256(i) % 256 {
      ByteOrder(x, n, i);
      assert b[at..at + n][i] == b[at + i];
    }
  }

  lemma Powers()
    ensures Pow256(0) == 1 && Pow256(1) == 0x100 && Pow256(2) == 0x1_0000 && Pow256(3) == 0x100_0000
    ensures Pow256(4) == 0x1_0000_0000 && Pow256(5) == 0x100_0000_0000
    ensures Pow256(6) == 0x1_0000_0000_0000 && Pow256(7) == 0x100_0000_0000_0000
  {}

  // ---------- records in a block ----------

  /** Bytes `[i * w, (i + 1) * w)` of a block of `w`-byte records. */
  function Record(block: seq<Byte>, w: nat, i: nat): seq<Byte>
    requires i * w + w <= |block|
  {
    block[i * w..i * w + w]
  }

  function PutRecord(block: seq<Byte>, w: nat, i: nat, bytes: seq<Byte>): (r: seq<Byte>)
    requires i * w + w <= |block| && |bytes| == w
    ensures |r| == |block|
  {
    block[..i * w] + bytes + block[i * w + w..]
  }

  lemma RecordRoundTrip(block: seq<Byte>, w: nat, i: nat, bytes: seq<Byte>, j: nat)
    requires i * w + w <= |block| && j * w + w <= |block| && |bytes| == w
    ensures Record(PutRecord(block, w, i, bytes), w, j) == if j == i then bytes else Record(block, w, j)
  {
    var r := PutRecord(block, w, i, bytes);
    if j < i {
      Below(j, i, w);
    } else if i < j {
      Below(i, j, w);
    }
  }

  lemma {:induction false} Below(i: nat, j: nat, w: nat)
    requires i < j
    ensures i * w + w <= j * w
  {
    if j > i + 1 {
      Below(i, j - 1, w);
    }
    assert j * w == (j - 1) * w + w;
  }

  // ---------- cluster tags ----------

  predicate ValidTag(t: Tag) {
    t.prev < U64 && t.next < U64
  }

  function TagBytes(t: Tag): (b: seq<Byte>)
    ensures |b| == TAG_BYTES
  {
    LE(t.prev, 8) + LE(t.next, 8)
  }

  function TagFrom(b: seq<Byte>): Tag
    requires |b| == TAG_BYTES
  {
    Tag(FromLE(b[..8]), FromLE(b[8..]))
  }

  lemma TagRoundTrip(t: Tag)
    requires ValidTag(t)
    ensures TagFrom(TagBytes(t)) == t
  {
    Widths();
    IntRoundTrip(t.prev, 8);
    IntRoundTrip(t.next, 8);
    assert TagBytes(t)[..8] == LE(t.prev, 8) && TagBytes(t)[8..] == LE(t.next, 8);
  }

  /** The fields of a tag in its 16 bytes. */
  lemma TagLayout(t: Tag)
    ensures Holds(TagBytes(t), 0, 8, t.prev) && Holds(TagBytes(t), 8, 8, t.next)
  {
    var b := TagBytes(t);
    assert b[0..8] == LE(t.prev, 8) && b[8..16] == LE(t.next, 8);
    HoldsAt(b, 0, 8, t.prev);
    HoldsAt(b, 8, 8, t.next);
  }

  lemma TagBack(b: seq<Byte>)
    requires |b| == TAG_BYTES
    ensures TagBytes(TagFrom(b)) == b
  {
    BytesRoundTrip(b[..8]);
    BytesRoundTrip(b[8..]);
  }

  function TagAt(sector: seq<Byte>, i: nat): Tag
    requires |sector| == SECTOR_SIZE && i < TAGS_PER_SECTOR
  {
    TagFrom(Record(sector, TAG_BYTES, i))
  }

  function PutTag(sector: seq<Byte>, i: nat, t: Tag): (r: seq<Byte>)
    requires |sector| == SECTOR_SIZE && i < TAGS_PER_SECTOR
    ensures |r| == SECTOR_SIZE
  {
    PutRecord(sector, TAG_BYTES, i, TagBytes(t))
  }

  /** Writing one tag of a sector changes that tag only. */
  lemma TagUpdate(sector: seq<Byte>, i: nat, t: Tag, j: nat)
    requires |sector| == SECTOR_SIZE && i < TAGS_PER_SECTOR && j < TAGS_PER_SECTOR && ValidTag(t)
    ensures TagAt(PutTag(sector, i, t), j) == if j == i then t else TagAt(sector, j)
  {
    RecordRoundTrip(sector, TAG_BYTES, i, TagBytes(t), j);
    TagRoundTrip(t);
  }

  // ---------- directory entries ----------

  /** The three times and the padding are carried along but never looked at. */
  datatype DirEntry = DirEntry(name: seq<Byte>, file: nat, parent: nat, size: nat, times: seq<Byte>,
                               flags: nat, num: nat, unused: seq<Byte>)

  predicate ValidEntry(e: DirEntry) {
    && |e.name| == 256 && |e.times| == 24 && |e.unused| == 200
    && e.file < U64 && e.parent < U64 && e.size < U64 && e.flags < U32 && e.num < U32
  }

  predicate IsValid(e: DirEntry) {
    e.flags % 2 == 1
  }

  predicate IsDirectory(e: DirEntry) {
    e.flags / 2 % 2 == 1
  }

  function Zeros(n: nat): (z: seq<Byte>)
    ensures |z| == n && forall i :: 0 <= i < n ==> z[i] == 0
  {
    seq(n, i => 0)
  }

  function Tail(e: DirEntry): seq<Byte> {
    e.times + (LE(e.flags, 4) + (LE(e.num, 4) + e.unused))
  }

  function EntryBytes(e: DirEntry): (b: seq<Byte>)
    requires ValidEntry(e)
    ensures |b| == ENTRY_BYTES
  {
    e.name + (LE(e.file, 8) + (LE(e.parent, 8) + (LE(e.size, 8) + Tail(e))))
  }

  function EntryFrom(b: seq<Byte>): (e: DirEntry)
    requires |b| == ENTRY_BYTES
  {
    DirEntry(b[..256], FromLE(b[256..264]), FromLE(b[264..272]), FromLE(b[272..280]), b[280..304],
             FromLE(b[304..308]), FromLE(b[308..312]), b[312..])
  }

  lemma EntryRoundTrip(e: DirEntry)
    requires ValidEntry(e)
    ensures EntryFrom(EntryBytes(e)) == e
  {
    Widths();
    IntRoundTrip(e.file, 8);
    IntRoundTrip(e.parent, 8);
    IntRoundTrip(e.size, 8);
    IntRoundTrip(e.flags, 4);
    IntRoundTrip(e.num, 4);
    HeadFields(e);
    TailFields(e, EntryBytes(e));
  }

  lemma HeadFields(e: DirEntry)
    requires ValidEntry(e)
    ensures var b := EntryBytes(e);
            && b[..256] == e.name && b[256..264] == LE(e.file, 8) && b[264..272] == LE(e.parent, 8)
            && b[272..280] == LE(e.size, 8) && b[280..] == Tail(e)
  {
    var r3 := LE(e.size, 8) + Tail(e);
    var r2 := LE(e.parent, 8) + r3;
    var r1 := LE(e.file, 8) + r2;
    var b := EntryBytes(e);
    assert b == e.name + r1;
    assert b[256..] == r1 && r1[8..] == r2 && r2[8..] == r3;
    assert b[256..264] == r1[..8] && b[264..272] == r2[..8] && b[272..280] == r3[..8] && b[280..] == r3[8..];
  }

  lemma TailFields(e: DirEntry, b: seq<Byte>)
    requires ValidEntry(e) && |b| == ENTRY_BYTES && b[280..] == Tail(e)
    ensures b[280..304] == e.times && b[304..308] == LE(e.flags, 4)
    ensures b[308..312] == LE(e.num, 4) && b[312..] == e.unused
  {
    var t := b[280..];
    assert b[280..304] == t[..24] && b[304..308] == t[24..28] && b[308..312] == t[28..32] && b[312..] == t[32..];
  }

  /** The fields of a directory entry in its 512 bytes. */
  lemma EntryLayout(e: DirEntry)
    requires ValidEntry(e)
    ensures var b := EntryBytes(e);
            && b[0..256] == e.name && Holds(b, 256, 8, e.file) && Holds(b, 264, 8, e.parent) && Holds(b, 272, 8, e.size)
            && b[280..304] == e.times && Holds(b, 304, 4, e.flags) && Holds(b, 308, 4, e.num) && b[312..512] == e.unused
  {
    var b := EntryBytes(e);
    HeadFields(e);
    TailFields(e, b);
    assert b[0..256] == b[..256] && b[312..512] == b[312..];
    HoldsAt(b, 256, 8, e.file);
    HoldsAt(b, 264, 8, e.parent);
    HoldsAt(b, 272, 8, e.size);
    HoldsAt(b, 304, 4, e.flags);
    HoldsAt(b, 308, 4, e.num);
  }

  lemma EntryBack(b: seq<Byte>)
    requires |b| == ENTRY_BYTES
    ensures ValidEntry(EntryFrom(b)) && EntryBytes(EntryFrom(b)) == b
  {
    DecodedIsValid(b);
    BytesRoundTrip(b[256..264]);
    BytesRoundTrip(b[264..272]);
    BytesRoundTrip(b[272..280]);
    BytesRoundTrip(b[304..308]);
    BytesRoundTrip(b[308..312]);
    Joined(b);
  }

  lemma Joined(b: seq<Byte>)
    requires |b| == ENTRY_BYTES
    ensures b[..256] + (b[256..264] + (b[264..272] + (b[272..280]
              + (b[280..304] + (b[304..308] + (b[308..312] + b[312..])))))) == b
  {
    assert b[308..312] + b[312..] == b[308..] && b[304..308] + b[308..] == b[304..];
    assert b[280..304] + b[304..] == b[280..] && b[272..280] + b[280..] == b[272..];
    assert b[264..272] + b[272..] == b[264..] && b[256..264] + b[264..] == b[256..];
  }

  /** What is decoded can be encoded again. */
  lemma DecodedIsValid(b: seq<Byte>)
    requires |b| == ENTRY_BYTES
    ensures ValidEntry(EntryFrom(b))
  {
    Widths();
    FromLEBound(b[256..264]);
    FromLEBound(b[264..272]);
    FromLEBound(b[272..280]);
    FromLEBound(b[304..308]);
    FromLEBound(b[308..312]);
  }

  lemma {:induction false} FromLEBound(s: seq<Byte>)
    ensures FromLE(s) < Pow256(|s|)
  {
    if s != [] {
      FromLEBound(s[1..]);
    }
  }

  function EntryAt(cluster: seq<Byte>, i: nat): (e: DirEntry)
    requires |cluster| == CLUSTER_SIZE && i < ENTRIES
  {
    EntryFrom(Record(cluster, ENTRY_BYTES, i))
  }

  function PutEntry(cluster: seq<Byte>, i: nat, e: DirEntry): (r: seq<Byte>)
    requires |cluster| == CLUSTER_SIZE && i < ENTRIES && ValidEntry(e)
    ensures |r| == CLUSTER_SIZE
  {
    PutRecord(cluster, ENTRY_BYTES, i, EntryBytes(e))
  }

  /** Writing one directory slot changes that slot only. */
  lemma EntryUpdate(cluster: seq<Byte>, i: nat, e: DirEntry, j: nat)
    requires |cluster| == CLUSTER_SIZE && i < ENTRIES && j < ENTRIES && ValidEntry(e)
    ensures EntryAt(PutEntry(cluster, i, e), j) == if j == i then e else EntryAt(cluster, j)
  {
    RecordRoundTrip(cluster, ENTRY_BYTES, i, EntryBytes(e), j);
    EntryRoundTrip(e);
  }
}
