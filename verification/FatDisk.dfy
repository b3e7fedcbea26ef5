/**
 The volume on disk (src/drivers/fat64/fat64.c:82-152, 493-532, 567-604): which sector holds which
 cluster tag and which part of which cluster, and the volume that mkfs lays out.
 */
module FatDisk {
  import opened Common
  import opened FatVolume
  import opened FatCodec
  import opened FatFile
  import opened FatDirectory
  import opened FatSystem

  const SECTORS_PER_CLUSTER: nat := 8
  const PARTITION: nat := 8                        // first sector of the partition
  const TAG_TABLE: nat := 1                        // first cluster of the tag table
  const TABLE_CLUSTERS: nat := 1024
  const TABLE_START: nat := PARTITION + SECTORS_PER_CLUSTER * TAG_TABLE
  const DISK_SECTORS: nat := PARTITION + SECTORS_PER_CLUSTER * SIZE

  type Sector = seq<Byte>

  ghost predicate Disk(ds: seq<Sector>) {
    |ds| >= DISK_SECTORS && forall s :: 0 <= s < |ds| ==> |ds[s]| == SECTOR_SIZE
  }

  // ---------- addresses ----------

  function TagSector(c: nat): nat {
    c / TAGS_PER_SECTOR + SECTORS_PER_CLUSTER * TAG_TABLE + PARTITION
  }

  function TagIndex(c: nat): (i: nat)
    ensures i < TAGS_PER_SECTOR
  {
    c % TAGS_PER_SECTOR
  }

  function Wrap32(x: nat): (r: nat)
    ensures x < U32 ==> r == x
  {
    x % U32
  }

  /** Sector numbers have 32 bits. */
  function DataSector(c: nat, i: nat): nat {
    Wrap32(SECTORS_PER_CLUSTER * c + i + PARTITION)
  }

  /** The cluster number that stands for EOF wraps around to the first sectors of the disk, before the partition. */
  lemma EofSectors(i: nat)
    requires i < SECTORS_PER_CLUSTER
    ensures DataSector(TAG_EOF, i) == i < PARTITION
  {}

  /** Tags have addresses of their own, inside the clusters of the tag table. */
  lemma TagAddresses(c: nat, d: nat)
    requires c < SIZE && d < SIZE
    ensures TagSector(c) == TagSector(d) && TagIndex(c) == TagIndex(d) <==> c == d
    ensures DataSector(TAG_TABLE, 0) <= TagSector(c) < DataSector(TAG_TABLE + TABLE_CLUSTERS, 0)
  {
    assert c == TAGS_PER_SECTOR * (c / TAGS_PER_SECTOR) + c % TAGS_PER_SECTOR;
    assert d == TAGS_PER_SECTOR * (d / TAGS_PER_SECTOR) + d % TAGS_PER_SECTOR;
  }

  /** So have the sectors of the clusters, and from the root on they are clear of the tag table. */
  lemma DataAddresses(c: nat, i: nat, d: nat, j: nat)
    requires c < SIZE && d < SIZE && i < SECTORS_PER_CLUSTER && j < SECTORS_PER_CLUSTER
    ensures DataSector(c, i) == DataSector(d, j) <==> c == d && i == j
    ensures DataSector(c, i) < DISK_SECTORS
    ensures c >= ROOT ==> DataSector(c, i) != TagSector(d)
  {
    TagAddresses(d, d);
  }

  // ---------- the volume a disk holds ----------

  function TagOn(ds: seq<Sector>, c: nat): Tag
    requires Disk(ds) && c < SIZE
  {
    TagAt(ds[TagSector(c)], TagIndex(c))
  }

  function ByteOn(ds: seq<Sector>, c: nat, p: nat): Byte
    requires Disk(ds) && c < SIZE && p < CLUSTER_SIZE
  {
    ds[DataSector(c, p / SECTOR_SIZE)][p % SECTOR_SIZE]
  }

  function ClusterOn(ds: seq<Sector>, c: nat): (b: seq<Byte>)
    requires Disk(ds) && c < SIZE
    ensures |b| == CLUSTER_SIZE
    ensures forall p :: 0 <= p < CLUSTER_SIZE ==> b[p] == ByteOn(ds, c, p)
  {
    seq(CLUSTER_SIZE, p requires 0 <= p < CLUSTER_SIZE => ByteOn(ds, c, p))
  }

  /** The contents of the clusters below the root, which hold the tags themselves, are not looked at. */
  function DataOn(ds: seq<Sector>, c: nat): (b: seq<Byte>)
    requires Disk(ds) && c < SIZE
    ensures |b| == CLUSTER_SIZE
  {
    if c < ROOT then Zeros(CLUSTER_SIZE) else ClusterOn(ds, c)
  }

  function VolumeOn(ds: seq<Sector>): (v: Volume)
    requires Disk(ds)
  {
    Volume(seq(SIZE, c requires 0 <= c < SIZE => TagOn(ds, c)), seq(SIZE, c requires 0 <= c < SIZE => DataOn(ds, c)))
  }

  // ---------- where things are on the disk ----------

  /** Byte `a` of the disk. */
  function DiskByte(ds: seq<Sector>, a: nat): Byte
    requires Disk(ds) && a < 512 * DISK_SECTORS
  {
    ds[a / 512][a % 512]
  }

  function DiskBytes(ds: seq<Sector>, a: nat, n: nat): (b: seq<Byte>)
    requires Disk(ds) && a + n <= 512 * DISK_SECTORS
    ensures |b| == n && forall i :: 0 <= i < n ==> b[i] == DiskByte(ds, a + i)
  {
    seq<Byte>(n, i requires 0 <= i < n => DiskByte(ds, a + i))
  }

  /** Cluster `c` is the 4096 bytes behind the boot block and the clusters before it. */
  lemma ClusterPlace(ds: seq<Sector>, c: nat)
    requires Disk(ds) && c < SIZE
    ensures 4096 + 4096 * c + 4096 <= 512 * DISK_SECTORS && ClusterOn(ds, c) == DiskBytes(ds, 4096 + 4096 * c, 4096)
  {
    var b := DiskBytes(ds, 4096 + 4096 * c, 4096);
    forall p | 0 <= p < 4096 ensures ByteOn(ds, c, p) == b[p] {
      SectorPlace(c, p);
      assert b[p] == DiskByte(ds, 4096 + 4096 * c + p);
    }
  }

  lemma SectorPlace(c: nat, p: nat)
    requires c < SIZE && p < 4096
    ensures (4096 + 4096 * c + p) / 512 == DataSector(c, p / SECTOR_SIZE)
    ensures (4096 + 4096 * c + p) % 512 == p % SECTOR_SIZE
  {}

  /** The tag of cluster `c` is 16 bytes, `prev` and then `next`, behind those of the clusters before it. */
  lemma TagPlace(ds: seq<Sector>, c: nat)
    requires Disk(ds) && c < SIZE
    ensures 8192 + 16 * c + 16 <= 512 * DISK_SECTORS
    ensures var b := DiskBytes(ds, 8192 + 16 * c, 16);
            Holds(b, 0, 8, TagOn(ds, c).prev) && Holds(b, 8, 8, TagOn(ds, c).next)
  {
    var b := DiskBytes(ds, 8192 + 16 * c, 16);
    var r := Record(ds[TagSector(c)], TAG_BYTES, TagIndex(c));
    forall i | 0 <= i < 16 ensures b[i] == r[i] {
      TagBytePlace(c, i);
      assert b[i] == DiskByte(ds, 8192 + 16 * c + i);
    }
    assert b == r;
    TagBack(r);
    TagLayout(TagOn(ds, c));
  }

  lemma TagBytePlace(c: nat, i: nat)
    requires c < SIZE && i < 16
    ensures (8192 + 16 * c + i) / 512 == TagSector(c) && (8192 + 16 * c + i) % 512 == TagIndex(c) * TAG_BYTES + i
  {
    assert c == TAGS_PER_SECTOR * (c / TAGS_PER_SECTOR) + c % TAGS_PER_SECTOR;
  }

  /** Entry `i` of a directory is 512 bytes, laid out field by field, behind the entries before it. */
  lemma EntryPlace(ds: seq<Sector>, d: nat, i: nat)
    requires Disk(ds) && ROOT <= d < SIZE && i < ENTRIES
    ensures 4096 + 4096 * d + 512 * i + 512 <= 512 * DISK_SECTORS
    ensures var b, e := DiskBytes(ds, 4096 + 4096 * d + 512 * i, 512), SlotOf(VolumeOn(ds), d, i);
            && b[0..256] == e.name && Holds(b, 256, 8, e.file) && Holds(b, 264, 8, e.parent) && Holds(b, 272, 8, e.size)
            && b[280..304] == e.times && Holds(b, 304, 4, e.flags) && Holds(b, 308, 4, e.num) && b[312..512] == e.unused
  {
    ClusterPlace(ds, d);
    var cluster, b := ClusterOn(ds, d), DiskBytes(ds, 4096 + 4096 * d + 512 * i, 512);
    var r := Record(cluster, ENTRY_BYTES, i);
    forall k | 0 <= k < 512 ensures b[k] == r[k] {
      assert cluster[512 * i + k] == DiskByte(ds, 4096 + 4096 * d + (512 * i + k));
      assert b[k] == DiskByte(ds, 4096 + 4096 * d + 512 * i + k);
    }
    assert b == r;
    EntryBack(r);
    EntryLayout(EntryFrom(r));
  }

  lemma VolumeEqual(v: Volume, w: Volume)
    requires |v.tags| == |w.tags| && |v.data| == |w.data|
    requires forall c :: 0 <= c < |v.tags| ==> v.tags[c] == w.tags[c]
    requires forall c :: 0 <= c < |v.data| ==> v.data[c] == w.data[c]
    ensures v == w
  {
    assert v.tags == w.tags && v.data == w.data;
  }

  // ---------- writing a tag ----------

  function PutTagOn(ds: seq<Sector>, c: nat, t: Tag): (r: seq<Sector>)
    requires Disk(ds) && c < SIZE
    ensures Disk(r)
  {
    ds[TagSector(c) := PutTag(ds[TagSector(c)], TagIndex(c), t)]
  }

  lemma DataPastTags(ds: seq<Sector>, ds': seq<Sector>, c: nat)
    requires Disk(ds) && Disk(ds') && |ds| == |ds'| && ROOT <= c < SIZE
    requires forall s :: DataSector(ROOT, 0) <= s < |ds| ==> ds'[s] == ds[s]
    ensures DataOn(ds', c) == DataOn(ds, c)
  {
    forall p | 0 <= p < CLUSTER_SIZE ensures ByteOn(ds', c, p) == ByteOn(ds, c, p) {
      assert DataSector(c, p / SECTOR_SIZE) >= DataSector(ROOT, 0);
    }
  }

  /** Rewriting the sector of a tag changes that tag of the volume and nothing else. */
  lemma PutTagOk(ds: seq<Sector>, c: nat, t: Tag)
    requires Disk(ds) && c < SIZE && ValidTag(t)
    ensures VolumeOn(PutTagOn(ds, c, t)) == SetTag(VolumeOn(ds), c, t)
  {
    var ds' := PutTagOn(ds, c, t);
    forall d | 0 <= d < SIZE ensures TagOn(ds', d) == if d == c then t else TagOn(ds, d) {
      TagAddresses(c, d);
      TagUpdate(ds[TagSector(c)], TagIndex(c), t, TagIndex(d));
    }
    TagAddresses(c, c);
    forall d | 0 <= d < SIZE ensures DataOn(ds', d) == DataOn(ds, d) {
      if d >= ROOT {
        DataPastTags(ds, ds', d);
      }
    }
    VolumeEqual(VolumeOn(ds'), SetTag(VolumeOn(ds), c, t));
  }

  // ---------- writing a cluster ----------

  /** Sector number `i` of a cluster's buffer. */
  function SectorOf(buf: seq<Byte>, i: nat): (s: Sector)
    requires |buf| == CLUSTER_SIZE && i < SECTORS_PER_CLUSTER
    ensures |s| == SECTOR_SIZE
  {
    buf[SECTOR_SIZE * i..SECTOR_SIZE * i + SECTOR_SIZE]
  }

  /** The disk with the first `n` sectors of a cluster written. */
  function PutSectors(ds: seq<Sector>, c: nat, buf: seq<Byte>, n: nat): (r: seq<Sector>)
    requires Disk(ds) && (c < SIZE || c == TAG_EOF) && |buf| == CLUSTER_SIZE && n <= SECTORS_PER_CLUSTER
    ensures Disk(r) && |r| == |ds|
    ensures forall s :: 0 <= s < |ds| ==>
      r[s] == var i := s - DataSector(c, 0); if 0 <= i < n then SectorOf(buf, i) else ds[s]
  {
    if n == 0 then ds
    else PutSectors(ds, c, buf, n - 1)[DataSector(c, n - 1) := SectorOf(buf, n - 1)]
  }

  lemma PutNextSector(ds: seq<Sector>, c: nat, buf: seq<Byte>, i: nat)
    requires Disk(ds) && (c < SIZE || c == TAG_EOF) && |buf| == CLUSTER_SIZE && i < SECTORS_PER_CLUSTER
    ensures DataSector(c, i) < |ds|
    ensures PutSectors(ds, c, buf, i + 1) == PutSectors(ds, c, buf, i)[DataSector(c, i) := SectorOf(buf, i)]
  {
    EofSectors(i);
  }

  /** Writing its eight sectors puts a cluster on the volume and changes nothing else. */
  lemma PutClusterOk(ds: seq<Sector>, c: nat, buf: seq<Byte>)
    requires Disk(ds) && ROOT <= c < SIZE && |buf| == CLUSTER_SIZE
    ensures VolumeOn(PutSectors(ds, c, buf, SECTORS_PER_CLUSTER)) == SetCluster(VolumeOn(ds), c, buf)
  {
    var ds' := PutSectors(ds, c, buf, SECTORS_PER_CLUSTER);
    forall d | 0 <= d < SIZE ensures TagOn(ds', d) == TagOn(ds, d) {
      TagAddresses(d, d);
    }
    forall d | ROOT <= d < SIZE ensures ClusterOn(ds', d) == if d == c then buf else ClusterOn(ds, d) {
      PutClusterBytes(ds, c, buf, d);
    }
    VolumeEqual(VolumeOn(ds'), SetCluster(VolumeOn(ds), c, buf));
  }

  /** Written to EOF, a cluster lands on the sectors before the partition and leaves the volume alone. */
  lemma PutEofOk(ds: seq<Sector>, buf: seq<Byte>)
    requires Disk(ds) && |buf| == CLUSTER_SIZE
    ensures VolumeOn(PutSectors(ds, TAG_EOF, buf, SECTORS_PER_CLUSTER)) == VolumeOn(ds)
  {
    var ds' := PutSectors(ds, TAG_EOF, buf, SECTORS_PER_CLUSTER);
    EofSectors(0);
    forall d | 0 <= d < SIZE ensures TagOn(ds', d) == TagOn(ds, d) {
      TagAddresses(d, d);
    }
    forall d | ROOT <= d < SIZE ensures DataOn(ds', d) == DataOn(ds, d) {
      DataPastTags(ds, ds', d);
    }
    VolumeEqual(VolumeOn(ds'), VolumeOn(ds));
  }

  lemma PutClusterBytes(ds: seq<Sector>, c: nat, buf: seq<Byte>, d: nat)
    requires Disk(ds) && ROOT <= c < SIZE && |buf| == CLUSTER_SIZE && ROOT <= d < SIZE
    ensures ClusterOn(PutSectors(ds, c, buf, SECTORS_PER_CLUSTER), d) == if d == c then buf else ClusterOn(ds, d)
  {
    var ds' := PutSectors(ds, c, buf, SECTORS_PER_CLUSTER);
    forall p | 0 <= p < CLUSTER_SIZE
      ensures ByteOn(ds', d, p) == if d == c then buf[p] else ByteOn(ds, d, p)
    {
      var i := p / SECTOR_SIZE;
      assert p == SECTOR_SIZE * i + p % SECTOR_SIZE;
      DataAddresses(c, 0, d, i);
    }
  }

  // ---------- mkfs ----------

  /** The tag mkfs gives cluster `c`: the superblock and the root alone, the tag table one chain. */
  function MkfsTag(c: nat): Tag {
    Tag(if 1 < c < ROOT then c - 1 else TAG_EOF, if 1 <= c < ROOT - 1 then c + 1 else TAG_EOF)
  }

  /** The tags with the first `n` clusters marked as mkfs marks them. */
  function MkfsMarked(tags: seq<Tag>, n: nat): (r: seq<Tag>)
    ensures |r| == |tags|
    ensures forall c :: 0 <= c < |tags| ==> r[c] == if c < n then MkfsTag(c) else tags[c]
  {
    seq(|tags|, c requires 0 <= c < |tags| => if c < n then MkfsTag(c) else tags[c])
  }

  lemma MkfsMarksNext(v: Volume, n: nat)
    requires n < |v.tags|
    ensures SetTag(v.(tags := MkfsMarked(v.tags, n)), n, MkfsTag(n)) == v.(tags := MkfsMarked(v.tags, n + 1))
  {
    assert MkfsMarked(v.tags, n)[n := MkfsTag(n)] == MkfsMarked(v.tags, n + 1);
  }

  function MkfsTags(tags: seq<Tag>): (r: seq<Tag>) {
    MkfsMarked(tags, ROOT + 1)
  }

  function MkfsLayout(): (lay: Layout)
    ensures |lay.place| == SIZE
    ensures forall c :: 0 <= c < SIZE ==> lay.place[c] == MkfsPlace(c)
  {
    Layout(map[0 := [0], TAG_TABLE := seq(TABLE_CLUSTERS, i requires 0 <= i => i + 1), ROOT := [ROOT]],
           seq(SIZE, c requires 0 <= c => MkfsPlace(c)))
  }

  function MkfsPlace(c: nat): Option<(nat, nat)> {
    if c == 0 || c == ROOT then Some((c, 0)) else if c < ROOT then Some((TAG_TABLE, c - 1)) else None
  }

  /** The tags mkfs leaves: the superblock and the root by themselves, and the tag table one chain. */
  lemma MkfsTable(tags: seq<Tag>)
    requires |tags| == SIZE
    ensures var r := MkfsTags(tags);
            && |r| == 262144
            && r[0] == r[1025] == Tag(0xFFFF_FFFF, 0xFFFF_FFFF)
            && r[1] == Tag(0xFFFF_FFFF, 2) && r[1024] == Tag(1023, 0xFFFF_FFFF)
            && (forall c :: 2 <= c < 1024 ==> r[c] == Tag(c - 1, c + 1))
            && forall c :: 1026 <= c < 262144 ==> r[c] == tags[c]
  {}

  /** After mkfs the clusters above the root are the free ones if and only if they were marked free before. */
  lemma MkfsFree(tags: seq<Tag>)
    requires |tags| == SIZE
    ensures (forall c :: 0 <= c < SIZE ==> (MkfsTags(tags)[c] == FREE <==> c > ROOT))
            <==> (forall c :: ROOT < c < SIZE ==> tags[c] == FREE)
    ensures (forall c :: ROOT < c < SIZE ==> tags[c] == FREE) <==> Chained(MkfsTags(tags), MkfsLayout())
  {
    var tags', lay := MkfsTags(tags), MkfsLayout();
    forall c | ROOT < c < SIZE ensures tags[c] == tags'[c] {}
    if forall c :: ROOT < c < SIZE ==> tags[c] == FREE {
      forall h, i: nat | h in lay.chains && i < |lay.chains[h]| ensures Slot(tags', lay, h, i) {}
      forall c: nat | c < SIZE ensures Placed(tags', lay, c) {}
    }
    if Chained(tags', lay) {
      forall c: nat | ROOT < c < SIZE ensures tags[c] == FREE {
        assert Placed(tags', lay, c);
      }
    }
  }

  /** A whole file system of nothing but the root directory, without a file. */
  ghost predicate EmptyFileSystem(v: Volume) {
    exists lay, owner :: Whole(v, lay, {ROOT}, owner) && NoFiles(lay)
  }

  ghost predicate NoFiles(lay: Layout) {
    forall h :: h in lay.chains ==> h <= ROOT
  }

  /** The chains mkfs marks below the root stay there. */
  lemma {:induction false} SystemChain(tags: seq<Tag>, lay: Layout, h: nat, i: nat)
    requires Chained(MkfsTags(tags), lay) && h in lay.chains && h < ROOT && i < |lay.chains[h]|
    ensures lay.chains[h][i] < ROOT
  {
    if i > 0 {
      SystemChain(tags, lay, h, i - 1);
      assert Slot(MkfsTags(tags), lay, h, i - 1) && Slot(MkfsTags(tags), lay, h, i);
    }
  }

  lemma MkfsEmptyOnly(v: Volume, lay: Layout, owner: Owners)
    requires Whole(v.(tags := MkfsTags(v.tags)), lay, {ROOT}, owner) && NoFiles(lay)
    ensures (forall c :: ROOT < c < SIZE ==> v.tags[c] == FREE) && EmptyDir(v, ROOT)
  {
    var w := v.(tags := MkfsTags(v.tags));
    assert Dir(lay, ROOT);
    forall c: nat | ROOT < c < SIZE ensures v.tags[c] == FREE {
      FreeIffUnplaced(w.tags, lay, c);
      if h, i: nat :| h in lay.chains && i < |lay.chains[h]| && lay.chains[h][i] == c {
        if h < ROOT {
          SystemChain(v.tags, lay, h, i);
        }
      }
    }
    forall i: nat | i < ENTRIES ensures !IsValid(SlotOf(v, ROOT, i)) {
      assert Filed(w, lay, {ROOT}, owner, ROOT, i);
      assert SlotOf(w, ROOT, i) == SlotOf(v, ROOT, i);
    }
  }

  /**
   Mkfs leaves an empty whole file system if and only if the tags above the root were free and the root
   had no entries: it clears neither.
   */
  lemma MkfsEmpty(v: Volume)
    requires |v.tags| == |v.data| == SIZE && forall c :: 0 <= c < SIZE ==> |v.data[c]| == CLUSTER_SIZE
    ensures EmptyFileSystem(v.(tags := MkfsTags(v.tags)))
            <==> (forall c :: ROOT < c < SIZE ==> v.tags[c] == FREE) && EmptyDir(v, ROOT)
  {
    var w := v.(tags := MkfsTags(v.tags));
    if (forall c :: ROOT < c < SIZE ==> v.tags[c] == FREE) && EmptyDir(v, ROOT) {
      MkfsWhole(v);
    }
    forall lay, owner | Whole(w, lay, {ROOT}, owner) && NoFiles(lay)
      ensures (forall c :: ROOT < c < SIZE ==> v.tags[c] == FREE) && EmptyDir(v, ROOT)
    {
      MkfsEmptyOnly(v, lay, owner);
    }
  }

  lemma MkfsWhole(v: Volume)
    requires |v.tags| == |v.data| == SIZE && forall c :: 0 <= c < SIZE ==> |v.data[c]| == CLUSTER_SIZE
    requires (forall c :: ROOT < c < SIZE ==> v.tags[c] == FREE) && EmptyDir(v, ROOT)
    ensures Whole(v.(tags := MkfsTags(v.tags)), MkfsLayout(), {ROOT}, map[]) && NoFiles(MkfsLayout())
  {
    var w, lay := v.(tags := MkfsTags(v.tags)), MkfsLayout();
    MkfsFree(v.tags);
    assert Dir(lay, ROOT);
    forall d, i: nat | d in {ROOT} && i < ENTRIES ensures Filed(w, lay, {ROOT}, map[], d, i) {
      assert SlotOf(w, ROOT, i) == SlotOf(v, ROOT, i) && !IsValid(SlotOf(v, ROOT, i));
    }
  }

  lemma {:induction false} FreeAbove(tags: seq<Tag>, n: nat)
    requires n <= |tags| && forall c :: 0 <= c < n ==> (tags[c] == FREE <==> c > ROOT)
    ensures FreeCount(tags[..n]) == if n > ROOT then n - ROOT - 1 else 0
  {
    if n > 0 {
      assert tags[..n][..n - 1] == tags[..n - 1];
      FreeAbove(tags, n - 1);
    }
  }

  lemma {:induction false} ZerosDecode(s: seq<Byte>)
    requires forall i :: 0 <= i < |s| ==> s[i] == 0
    ensures FromLE(s) == 0
  {
    if s != [] {
      ZerosDecode(s[1..]);
    }
  }

  /** On a zeroed disk every tag is free, and the root has no entries. */
  lemma ZeroedDisk(ds: seq<Sector>)
    requires Disk(ds) && forall s :: 0 <= s < |ds| ==> ds[s] == Zeros(SECTOR_SIZE)
    ensures var v := VolumeOn(ds);
            (forall c :: ROOT < c < SIZE ==> v.tags[c] == FREE) && EmptyDir(v, ROOT)
  {
    var v := VolumeOn(ds);
    forall c | 0 <= c < SIZE ensures v.tags[c] == FREE {
      var b := Record(Zeros(SECTOR_SIZE), TAG_BYTES, TagIndex(c));
      ZerosDecode(b[..8]);
      ZerosDecode(b[8..]);
    }
    assert Cluster(v, ROOT) == Zeros(CLUSTER_SIZE);
    forall i: nat | i < ENTRIES ensures !IsValid(SlotOf(v, ROOT, i)) {
      ClearedSlots(v, ROOT, i);
    }
  }

  /** So mkfs on a zeroed disk makes a whole file system with every cluster above the root free. */
  lemma MkfsOnZeroedDisk(ds: seq<Sector>)
    requires Disk(ds) && forall s :: 0 <= s < |ds| ==> ds[s] == Zeros(SECTOR_SIZE)
    ensures var v := VolumeOn(ds);
            var w := v.(tags := MkfsTags(v.tags));
            Whole(w, MkfsLayout(), {ROOT}, map[]) && FreeCount(w.tags) == SIZE - ROOT - 1
  {
    var v := VolumeOn(ds);
    ZeroedDisk(ds);
    MkfsWhole(v);
    MkfsFree(v.tags);
    var tags := MkfsTags(v.tags);
    FreeAbove(tags, SIZE);
    assert tags[..SIZE] == tags;
  }

  /** Every volume reachable from mkfs on a zeroed disk is a whole file system. */
  lemma ReachableWhole(ds: seq<Sector>, ops: seq<Op>) returns (lay: Layout, dirs: set<nat>, owner: Owners)
    requires Disk(ds) && forall s :: 0 <= s < |ds| ==> ds[s] == Zeros(SECTOR_SIZE)
    requires var v := VolumeOn(ds); AllAllowed(v.(tags := MkfsTags(v.tags)), ops)
    ensures var v := VolumeOn(ds);
            && Whole(Run(v.(tags := MkfsTags(v.tags)), ops), lay, dirs, owner)
            && SystemKept(MkfsLayout(), lay)
  {
    var v := VolumeOn(ds);
    MkfsOnZeroedDisk(ds);
    lay, dirs, owner := RunKeepsWhole(v.(tags := MkfsTags(v.tags)), MkfsLayout(), {ROOT}, map[], ops);
  }

  /** Mkfs over any file system that came from mkfs on a zeroed disk erases nothing: the volume stays as it was. */
  lemma MkfsErasesNothing(ds: seq<Sector>, ops: seq<Op>)
    requires Disk(ds) && forall s :: 0 <= s < |ds| ==> ds[s] == Zeros(SECTOR_SIZE)
    requires var v := VolumeOn(ds); AllAllowed(v.(tags := MkfsTags(v.tags)), ops)
    ensures var v := VolumeOn(ds);
            var w := Run(v.(tags := MkfsTags(v.tags)), ops);
            w.(tags := MkfsTags(w.tags)) == w
  {
    var v := VolumeOn(ds);
    var w := Run(v.(tags := MkfsTags(v.tags)), ops);
    var lay, dirs, owner := ReachableWhole(ds, ops);
    forall c: nat | c < SIZE ensures MkfsTags(w.tags)[c] == w.tags[c] {
      if c <= ROOT {
        SystemTag(w, lay, dirs, owner, c);
      }
    }
    assert MkfsTags(w.tags) == w.tags;
  }

  /** While the chains below the root are those of mkfs, so are their tags and the root's. */
  lemma SystemTag(w: Volume, lay: Layout, dirs: set<nat>, owner: Owners, c: nat)
    requires Whole(w, lay, dirs, owner) && SystemKept(MkfsLayout(), lay) && c <= ROOT
    ensures w.tags[c] == MkfsTag(c)
  {
    if c == ROOT {
      assert Dir(lay, ROOT);
      DirPlace(w, lay, ROOT);
    } else {
      var h, i := if c == 0 then 0 else TAG_TABLE, if c == 0 then 0 else c - 1;
      assert MkfsLayout().chains[h][i] == c;
      assert Slot(w.tags, lay, h, i);
    }
  }
}
