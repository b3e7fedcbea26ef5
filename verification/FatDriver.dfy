/**
 The driver in place (src/drivers/fat64/fat64.c:82-152, 227-405, 493-675): loops over the sectors of a
 disk and the buffers of file handles, each proved to do to the volume what its specification says.
 */
module FatDriver {
  import opened Common
  import opened FatVolume
  import opened FatCodec
  import opened FatFile
  import opened FatDirectory
  import opened FatSystem
  import opened FatDisk

  /** A file handle with the buffer for its current cluster. */
  class File {
    var entry: DirEntry
    var tags: Tag
    var cluster: nat
    var abs: nat
    var location: nat
    const buf: array<Byte>
    var dirty: bool

    ghost predicate Valid() {
      buf.Length == CLUSTER_SIZE
    }

    ghost function Value(): (h: Handle)
      requires Valid()
      reads this, buf
      ensures |h.buf| == CLUSTER_SIZE
    {
      Handle(entry, tags, cluster, abs, location, buf[..], dirty)
    }

    /** A handle cleared by memset. */
    constructor ()
      ensures Valid() && fresh(buf)
      ensures Value() == Handle(NewEntry([], 0, 0, 0, 0, 0), FREE, 0, 0, 0, Zeros(CLUSTER_SIZE), false)
    {
      entry := NewEntry([], 0, 0, 0, 0, 0);
      tags := FREE;
      cluster, abs, location, dirty := 0, 0, 0, false;
      buf := new Byte[CLUSTER_SIZE](i => 0);
      new;
      assert buf[..] == Zeros(CLUSTER_SIZE);
    }
  }

  /** A cluster the driver may read and write as data. */
  predicate OnVolume(c: nat) {
    ROOT <= c < SIZE
  }

  class Drive {
    const disk: array<Sector>

    ghost predicate Valid()
      reads disk
    {
      Disk(disk[..])
    }

    ghost function Vol(): (v: Volume)
      requires Valid()
      reads disk
    {
      VolumeOn(disk[..])
    }

    // ---------- tags ----------

    method MarkCluster(c: nat, t: Tag)
      requires Valid() && c < SIZE && ValidTag(t)
      modifies disk
      ensures Valid() && Vol() == SetTag(old(Vol()), c, t)
      ensures forall s :: 0 <= s < TABLE_START ==> disk[s] == old(disk[s])
    {
      var s := TagSector(c);
      TagAddresses(c, c);
      var sector := disk[s];
      sector := PutTag(sector, TagIndex(c), t);
      disk[s] := sector;
      assert disk[..] == PutTagOn(old(disk[..]), c, t);
      PutTagOk(old(disk[..]), c, t);
    }

    /** Past the end of the disk the tag read is anything. */
    method LoadClusterTags(f: File)
      requires Valid() && f.Valid()
      modifies f`tags
      ensures f.cluster < SIZE ==> f.tags == TagOf(Vol(), f.cluster)
    {
      if f.cluster < SIZE {
        TagAddresses(f.cluster, f.cluster);
        f.tags := TagAt(disk[TagSector(f.cluster)], TagIndex(f.cluster));
      } else {
        f.tags := *;
      }
    }

    method SaveClusterTags(f: File)
      requires Valid() && f.cluster < SIZE && ValidTag(f.tags)
      modifies disk
      ensures Valid() && Vol() == SetTag(old(Vol()), f.cluster, f.tags)
    {
      MarkCluster(f.cluster, f.tags);
    }

    /** The scan, a sector of tags at a time, finds the cluster that a scan tag by tag would. */
    method GetFreeCluster(prev: nat, next: nat) returns (c: nat)
      requires Valid() && prev < U64 && next < U64
      modifies disk
      ensures Valid()
      ensures var (tags, x) := GetFree(old(Vol()).tags, prev, next); c == x && Vol() == old(Vol()).(tags := tags)
    {
      ghost var ds, v := disk[..], Vol();
      var sector := Zeros(SECTOR_SIZE);
      var scan := 0;
      while scan < SIZE
        invariant scan <= SIZE && disk[..] == ds
        invariant scan % TAGS_PER_SECTOR != 0 ==> sector == ds[TagSector(scan)]
        invariant forall j :: 0 <= j < scan ==> v.tags[j] != FREE
      {
        TagAddresses(scan, scan);
        if TagIndex(scan) == 0 {
          sector := disk[TagSector(scan)];
        }
        assert TagAt(sector, TagIndex(scan)) == v.tags[scan];
        if TagAt(sector, TagIndex(scan)) == FREE {
          break;
        }
        scan := scan + 1;
      }
      assert FirstFree(v.tags) == scan;
      if scan >= SIZE {
        return TAG_EOF;
      }
      MarkCluster(scan, Tag(prev, next));
      return scan;
    }

    // ---------- clusters ----------

    method IdeRead(s: nat, buf: array<Byte>, at: nat)
      requires Valid() && s < disk.Length && at + SECTOR_SIZE <= buf.Length
      modifies buf
      ensures buf[..] == old(buf[..at]) + disk[s] + old(buf[at + SECTOR_SIZE..])
    {
      assert |disk[..][s]| == SECTOR_SIZE;
      var sector := disk[s];
      forall p | 0 <= p < SECTOR_SIZE {
        buf[at + p] := sector[p];
      }
      assert forall p :: at <= p < at + SECTOR_SIZE ==> buf[p] == sector[p - at];
    }

    method LoadCluster(f: File)
      requires Valid() && f.Valid() && OnVolume(f.cluster)
      modifies f.buf
      ensures f.buf[..] == Cluster(Vol(), f.cluster)
    {
      var c := f.cluster;
      for i := 0 to SECTORS_PER_CLUSTER
        invariant forall p :: 0 <= p < SECTOR_SIZE * i ==> f.buf[p] == ByteOn(disk[..], c, p)
      {
        DataAddresses(c, i, c, i);
        ghost var before := f.buf[..];
        IdeRead(DataSector(c, i), f.buf, SECTOR_SIZE * i);
        SectorRead(disk[..], c, i, before, f.buf[..]);
      }
      assert f.buf[..] == ClusterOn(disk[..], c);
    }

    method WriteSectors(c: nat, buf: array<Byte>)
      requires Valid() && (c < SIZE || c == TAG_EOF) && buf.Length == CLUSTER_SIZE
      modifies disk
      ensures Valid() && disk[..] == PutSectors(old(disk[..]), c, buf[..], SECTORS_PER_CLUSTER)
    {
      ghost var ds, b := disk[..], buf[..];
      for i := 0 to SECTORS_PER_CLUSTER
        invariant disk[..] == PutSectors(ds, c, b, i) && buf[..] == b
      {
        PutNextSector(ds, c, b, i);
        disk[DataSector(c, i)] := SectorOf(buf[..], i);
      }
    }

    /** A cluster that was never allocated is EOF. */
    method SaveCluster(f: File)
      requires Valid() && f.Valid() && (f.dirty ==> OnVolume(f.cluster) || f.cluster == TAG_EOF)
      modifies disk, f`dirty
      ensures Valid() && (Vol(), f.Value()) == Save(old(Vol()), old(f.Value()))
      ensures old(f.dirty) ==> disk[..] == PutSectors(old(disk[..]), f.cluster, f.buf[..], SECTORS_PER_CLUSTER)
    {
      if !f.dirty {
        return;
      }
      ghost var ds := disk[..];
      WriteSectors(f.cluster, f.buf);
      PutAnyOk(ds, f.cluster, f.buf[..]);
      f.dirty := false;
    }

    method OpenCluster(f: File)
      requires Valid() && f.Valid() && OnVolume(f.cluster)
      modifies f`tags, f.buf
      ensures f.Value() == Open(Vol(), old(f.Value()))
    {
      LoadCluster(f);
      LoadClusterTags(f);
    }

    method CopyEntry(e: DirEntry, buf: array<Byte>)
      requires buf.Length == CLUSTER_SIZE && e.num < ENTRIES && ValidEntry(e)
      modifies buf
      ensures buf[..] == PutEntry(old(buf[..]), e.num, e)
    {
      var bytes := EntryBytes(e);
      forall p | 0 <= p < ENTRY_BYTES {
        buf[ENTRY_BYTES * e.num + p] := bytes[p];
      }
    }

    method SaveDirEntry(e: DirEntry)
      requires Valid() && OnVolume(e.parent) && e.num < ENTRIES && ValidEntry(e)
      modifies disk
      ensures Valid() && Vol() == SaveEntry(old(Vol()), e)
    {
      var dir := new File();
      dir.cluster := e.parent;
      OpenCluster(dir);
      CopyEntry(e, dir.buf);
      dir.dirty := true;
      SaveCluster(dir);
    }

    // ---------- files ----------

    /** At the end of a cluster: save it and open the next, or leave the location as given. */
    method Turn(f: File, atEnd: nat)
      requires Valid() && f.Valid() && Navigable(f.Value())
      modifies disk, f, f.buf
      ensures Valid() && (Vol(), f.Value()) == FatFile.Turn(old(Vol()), old(f.Value()), atEnd)
    {
      SaveCluster(f);
      if f.tags.next != TAG_EOF {
        f.cluster := f.tags.next;
        OpenCluster(f);
        f.location := 0;
      } else {
        f.location := atEnd;
      }
    }

    method Getc(f: File) returns (data: Byte, status: Status)
      requires Valid() && f.Valid() && InBuffer(f.Value()) && Navigable(f.Value())
      modifies disk, f, f.buf
      ensures Valid() && (Vol(), f.Value(), data, status) == FatFile.Getc(old(Vol()), old(f.Value()))
    {
      if f.cluster == 0 {
        return 0, BadHandle;
      }
      if f.location == LOC_EOF {
        return 0, Eof;
      }
      data := f.buf[f.location];
      f.location := f.location + 1;
      f.abs := f.abs + 1;
      if f.location == CLUSTER_SIZE {
        Turn(f, CLUSTER_SIZE);
      }
      status := Success;
    }

    /** Puts a byte in the buffer, saves the entry if the file got longer, and turns at the end of the cluster. */
    method Store(f: File, data: Byte)
      requires Valid() && f.Valid() && Storable(f.Value())
      modifies disk, f, f.buf
      ensures Valid() && (Vol(), f.Value()) == FatFile.Store(old(Vol()), old(f.Value()), data)
    {
      ghost var h := f.Value();
      f.buf[f.location] := data;
      f.location := f.location + 1;
      f.abs := f.abs + 1;
      f.dirty := true;
      assert f.Value() == Poked(h, data);
      if f.abs > f.entry.size {
        f.entry := f.entry.(size := f.entry.size + 1);
        SaveDirEntry(f.entry);
      }
      assert (Vol(), f.Value()) == Poke(old(Vol()), h, data);
      if f.location == CLUSTER_SIZE {
        Turn(f, LOC_EOF);
      }
    }

    /** Links a new cluster behind the last one and moves there. */
    method Grow(f: File) returns (status: Status)
      requires Valid() && f.Valid() && Growable(Vol(), f.Value())
      modifies disk, f, f.buf
      ensures Valid() && (Vol(), f.Value(), status) == FatFile.Grow(old(Vol()), old(f.Value()))
    {
      var c := GetFreeCluster(f.cluster, TAG_EOF);
      if c == TAG_EOF {
        return Eof;
      }
      f.tags := Tag(f.tags.prev, c);
      SaveClusterTags(f);
      SaveCluster(f);
      f.cluster := f.tags.next;
      OpenCluster(f);
      f.location := 0;
      status := Success;
    }

    method Putc(f: File, data: Byte) returns (status: Status)
      requires Valid() && f.Valid() && InBuffer(f.Value()) && Ready(Vol(), f.Value())
      modifies disk, f, f.buf
      ensures Valid() && (Vol(), f.Value(), status) == FatFile.Putc(old(Vol()), old(f.Value()), data)
    {
      if f.cluster == 0 {
        return BadHandle;
      }
      if f.location == LOC_EOF {
        if IsDirectory(f.entry) {
          return Eof;
        }
        status := Grow(f);
        if status != Success {
          return;
        }
      }
      Store(f, data);
      status := Success;
    }

    method Read(f: File, amount: nat, buf: array<Byte>) returns (status: Status)
      requires Valid() && f.Valid() && buf != f.buf && amount <= buf.Length && CanRead(Vol(), f.Value(), amount)
      modifies disk, f, f.buf, buf
      ensures Valid() && Readable(old(f.Value()))
      ensures var r := FatFile.Read(old(Vol()), old(f.Value()), amount);
              && Vol() == r.0 && f.Value() == r.1 && status == r.3 && |r.2| <= amount
              && Filled(old(buf[..]), r.2, |r.2|, buf[..])
    {
      ghost var r := FatFile.Read(Vol(), f.Value(), amount);
      assert r.2[0..] == r.2;
      for i := 0 to amount
        invariant Valid() && CanRead(Vol(), f.Value(), amount - i) && i <= |r.2|
        invariant Filled(old(buf[..]), r.2, i, buf[..])
        invariant Continues(r, i, FatFile.Read(Vol(), f.Value(), amount - i))
      {
        ReadTurn(Vol(), f.Value(), amount - i, r, i);
        var c;
        c, status := Getc(f);
        if status != Success {
          return;
        }
        buf[i] := c;
      }
      status := Success;
    }

    method Write(f: File, amount: nat, buf: array<Byte>) returns (status: Status)
      requires Valid() && f.Valid() && InBuffer(f.Value()) && buf != f.buf && amount <= buf.Length
      requires CanWrite(Vol(), f.Value(), buf[..amount])
      modifies disk, f, f.buf
      ensures Valid() && (Vol(), f.Value(), status) == FatFile.Write(old(Vol()), old(f.Value()), old(buf[..amount]))
    {
      ghost var v, h, bytes := Vol(), f.Value(), buf[..amount];
      for i := 0 to amount
        invariant Valid() && InBuffer(f.Value()) && buf[..amount] == bytes
        invariant CanWrite(Vol(), f.Value(), bytes[i..])
        invariant FatFile.Write(v, h, bytes) == FatFile.Write(Vol(), f.Value(), bytes[i..])
      {
        assert buf[i] == bytes[i..][0] && bytes[i..][1..] == bytes[i + 1..];
        status := Putc(f, buf[i]);
        if status != Success {
          return;
        }
      }
      status := Success;
    }

    method Flush(f: File)
      requires Valid() && f.Valid() && (f.dirty ==> OnVolume(f.cluster))
      modifies disk, f`dirty
      ensures Valid() && (Vol(), f.Value()) == Save(old(Vol()), old(f.Value()))
    {
      SaveCluster(f);
    }

    /** Removal, for a handle whose entry names a chain that ends. */
    method Rm(f: File, ghost n: nat) returns (status: Status)
      requires Valid() && f.Valid()
      requires f.cluster != 0 ==> Removable(Vol(), f.Value(), n)
      modifies disk, f
      ensures Valid() && status == (if old(f.cluster) == 0 then BadHandle else Success)
      ensures status == BadHandle ==> Vol() == old(Vol()) && f.Value() == old(f.Value())
      ensures status == Success ==> (Vol(), f.cluster) == FatDirectory.Rm(old(Vol()), old(f.Value()), n)
    {
      if f.cluster == 0 {
        return BadHandle;
      }
      f.entry := f.entry.(flags := 0);
      SaveDirEntry(f.entry);
      ghost var w, t, first := Vol(), f.tags, f.entry.file;
      f.cluster := f.entry.file;
      ghost var turns: int := n;
      while f.cluster != TAG_EOF
        invariant Valid() && Vol() == w.(tags := Vol().tags) && turns >= 0
        invariant Ends(Vol().tags, f.cluster, f.tags, turns)
        invariant Unchain(w.tags, first, t, n) == Unchain(Vol().tags, f.cluster, f.tags, turns)
        decreases turns
      {
        ghost var tags, c, tag := Vol().tags, f.cluster, f.tags;
        MarkCluster(f.cluster, FREE);
        f.cluster := f.tags.next;
        LoadClusterTags(f);
        UnchainTurn(tags, c, tag, turns, f.tags);
        turns := turns - 1;
      }
      status := Success;
    }

    // ---------- directories ----------

    /** Opens a slot in handle `f`, which keeps its value if there is nothing to open. */
    method DirEntry(d: File, index: nat, f: File) returns (status: Status)
      requires Valid() && d.Valid() && f.Valid() && d != f && d.buf != f.buf && OnVolume(d.cluster) && index != ENTRIES
      requires index < ENTRIES && IsValid(SlotOf(Vol(), d.cluster, index)) ==>
                 OnVolume(SlotOf(Vol(), d.cluster, index).file)
      modifies d.buf, f, f.buf
      ensures var r := OpenSlot(Vol(), old(d.Value()), index);
              && d.Value() == r.0 && status == r.2
              && f.Value() == if r.1.Some? then r.1.value else old(f.Value())
    {
      ghost var loaded := d.Value().(buf := Cluster(Vol(), d.cluster));
      LoadCluster(d);
      assert d.Value() == loaded;
      if index > ENTRIES {
        return Eof;
      }
      var e := EntryAt(d.buf[..], index);
      if !IsValid(e) {
        return Eof;
      }
      f.entry, f.tags, f.cluster, f.abs, f.location, f.dirty := e, FREE, e.file, 0, 0, false;
      OpenCluster(f);
      status := Success;
    }

    method GetFreeDirEntry(d: File) returns (num: nat)
      requires d.Valid()
      ensures num == FreeSlot(d.buf[..], 0)
    {
      num := 0;
      while num < ENTRIES
        invariant num <= ENTRIES && FreeSlot(d.buf[..], 0) == FreeSlot(d.buf[..], num)
      {
        if !IsValid(EntryAt(d.buf[..], num)) {
          return;
        }
        num := num + 1;
      }
      num := LOC_EOF;
    }

    /** In a directory with an unused slot. */
    method Touch(d: File, name: seq<Byte>) returns (status: Status)
      requires Valid() && d.Valid() && |name| < 256
      requires OnVolume(d.cluster) && OnVolume(d.entry.file) && FreeSlot(d.buf[..], 0) < ENTRIES
      modifies disk, d.buf
      ensures Valid() && status == Success && (Vol(), d.Value()) == FatDirectory.Touch(old(Vol()), old(d.Value()), name)
      ensures var i := FreeSlot(old(d.buf[..]), 0);
              Says(SlotOf(Vol(), d.entry.file, i), name, NextCluster(old(Vol()).tags), d.entry.file, 0, 1, i)
    {
      TouchSays(Vol(), d.Value(), name);
      var num := GetFreeDirEntry(d);
      LoadCluster(d);
      var f := new File();
      f.cluster := GetFreeCluster(TAG_EOF, TAG_EOF);
      f.entry := NewEntry(name, f.cluster, d.entry.file, 0, VALID_FLAG, num);
      SaveDirEntry(f.entry);
      status := Success;
    }

    /** Saves the zeros of a handle whose buffer was never filled; for EOF they go before the partition. */
    method SaveZeros(f: File)
      requires Valid() && f.Valid() && f.dirty && (OnVolume(f.cluster) || f.cluster == TAG_EOF)
      requires f.buf[..] == Zeros(CLUSTER_SIZE)
      modifies disk, f`dirty
      ensures Valid() && Vol() == SetCluster(old(Vol()), f.cluster, Zeros(CLUSTER_SIZE))
      ensures f.cluster == TAG_EOF ==> forall s :: 0 <= s < PARTITION ==> disk[s] == Zeros(SECTOR_SIZE)
    {
      ghost var ds := disk[..];
      SaveCluster(f);
      assert disk[..] == PutSectors(ds, f.cluster, Zeros(CLUSTER_SIZE), SECTORS_PER_CLUSTER);
      EofZeros(ds);
    }

    /** On a full volume the zeros for the new cluster go to the sectors before the partition. */
    method FileDirectory(d: File, name: seq<Byte>)
      requires Valid() && d.Valid() && |name| < 256
      requires OnVolume(d.entry.file) && FreeSlot(d.buf[..], 0) < ENTRIES
      requires FirstFree(Vol().tags) >= ROOT
      modifies disk
      ensures Valid() && Vol() == FatDirectory.Mkdir(old(Vol()), old(d.Value()), name)
      ensures FirstFree(old(Vol()).tags) == SIZE ==> forall s :: 0 <= s < PARTITION ==> disk[s] == Zeros(SECTOR_SIZE)
    {
      var num := GetFreeDirEntry(d);
      var f := new File();
      f.cluster := GetFreeCluster(TAG_EOF, TAG_EOF);
      f.dirty := true;
      f.entry := NewEntry(name, f.cluster, d.entry.file, CLUSTER_SIZE, VALID_FLAG + DIRECTORY_FLAG, num);
      SaveDirEntry(f.entry);
      SaveZeros(f);
    }

    method Mkdir(d: File, name: seq<Byte>) returns (status: Status)
      requires Valid() && d.Valid() && |name| < 256
      requires OnVolume(d.entry.file) && FreeSlot(d.buf[..], 0) < ENTRIES
      requires FirstFree(Vol().tags) >= ROOT
      modifies disk
      ensures Valid() && status == Success && Vol() == FatDirectory.Mkdir(old(Vol()), old(d.Value()), name)
      ensures FirstFree(old(Vol()).tags) == SIZE ==> forall s :: 0 <= s < PARTITION ==> disk[s] == Zeros(SECTOR_SIZE)
      ensures FirstFree(old(Vol()).tags) != d.entry.file ==>
                SaysDirectory(Vol(), d.entry.file, FreeSlot(old(d.buf[..]), 0), name, NextCluster(old(Vol()).tags))
    {
      ghost var v, dir := Vol(), d.Value();
      FileDirectory(d, name);
      if FirstFree(v.tags) != dir.entry.file {
        MkdirSays(v, dir, name);
      }
      status := Success;
    }

    // ---------- programs ----------

    /** Opens a file, writes to it and flushes it. */
    method WriteSlot(d: File, i: nat, amount: nat, data: array<Byte>, ghost lay: Layout, ghost dirs: set<nat>,
                     ghost owner: Owners)
      returns (status: Status)
      requires Valid() && d.Valid() && data != d.buf && amount <= data.Length
      requires Whole(Vol(), lay, dirs, owner) && FileSlot(Vol(), dirs, d.Value(), i)
      modifies disk, d.buf
      ensures Valid() && (Vol(), status) == WriteFile(old(Vol()), old(d.Value()), i, old(data[..amount]))
      ensures d.Value() == old(d.Value()).(buf := Cluster(old(Vol()), d.cluster))
    {
      ghost var v, dir, bytes := Vol(), d.Value(), data[..amount];
      SlotOnVolume(v, lay, dirs, owner, dir, i);
      ReopenOk(v, lay, dirs, owner, dir, i);
      var f := new File();
      status := DirEntry(d, i, f);
      ghost var h := f.Value();
      FileCanWrite(v, lay, h, 0, bytes);
      status := Write(f, amount, data);
      WroteOnVolume(v, lay, dirs, owner, h, bytes);
      Flush(f);
    }

    /** Opens a file and reads from it as many bytes as its clusters have, or fewer. */
    method ReadSlot(d: File, i: nat, amount: nat, data: array<Byte>, ghost lay: Layout, ghost dirs: set<nat>,
                    ghost owner: Owners)
      returns (status: Status)
      requires Valid() && d.Valid() && data != d.buf && amount <= data.Length
      requires Whole(Vol(), lay, dirs, owner) && FileSlot(Vol(), dirs, d.Value(), i)
      requires var f := SlotOf(Vol(), d.cluster, i).file;
               f in lay.chains && amount <= CLUSTER_SIZE * |lay.chains[f]|
      modifies disk, d.buf, data
      ensures Valid() && Vol() == old(Vol())
      ensures var r := ReadFile(old(Vol()), old(d.Value()), i, amount);
              status == r.1 && Filled(old(data[..]), r.0, |r.0|, data[..])
    {
      ghost var v, dir := Vol(), d.Value();
      SlotOnVolume(v, lay, dirs, owner, dir, i);
      ReopenOk(v, lay, dirs, owner, dir, i);
      var f := new File();
      status := DirEntry(d, i, f);
      ghost var h := f.Value();
      FileCanRead(v, lay, h, 0, amount);
      ReadLeavesVolume(v, lay, h, amount);
      status := Read(f, amount, data);
    }

    /**
     The round trip on the disk: what a program writes to a file and flushes is what it reads when it has
     opened the file again, if the volume has the clusters for it.
     */
    method WriteReadSlot(d: File, i: nat, amount: nat, data: array<Byte>, back: array<Byte>,
                         ghost lay: Layout, ghost dirs: set<nat>, ghost owner: Owners)
      returns (status: Status)
      requires Valid() && d.Valid() && data != d.buf && back != d.buf && data != back
      requires amount <= data.Length && amount <= back.Length
      requires Whole(Vol(), lay, dirs, owner) && FileSlot(Vol(), dirs, d.Value(), i)
      requires var f := SlotOf(Vol(), d.cluster, i).file;
               f in lay.chains && Clusters(amount) <= |lay.chains[f]| + FreeCount(Vol().tags)
      modifies disk, d.buf, back
      ensures Valid() && status == Success && back[..amount] == data[..amount]
      ensures Vol() == WriteFile(old(Vol()), old(d.Value()), i, data[..amount]).0 && FileSystem(Vol())
    {
      ghost var v, dir, bytes := Vol(), d.Value(), data[..amount];
      status := WriteSlot(d, i, amount, data, lay, dirs, owner);
      ghost var lay' := WrittenSlot(v, lay, dirs, owner, dir, i, bytes);
      SlotByCluster(Vol(), dir, d.Value(), i, amount);
      ghost var before := back[..];
      status := ReadSlot(d, i, amount, back, lay', dirs, owner);
      FilledFirst(before, bytes, back[..]);
    }

    /** The same for a file the program has created first. */
    method CreateWriteRead(d: File, name: seq<Byte>, amount: nat, data: array<Byte>, back: array<Byte>,
                           ghost lay: Layout, ghost dirs: set<nat>, ghost owner: Owners)
      returns (status: Status)
      requires Valid() && d.Valid() && data != d.buf && back != d.buf && data != back && |name| < 256
      requires amount <= data.Length && amount <= back.Length
      requires Whole(Vol(), lay, dirs, owner) && OnDir(dirs, d.Value())
      requires Room(Vol(), d.cluster, FreeSlot(d.buf[..], 0)) && Clusters(amount) <= FreeCount(Vol().tags)
      modifies disk, d.buf, back
      ensures Valid() && status == Success && back[..amount] == data[..amount]
      ensures Vol() == CreateWrite(old(Vol()), old(d.Value()), name, data[..amount]) && FileSystem(Vol())
    {
      ghost var v, dir, bytes := Vol(), d.Value(), data[..amount];
      var i := GetFreeDirEntry(d);
      DirOnVolume(v, lay, dirs, owner, dir);
      status := Touch(d, name);
      ghost var lay', owner' := TouchedSlot(v, lay, dirs, owner, dir, name, Vol(), d.Value());
      ghost var w, touched := Vol(), d.Value();
      WriteByCluster(w, dir, touched, i, bytes);
      status := WriteReadSlot(d, i, amount, data, back, lay', dirs, owner');
      assert data[..amount] == bytes;
    }

    // ---------- mkfs ----------

    method WriteSystemSectors(boot: Sector, super: Sector)
      requires Valid() && |boot| == |super| == SECTOR_SIZE
      modifies disk
      ensures Valid() && disk[0] == boot && disk[PARTITION] == super && Vol() == old(Vol())
    {
      disk[0] := boot;
      disk[PARTITION] := super;
      SystemSectors(old(disk[..]), disk[..]);
    }

    /** Writes the boot record, the superblock and the tags of the clusters up to the root. */
    method Mkfs(boot: Sector, super: Sector)
      requires Valid() && |boot| == |super| == SECTOR_SIZE
      modifies disk
      ensures Valid() && disk[0] == boot && disk[PARTITION] == super
      ensures Vol() == old(Vol()).(tags := MkfsTags(old(Vol()).tags))
    {
      ghost var v := Vol();
      WriteSystemSectors(boot, super);
      assert MkfsMarked(v.tags, 0) == v.tags;
      MkfsMarksNext(v, 0);
      MarkCluster(0, Tag(TAG_EOF, TAG_EOF));
      for i := 0 to TABLE_CLUSTERS
        invariant Valid() && disk[0] == boot && disk[PARTITION] == super
        invariant Vol() == v.(tags := MkfsMarked(v.tags, i + 1))
      {
        var prev := if i == 0 then TAG_EOF else i;
        var next := if i == TABLE_CLUSTERS - 1 then TAG_EOF else i + 2;
        MkfsMarksNext(v, i + 1);
        MarkCluster(i + TAG_TABLE, Tag(prev, next));
      }
      MkfsMarksNext(v, ROOT);
      MarkCluster(ROOT, Tag(TAG_EOF, TAG_EOF));
    }
  }

  /** Opening slot `i` depends on a handle's cluster only. */
  lemma SlotByCluster(v: Volume, d: Handle, d2: Handle, i: nat, amount: nat)
    requires d2 == d.(buf := d2.buf)
    ensures Reopen(v, d2, i) == Reopen(v, d, i) && ReadFile(v, d2, i, amount) == ReadFile(v, d, i, amount)
  {}

  lemma WriteByCluster(v: Volume, d: Handle, d2: Handle, i: nat, bytes: seq<Byte>)
    requires d2 == d.(buf := d2.buf)
    ensures WriteFile(v, d2, i, bytes) == WriteFile(v, d, i, bytes)
  {
    SlotByCluster(v, d, d2, i, 0);
  }

  lemma FilledFirst(before: seq<Byte>, bytes: seq<Byte>, after: seq<Byte>)
    requires |bytes| <= |before| && Filled(before, bytes, |bytes|, after)
    ensures after[..|bytes|] == bytes
  {}

  lemma DirOnVolume(v: Volume, lay: Layout, dirs: set<nat>, owner: Owners, d: Handle)
    requires Whole(v, lay, dirs, owner) && d.cluster in dirs
    ensures OnVolume(d.cluster)
  {
    assert Dir(lay, d.cluster);
    DirPlace(v, lay, d.cluster);
  }

  lemma SlotOnVolume(v: Volume, lay: Layout, dirs: set<nat>, owner: Owners, d: Handle, i: nat)
    requires Whole(v, lay, dirs, owner) && d.cluster in dirs && i < ENTRIES
    ensures OnVolume(d.cluster)
    ensures IsValid(SlotOf(v, d.cluster, i)) ==> OnVolume(SlotOf(v, d.cluster, i).file)
  {
    DirOnVolume(v, lay, dirs, owner, d);
    assert Filed(v, lay, dirs, owner, d.cluster, i);
    if IsValid(SlotOf(v, d.cluster, i)) {
      FileClusters(v, lay, SlotOf(v, d.cluster, i).file, 0);
    }
  }

  lemma WroteOnVolume(v: Volume, lay: Layout, dirs: set<nat>, owner: Owners, h: Handle, bytes: seq<Byte>)
    requires Whole(v, lay, dirs, owner) && FileHandle(v, lay, dirs, h, 0)
    ensures OnVolume(FatFile.Write(v, h, bytes).1.cluster)
  {
    var lay', k', n := WriteKeepsWhole(v, lay, dirs, owner, h, 0, bytes);
    var (w, g, _) := FatFile.Write(v, h, bytes);
    FileNavigable(w, lay', g, k');
  }

  lemma ReadLeavesVolume(v: Volume, lay: Layout, h: Handle, amount: nat)
    requires Sound(v, lay) && ReadAt(v, lay, h, 0) && !h.dirty
    ensures FatFile.Read(v, h, amount).0 == v
  {
    var k' := ReadOk(v, lay, h, 0, amount);
  }

  /** After a touch the slot is that of a file of one cluster, in a whole file system. */
  lemma TouchedSlot(v: Volume, lay: Layout, dirs: set<nat>, owner: Owners, d: Handle, name: seq<Byte>,
                    w: Volume, d': Handle)
    returns (lay': Layout, owner': Owners)
    requires Whole(v, lay, dirs, owner) && OnDir(dirs, d) && |name| < 256 && Room(v, d.cluster, FreeSlot(d.buf, 0))
    requires (w, d') == FatDirectory.Touch(v, d, name)
    ensures var i := FreeSlot(d.buf, 0);
            && Whole(w, lay', dirs, owner') && FileSlot(w, dirs, d', i) && d' == d.(buf := d'.buf)
            && SlotOf(w, d.cluster, i).file in lay'.chains && |lay'.chains[SlotOf(w, d.cluster, i).file]| == 1
            && FreeCount(w.tags) == FreeCount(v.tags) - 1
  {
    TouchOk(v, lay, dirs, owner, d, name);
    lay', owner' := AddChain(lay, FirstFree(v.tags)), WithOwner(owner, TouchEntry(v, d, name));
  }

  /** After a write that fits, the slot is still that of the file, and a read gives back what was written. */
  lemma WrittenSlot(v: Volume, lay: Layout, dirs: set<nat>, owner: Owners, d: Handle, i: nat, bytes: seq<Byte>)
    returns (lay': Layout)
    requires Whole(v, lay, dirs, owner) && FileSlot(v, dirs, d, i)
    requires var f := SlotOf(v, d.cluster, i).file;
             f in lay.chains && Clusters(|bytes|) <= |lay.chains[f]| + FreeCount(v.tags)
    ensures var (x, status) := WriteFile(v, d, i, bytes);
            && status == Success && Whole(x, lay', dirs, owner) && FileSlot(x, dirs, d, i)
            && SlotOf(x, d.cluster, i).file in lay'.chains
            && |bytes| <= CLUSTER_SIZE * |lay'.chains[SlotOf(x, d.cluster, i).file]|
            && ReadFile(x, d, i, |bytes|) == (bytes, Success)
  {
    var n;
    lay', n := WriteFileOk(v, lay, dirs, owner, d, i, bytes);
    var x, e := WriteFile(v, d, i, bytes).0, SlotOf(v, d.cluster, i);
    assert bytes[..n] == bytes;
    assert Filed(v, lay, dirs, owner, d.cluster, i);
    assert SlotOf(x, d.cluster, i) == e.(size := Max(e.size, |bytes|));
    WriteReadRoundTrip(v, lay, dirs, owner, d, i, bytes);
  }

  lemma EofZeros(ds: seq<Sector>)
    requires Disk(ds)
    ensures forall s :: 0 <= s < PARTITION ==>
              PutSectors(ds, TAG_EOF, Zeros(CLUSTER_SIZE), SECTORS_PER_CLUSTER)[s] == Zeros(SECTOR_SIZE)
  {
    EofSectors(0);
    forall s | 0 <= s < PARTITION
      ensures PutSectors(ds, TAG_EOF, Zeros(CLUSTER_SIZE), SECTORS_PER_CLUSTER)[s] == Zeros(SECTOR_SIZE)
    {
      assert SectorOf(Zeros(CLUSTER_SIZE), s) == Zeros(SECTOR_SIZE);
    }
  }

  /** The boot record and the superblock hold no tags and no data. */
  lemma SystemSectors(ds: seq<Sector>, ds': seq<Sector>)
    requires Disk(ds) && Disk(ds') && |ds| == |ds'|
    requires forall s :: 0 <= s < |ds| && s != 0 && s != PARTITION ==> ds'[s] == ds[s]
    ensures VolumeOn(ds') == VolumeOn(ds)
  {
    forall d | 0 <= d < SIZE ensures TagOn(ds', d) == TagOn(ds, d) {
      TagAddresses(d, d);
    }
    forall d | ROOT <= d < SIZE ensures DataOn(ds', d) == DataOn(ds, d) {
      DataPastTags(ds, ds', d);
    }
    VolumeEqual(VolumeOn(ds'), VolumeOn(ds));
  }

  /** The loop of rm comes to EOF within `n` turns, by clusters of the volume. */
  predicate Ends(tags: seq<Tag>, c: nat, t: Tag, n: nat)
    decreases n
  {
    c == TAG_EOF ||
    (n > 0 && c < |tags| &&
     var tags' := tags[c := FREE]; Ends(tags', t.next, if t.next < |tags'| then tags'[t.next] else FREE, n - 1))
  }

  lemma UnchainTurn(tags: seq<Tag>, c: nat, t: Tag, n: nat, next: Tag)
    requires |tags| == SIZE && c != TAG_EOF && Ends(tags, c, t, n)
    requires t.next < SIZE ==> next == tags[c := FREE][t.next]
    ensures n > 0 && Ends(tags[c := FREE], t.next, next, n - 1)
    ensures Unchain(tags, c, t, n) == Unchain(tags[c := FREE], t.next, next, n - 1)
  {}

  predicate Removable(v: Volume, h: Handle, n: nat) {
    && |v.tags| == SIZE && Ends(v.tags, h.entry.file, h.tags, n)
    && OnVolume(h.entry.parent) && h.entry.num < ENTRIES && ValidEntry(h.entry)
  }

  /** The loop of rm ends on a chain. */
  lemma {:induction false} ChainEnds(tags: seq<Tag>, lay: Layout, f: nat, done: seq<nat>, i: nat, n: nat)
    requires Chained(tags, lay) && f in lay.chains && i <= |lay.chains[f]| <= i + n
    requires forall j :: i <= j < |lay.chains[f]| ==> lay.chains[f][j] !in done
    ensures var ch := lay.chains[f];
            Ends(FreeAll(tags, done), At(ch, i), if i < |ch| && ch[i] < |tags| then tags[ch[i]] else FREE, n)
    decreases n
  {
    var ch := lay.chains[f];
    if i < |ch| {
      UnchainNext(tags, lay, f, done, i);
      ChainEnds(tags, lay, f, done + [ch[i]], i + 1, n - 1);
    }
  }

  /** A file of a whole file system can be removed through a handle at any of its clusters, and so can the root. */
  lemma FileRemovable(v: Volume, lay: Layout, dirs: set<nat>, owner: Owners, h: Handle, k: nat)
    requires Whole(v, lay, dirs, owner) && KnownEntry(v, dirs, h.entry) && AtCluster(v, lay, h, k)
    ensures Removable(v, h, SIZE)
  {
    var f := h.entry.file;
    var ch := lay.chains[f];
    assert Dir(lay, h.entry.parent);
    DirPlace(v, lay, h.entry.parent);
    assert Slot(v.tags, lay, f, k);
    ChainBound(v.tags, lay, f);
    RemovalEnds(v.tags, lay, f, k, SIZE);
  }

  lemma RemovalEnds(tags: seq<Tag>, lay: Layout, f: nat, k: nat, n: nat)
    requires Chained(tags, lay) && f in lay.chains && k < |lay.chains[f]| <= n
    ensures lay.chains[f][k] < |tags| && Ends(tags, f, tags[lay.chains[f][k]], n)
  {
    var ch := lay.chains[f];
    FirstTurn(tags, lay, f, k, n);
    ChainEnds(tags, lay, f, [ch[0]], k + 1, n - 1);
    assert Slot(tags, lay, f, 0);
  }

  /** The next bytes can be put, on clusters the driver may go to. */
  ghost predicate CanWrite(v: Volume, h: Handle, bytes: seq<Byte>)
    decreases |bytes|
  {
    && InBuffer(h)
    && (bytes != [] ==> Ready(v, h))
    && (bytes != [] && Putc(v, h, bytes[0]).2 == Success ==>
          CanWrite(Putc(v, h, bytes[0]).0, Putc(v, h, bytes[0]).1, bytes[1..]))
  }

  /** A file can be written as long as there are bytes. */
  lemma {:induction false} FileCanWrite(v: Volume, lay: Layout, h: Handle, k: nat, bytes: seq<Byte>)
    requires Sound(v, lay) && FileOk(v, lay, h, k)
    ensures CanWrite(v, h, bytes)
    decreases |bytes|
  {
    if bytes != [] {
      FileReady(v, lay, h, k);
      var lay', k' := PutcOk(v, lay, h, k, bytes[0]);
      var (w, g, status) := Putc(v, h, bytes[0]);
      if status == Success {
        FileCanWrite(w, lay', g, k', bytes[1..]);
      }
    }
  }

  /** The clusters the driver goes to next are clusters it may go to. */
  predicate Navigable(h: Handle) {
    (h.dirty ==> OnVolume(h.cluster)) && (h.tags.next != TAG_EOF ==> OnVolume(h.tags.next))
  }

  /** There is room for a byte in the buffer, and for the entry in a directory if the file gets longer. */
  predicate Storable(h: Handle) {
    && |h.buf| == CLUSTER_SIZE && h.location < CLUSTER_SIZE
    && OnVolume(h.cluster) && (h.tags.next != TAG_EOF ==> OnVolume(h.tags.next))
    && (h.abs + 1 > h.entry.size ==>
          OnVolume(h.entry.parent) && h.entry.num < ENTRIES && ValidEntry(h.entry.(size := h.entry.size + 1)))
  }

  /** A free cluster, if there is one, can be linked behind the handle's. */
  predicate Growable(v: Volume, h: Handle) {
    && |h.buf| == CLUSTER_SIZE && OnVolume(h.cluster) && ValidTag(h.tags)
    && var (w, g, status) := Grow(v, h);
       status == Success ==> OnVolume(g.cluster) && g.cluster != TAG_EOF && Storable(g)
  }

  predicate Ready(v: Volume, h: Handle) {
    h.cluster == 0 ||
    if h.location == LOC_EOF then IsDirectory(h.entry) || Growable(v, h) else Storable(h)
  }

  lemma FileNavigable(v: Volume, lay: Layout, h: Handle, k: nat)
    requires Sound(v, lay) && FileAt(v, lay, h, k)
    ensures Navigable(h) && OnVolume(h.cluster) && ValidTag(h.tags) && OnVolume(h.entry.parent)
  {
    FileClusters(v, lay, h.entry.file, k);
    LinksInverse(v.tags, lay, h.entry.file, k);
    assert Slot(v.tags, lay, h.entry.file, k);
    if k > 0 {
      FileClusters(v, lay, h.entry.file, k - 1);
    }
    if k + 1 < |lay.chains[h.entry.file]| {
      FileClusters(v, lay, h.entry.file, k + 1);
    }
  }

  lemma FileStorable(v: Volume, lay: Layout, h: Handle, k: nat)
    requires Sound(v, lay) && FileOk(v, lay, h, k) && h.location < CLUSTER_SIZE
    ensures Storable(h)
  {
    FileNavigable(v, lay, h, k);
    PokedOk(v, lay, h, k, 0);
  }

  /** A handle on a file is always ready for the next byte. */
  lemma FileReady(v: Volume, lay: Layout, h: Handle, k: nat)
    requires Sound(v, lay) && FileOk(v, lay, h, k)
    ensures Ready(v, h)
  {
    FileNavigable(v, lay, h, k);
    if h.location != LOC_EOF {
      FileStorable(v, lay, h, k);
    } else if FreeCount(v.tags) > 0 {
      GrowOk(v, lay, h, k);
      FileStorable(Grow(v, h).0, Extend(lay, h.entry.file, FirstFree(v.tags)), Grow(v, h).1, k + 1);
    } else {
      GetFreeExact(v.tags, h.cluster, TAG_EOF);
    }
  }

  /** The next `n` bytes are there, on clusters the driver may go to. */
  ghost predicate CanRead(v: Volume, h: Handle, n: nat)
    decreases n
  {
    && Readable(h)
    && (n > 0 ==> InBuffer(h) && Navigable(h))
    && (n > 0 && Getc(v, h).3 == Success ==> CanRead(Getc(v, h).0, Getc(v, h).1, n - 1))
  }

  /** A file can be read as far as its clusters go, and at the mark of its end however much is asked for. */
  lemma {:induction false} FileCanRead(v: Volume, lay: Layout, h: Handle, k: nat, n: nat)
    requires Sound(v, lay) && ReadAt(v, lay, h, k)
    requires h.location == LOC_EOF || h.abs + n <= CLUSTER_SIZE * |lay.chains[h.entry.file]|
    ensures CanRead(v, h, n)
    decreases n
  {
    if n > 0 {
      FileNavigable(v, lay, h, k);
      var k' := GetcOk(v, lay, h, k);
      if h.location != LOC_EOF {
        FileCanRead(Getc(v, h).0, lay, Getc(v, h).1, k', n - 1);
      }
    }
  }

  /** The first `n` of these bytes are in the buffer, and the rest of it is as it was. */
  ghost predicate Filled(before: seq<Byte>, bytes: seq<Byte>, n: nat, after: seq<Byte>) {
    && n <= |bytes| && |after| == |before|
    && forall p :: 0 <= p < |after| ==> after[p] == if p < n then bytes[p] else before[p]
  }

  /** What is left of a read's result after `i` bytes. */
  ghost predicate Continues(r: (Volume, Handle, seq<Byte>, Status), i: nat, rest: (Volume, Handle, seq<Byte>, Status)) {
    i <= |r.2| && rest == (r.0, r.1, r.2[i..], r.3)
  }

  /** One turn of a read's loop, of whose bytes `i` have been read. */
  lemma ReadTurn(v: Volume, h: Handle, n: nat, r: (Volume, Handle, seq<Byte>, Status), i: nat)
    requires n > 0 && CanRead(v, h, n) && Continues(r, i, Read(v, h, n))
    ensures InBuffer(h) && Navigable(h)
    ensures var g := Getc(v, h);
            if g.3 != Success then r.0 == g.0 && r.1 == g.1 && i == |r.2| && r.3 == g.3
            else i < |r.2| && r.2[i] == g.2 && CanRead(g.0, g.1, n - 1) && Continues(r, i + 1, Read(g.0, g.1, n - 1))
  {
    var g := Getc(v, h);
    if g.3 == Success {
      var rest := Read(g.0, g.1, n - 1).2;
      assert r.2[i..] == [g.2] + rest;
      assert rest == r.2[i..][1..] == r.2[i + 1..];
    }
  }

  lemma PutAnyOk(ds: seq<Sector>, c: nat, buf: seq<Byte>)
    requires Disk(ds) && (OnVolume(c) || c == TAG_EOF) && |buf| == CLUSTER_SIZE
    ensures VolumeOn(PutSectors(ds, c, buf, SECTORS_PER_CLUSTER)) == SetCluster(VolumeOn(ds), c, buf)
  {
    if c == TAG_EOF {
      PutEofOk(ds, buf);
    } else {
      PutClusterOk(ds, c, buf);
    }
  }

  /** One more sector of a cluster is in the buffer. */
  lemma SectorRead(ds: seq<Sector>, c: nat, i: nat, before: seq<Byte>, after: seq<Byte>)
    requires Disk(ds) && c < SIZE && i < SECTORS_PER_CLUSTER && |before| == CLUSTER_SIZE && DataSector(c, i) < |ds|
    requires after == before[..SECTOR_SIZE * i] + ds[DataSector(c, i)] + before[SECTOR_SIZE * i + SECTOR_SIZE..]
    requires forall p :: 0 <= p < SECTOR_SIZE * i ==> before[p] == ByteOn(ds, c, p)
    ensures |after| == CLUSTER_SIZE && forall p :: 0 <= p < SECTOR_SIZE * (i + 1) ==> after[p] == ByteOn(ds, c, p)
  {
    forall p | SECTOR_SIZE * i <= p < SECTOR_SIZE * (i + 1) ensures after[p] == ByteOn(ds, c, p) {
      assert p / SECTOR_SIZE == i && p % SECTOR_SIZE == p - SECTOR_SIZE * i;
    }
  }
}
