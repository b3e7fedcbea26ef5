/**
 The file system as a whole: writing keeps it well formed, what is written is read back through a new
 handle, removal undoes creation, and every run of operations on resolved paths leaves a whole tree.
 */
module FatSystem {
  import opened Common
  import opened FatVolume
  import opened FatCodec
  import opened FatFile
  import opened FatDirectory

  // ---------- writing ----------

  /** Only the size in one entry and the chain of its file have changed. */
  lemma ResizedWhole(v: Volume, lay: Layout, dirs: set<nat>, owner: Owners, w: Volume, lay': Layout, e: DirEntry)
    requires Whole(v, lay, dirs, owner) && Sound(w, lay') && OnlySlot(v, w, dirs, e)
    requires e.parent in dirs && e.num < ENTRIES && IsValid(e) && !IsDirectory(e)
    requires e == SlotOf(v, e.parent, e.num).(size := e.size)
    requires e.file in lay.chains && e.file in lay'.chains && lay'.chains == lay.chains[e.file := lay'.chains[e.file]]
    ensures Whole(w, lay', dirs, owner)
  {
    assert Filed(v, lay, dirs, owner, e.parent, e.num);
    forall d | d in dirs ensures Dir(lay', d) {
      assert Dir(lay, d);
    }
    forall d, i: nat | d in dirs && i < ENTRIES ensures Filed(w, lay', dirs, owner, d, i) {
      assert Filed(v, lay, dirs, owner, d, i);
    }
    forall f | f in lay'.chains && f > ROOT ensures Owned(w, dirs, owner, f) {
      assert Owned(v, dirs, owner, f);
    }
  }

  /** A handle on the file of a valid entry of one of the directories. */
  ghost predicate FileHandle(v: Volume, lay: Layout, dirs: set<nat>, h: Handle, k: nat) {
    && FileOk(v, lay, h, k) && h.entry.parent in dirs && IsValid(h.entry) && h.entry.file !in dirs
  }

  /** After a write, and after the flush that follows it, one slot of one directory has a new size. */
  lemma FlushedSlots(v: Volume, lay: Layout, dirs: set<nat>, owner: Owners, h: Handle, k: nat, bytes: seq<Byte>,
                     w: Volume, lay': Layout, g: Handle, k': nat)
    requires Whole(v, lay, dirs, owner) && FileHandle(v, lay, dirs, h, k)
    requires Written(v, lay, h, k, bytes, w, lay', g, k')
    ensures OnlySlot(v, Save(w, g).0, dirs, g.entry)
    ensures OthersKept(v, Save(w, g).0, lay'.chains[h.entry.file], h.entry.parent)
  {
    var x, f := Save(w, g).0, h.entry.file;
    SaveOk(w, lay', g, k');
    KeptTwice(v, w, x, lay'.chains[f], lay'.chains[f], h.entry.parent);
    forall d, i: nat | d in dirs && i < ENTRIES
      ensures SlotOf(x, d, i) == if d == g.entry.parent && i == g.entry.num then g.entry else SlotOf(v, d, i)
    {
      if d != h.entry.parent {
        assert Dir(lay, d);
        DirPlace(v, lay, d);
        DirOutside(w, lay', d, f);
        assert x.data[d] == v.data[d];
      }
    }
  }

  lemma DirOutside(v: Volume, lay: Layout, d: nat, f: nat)
    requires Sound(v, lay) && d in lay.chains && lay.chains[d] == [d] && f in lay.chains && d != f
    ensures d !in lay.chains[f]
  {
    OnOwnChain(v.tags, lay, f, d, 0);
  }

  /** Writing to a file and flushing it keeps the file system whole, however much of it went in. */
  lemma WriteKeepsWhole(v: Volume, lay: Layout, dirs: set<nat>, owner: Owners, h: Handle, k: nat, bytes: seq<Byte>)
    returns (lay': Layout, k': nat, n: nat)
    requires Whole(v, lay, dirs, owner) && FileHandle(v, lay, dirs, h, k)
    ensures n <= |bytes|
    ensures var (w, g, status) := Write(v, h, bytes);
            var x := Save(w, g).0;
            && Written(v, lay, h, k, bytes[..n], w, lay', g, k') && (status == Success <==> n == |bytes|)
            && Whole(x, lay', dirs, owner) && x.tags == w.tags
            && Flat(x.data, lay'.chains[h.entry.file]) == ViewOf(w, lay', g, k')
            && OnlySlot(v, x, dirs, g.entry) && OthersKept(v, x, lay'.chains[h.entry.file], h.entry.parent)
  {
    lay', k', n := WriteOk(v, lay, h, k, bytes);
    var (w, g, _) := Write(v, h, bytes);
    FlushedSlots(v, lay, dirs, owner, h, k, bytes[..n], w, lay', g, k');
    SaveOk(w, lay', g, k');
    ResizedWhole(v, lay, dirs, owner, Save(w, g).0, lay', g.entry);
  }

  /** The handle that opening slot `i` of a directory gives, if it gives one. */
  function Reopen(v: Volume, d: Handle, i: nat): (h: Handle)
    ensures |h.buf| == CLUSTER_SIZE
  {
    var h := OpenSlot(v, d, i).1;
    if h.Some? then h.value else d.(buf := Zeros(CLUSTER_SIZE))
  }

  /** Slot `i` of the directory of handle `d` is a file. */
  ghost predicate FileSlot(v: Volume, dirs: set<nat>, d: Handle, i: nat) {
    d.cluster in dirs && i < ENTRIES && IsValid(SlotOf(v, d.cluster, i)) && !IsDirectory(SlotOf(v, d.cluster, i))
  }

  lemma ReopenOk(v: Volume, lay: Layout, dirs: set<nat>, owner: Owners, d: Handle, i: nat)
    requires Whole(v, lay, dirs, owner) && FileSlot(v, dirs, d, i)
    ensures var h, e := Reopen(v, d, i), SlotOf(v, d.cluster, i);
            && OpenSlot(v, d, i).1 == Some(h) && OpenSlot(v, d, i).2 == Success
            && h.entry == e && e.parent == d.cluster && e.num == i && e.file in lay.chains && e.file > ROOT
            && FileHandle(v, lay, dirs, h, 0) && ReadAt(v, lay, h, 0) && h.abs == 0 && !h.dirty
            && InBuffer(h) && h.location == 0 && FreshFile(v, dirs, h)
            && ViewOf(v, lay, h, 0) == Flat(v.data, lay.chains[e.file])
  {
    OpenFile(v, lay, dirs, owner, d, i);
    assert Filed(v, lay, dirs, owner, d.cluster, i);
  }

  /** What a program does that opens slot `i` of a directory, writes, and flushes. */
  function WriteFile(v: Volume, d: Handle, i: nat, bytes: seq<Byte>): (Volume, Status) {
    var h := Reopen(v, d, i);
    if InBuffer(h) then var (w, g, status) := Write(v, h, bytes); (Save(w, g).0, status) else (v, BadHandle)
  }

  /** What a program gets that opens slot `i` of a directory and reads. */
  function ReadFile(v: Volume, d: Handle, i: nat, amount: nat): (seq<Byte>, Status) {
    var h := Reopen(v, d, i);
    if InBuffer(h) then var (_, _, bytes, status) := Read(v, h, amount); (bytes, status) else ([], BadHandle)
  }

  /** The file of a directory slot after `n` of `bytes` were written at its start. */
  ghost predicate Rewritten(v: Volume, lay: Layout, dirs: set<nat>, d: Handle, i: nat, bytes: seq<Byte>,
                            x: Volume, lay': Layout)
    requires i < ENTRIES && SlotOf(v, d.cluster, i).file in lay.chains
  {
    var e := SlotOf(v, d.cluster, i);
    var f := e.file;
    && Lengthened(lay.chains, lay'.chains, f, |bytes|)
    && FreeCount(x.tags) + |lay'.chains[f]| == FreeCount(v.tags) + |lay.chains[f]|
    && Overwritten(Flat(v.data, lay.chains[f]), Flat(x.data, lay'.chains[f]), 0, bytes)
    && OnlySlot(v, x, dirs, e.(size := Max(e.size, |bytes|)))
    && OthersKept(v, x, lay'.chains[f], d.cluster)
  }

  /** How much of `bytes` goes in, and what it does to the volume. */
  lemma WriteFileOk(v: Volume, lay: Layout, dirs: set<nat>, owner: Owners, d: Handle, i: nat, bytes: seq<Byte>)
    returns (lay': Layout, n: nat)
    requires Whole(v, lay, dirs, owner) && FileSlot(v, dirs, d, i)
    ensures var f, (x, status) := SlotOf(v, d.cluster, i).file, WriteFile(v, d, i, bytes);
            && f in lay.chains && n <= |bytes|
            && (status == Success <==> Clusters(|bytes|) <= |lay.chains[f]| + FreeCount(v.tags))
            && (status == Success <==> n == |bytes|)
            && Whole(x, lay', dirs, owner) && Rewritten(v, lay, dirs, d, i, bytes[..n], x, lay')
  {
    ReopenOk(v, lay, dirs, owner, d, i);
    var h := Reopen(v, d, i);
    var k';
    WriteSucceeds(v, lay, h, 0, bytes);
    lay', k', n := WriteKeepsWhole(v, lay, dirs, owner, h, 0, bytes);
  }

  /** A program reads the bytes on the clusters of the file, and no more. */
  lemma ReadFileOk(v: Volume, lay: Layout, dirs: set<nat>, owner: Owners, d: Handle, i: nat, amount: nat)
    requires Whole(v, lay, dirs, owner) && FileSlot(v, dirs, d, i)
    ensures var f, (bytes, status) := SlotOf(v, d.cluster, i).file, ReadFile(v, d, i, amount);
            && f in lay.chains && Fetched(Flat(v.data, lay.chains[f]), 0, amount, Overrun, bytes, status)
  {
    ReopenOk(v, lay, dirs, owner, d, i);
    var k' := ReadOk(v, lay, Reopen(v, d, i), 0, amount);
  }

  /** What was written and flushed is what is read through a handle opened afterwards. */
  lemma WriteReadRoundTrip(v: Volume, lay: Layout, dirs: set<nat>, owner: Owners, d: Handle, i: nat, bytes: seq<Byte>)
    requires Whole(v, lay, dirs, owner) && FileSlot(v, dirs, d, i)
    requires var f := SlotOf(v, d.cluster, i).file;
             f in lay.chains && Clusters(|bytes|) <= |lay.chains[f]| + FreeCount(v.tags)
    ensures WriteFile(v, d, i, bytes).1 == Success
    ensures ReadFile(WriteFile(v, d, i, bytes).0, d, i, |bytes|) == (bytes, Success)
  {
    var lay', n := WriteFileOk(v, lay, dirs, owner, d, i, bytes);
    var x := WriteFile(v, d, i, bytes).0;
    assert bytes[..n] == bytes;
    var f := SlotOf(v, d.cluster, i).file;
    WrittenFirst(Flat(v.data, lay.chains[f]), Flat(x.data, lay'.chains[f]), bytes);
    ReadFileOk(x, lay', dirs, owner, d, i, |bytes|);
  }

  lemma WrittenFirst(before: seq<Byte>, after: seq<Byte>, bytes: seq<Byte>)
    requires Overwritten(before, after, 0, bytes)
    ensures after[..|bytes|] == bytes
  {
    forall p | 0 <= p < |bytes| ensures after[p] == bytes[p] {
      assert after[0 + p] == bytes[p];
    }
  }

  /** No other file reads differently afterwards. */
  lemma OtherFilesKept(v: Volume, lay: Layout, dirs: set<nat>, owner: Owners, d: Handle, i: nat, bytes: seq<Byte>,
                       d2: Handle, i2: nat, amount: nat)
    requires Whole(v, lay, dirs, owner) && FileSlot(v, dirs, d, i) && FileSlot(v, dirs, d2, i2)
    requires d.cluster != d2.cluster || i != i2
    ensures ReadFile(WriteFile(v, d, i, bytes).0, d2, i2, amount) == ReadFile(v, d2, i2, amount)
  {
    var lay', n := WriteFileOk(v, lay, dirs, owner, d, i, bytes);
    var x := WriteFile(v, d, i, bytes).0;
    OwnersDistinct(v, lay, dirs, owner, d.cluster, i, d2.cluster, i2);
    assert Filed(v, lay, dirs, owner, d2.cluster, i2);
    FlatKept(v, lay, dirs, x, lay', SlotOf(v, d.cluster, i).file, SlotOf(v, d2.cluster, i2).file, d.cluster);
    ReadFileOk(v, lay, dirs, owner, d2, i2, amount);
    ReadFileOk(x, lay', dirs, owner, d2, i2, amount);
  }

  /** The bytes of another chain are where they were. */
  lemma FlatKept(v: Volume, lay: Layout, dirs: set<nat>, x: Volume, lay': Layout, f: nat, f2: nat, parent: nat)
    requires Sound(x, lay') && f in lay'.chains && f2 in lay'.chains && f2 in lay.chains && f2 > ROOT && f2 != f
    requires lay'.chains[f2] == lay.chains[f2] && OthersKept(v, x, lay'.chains[f], parent) && |v.data| == SIZE
    requires parent in lay'.chains && lay'.chains[parent] == [parent] && parent != f2
    ensures Flat(x.data, lay'.chains[f2]) == Flat(v.data, lay.chains[f2])
  {
    var ch := lay.chains[f2];
    forall j | 0 <= j < |ch| ensures Chunk(x.data, ch, |ch|, [], j) == Chunk(v.data, ch, |ch|, [], j) {
      FileClusters(x, lay', f2, j);
      OnOwnChain(x.tags, lay', f, f2, j);
      OnOwnChain(x.tags, lay', parent, f2, j);
      assert parent in lay'.chains[parent];
    }
    ViewByChunks(x.data, v.data, ch, |ch|, [], |ch|, []);
  }

  // ---------- creation undone ----------

  function RemovedBy(v: Volume, h: Handle): Volume {
    Rm(v, h, SIZE).0
  }

  /** Removal through a new handle. */
  function RemoveFile(v: Volume, d: Handle, i: nat): Volume {
    RemovedBy(v, Reopen(v, d, i))
  }

  lemma RemoveFileOk(v: Volume, lay: Layout, dirs: set<nat>, owner: Owners, d: Handle, i: nat)
    requires Whole(v, lay, dirs, owner) && FileSlot(v, dirs, d, i)
    ensures var e, y := SlotOf(v, d.cluster, i), RemoveFile(v, d, i);
            && e.file in lay.chains && Whole(y, DropChain(lay, e.file), dirs - {e.file}, owner - {e.file})
            && FreeCount(y.tags) == FreeCount(v.tags) + |lay.chains[e.file]|
            && OnlySlot(v, y, dirs, Unfiled(e)) && DataKept(v, y, d.cluster, d.cluster)
  {
    ReopenOk(v, lay, dirs, owner, d, i);
    RmOk(v, lay, dirs, owner, Reopen(v, d, i));
  }

  /** Creating a file and writing to it whatever fits. */
  function CreateWrite(v: Volume, d: Handle, name: seq<Byte>, bytes: seq<Byte>): Volume
    requires |name| < 256 && |d.buf| == CLUSTER_SIZE
  {
    WriteFile(Touch(v, d, name).0, d, FreeSlot(d.buf, 0), bytes).0
  }

  /** Slots other than `i` of directory `d` are as they were. */
  ghost predicate OtherSlots(v: Volume, w: Volume, dirs: set<nat>, d: nat, i: nat) {
    forall x, j: nat :: x in dirs && j < ENTRIES && (x != d || j != i) ==> SlotOf(w, x, j) == SlotOf(v, x, j)
  }

  /** Touch files an empty file in the slot it looked up, on the least free cluster, and changes nothing else. */
  lemma TouchOk(v: Volume, lay: Layout, dirs: set<nat>, owner: Owners, d: Handle, name: seq<Byte>)
    requires Whole(v, lay, dirs, owner) && OnDir(dirs, d) && |name| < 256
    requires Room(v, d.cluster, FreeSlot(d.buf, 0))
    ensures var w, e, i, c := Touch(v, d, name).0, TouchEntry(v, d, name), FreeSlot(d.buf, 0), FirstFree(v.tags);
            && c < |lay.place| && c !in lay.chains && c !in dirs
            && Whole(w, AddChain(lay, c), dirs, WithOwner(owner, e))
            && FileSlot(w, dirs, d, i) && SlotOf(w, d.cluster, i) == e
            && e.file == c && Says(e, name, c, d.cluster, 0, 1, i)
            && OtherSlots(v, w, dirs, d.cluster, i) && DataKept(v, w, d.cluster, d.cluster)
            && FreeCount(w.tags) == FreeCount(v.tags) - 1
  {
    TouchFiles(v, lay, dirs, owner, d, name);
    CreateOk(v, lay, dirs, owner, TouchEntry(v, d, name));
    TouchSays(v, d, name);
  }

  lemma CreateWriteOk(v: Volume, lay: Layout, dirs: set<nat>, owner: Owners, d: Handle, name: seq<Byte>,
                      bytes: seq<Byte>)
    returns (lay': Layout, owner': Owners)
    requires Whole(v, lay, dirs, owner) && OnDir(dirs, d) && |name| < 256
    requires Room(v, d.cluster, FreeSlot(d.buf, 0))
    ensures var x, i, c := CreateWrite(v, d, name, bytes), FreeSlot(d.buf, 0), FirstFree(v.tags);
            && Whole(x, lay', dirs, owner') && FileSlot(x, dirs, d, i) && SlotOf(x, d.cluster, i).file == c
            && c !in lay.chains && c in lay'.chains && lay'.chains == lay.chains[c := lay'.chains[c]]
            && OtherSlots(v, x, dirs, d.cluster, i)
  {
    var i, c, w := FreeSlot(d.buf, 0), FirstFree(v.tags), Touch(v, d, name).0;
    TouchOk(v, lay, dirs, owner, d, name);
    owner' := WithOwner(owner, TouchEntry(v, d, name));
    var n;
    lay', n := WriteFileOk(w, AddChain(lay, c), dirs, owner', d, i, bytes);
    RewrittenSlots(v, w, AddChain(lay, c), dirs, owner', d, i, bytes[..n], WriteFile(w, d, i, bytes).0, lay');
    SetTwice(lay.chains, AddChain(lay, c).chains, lay'.chains, c);
  }

  lemma SetTwice(m: map<nat, seq<nat>>, m1: map<nat, seq<nat>>, m2: map<nat, seq<nat>>, c: nat)
    requires c in m1 && m1 == m[c := m1[c]] && c in m2 && m2 == m1[c := m2[c]]
    ensures m2 == m[c := m2[c]]
  {}

  lemma RewrittenSlots(v: Volume, w: Volume, lay: Layout, dirs: set<nat>, owner: Owners, d: Handle, i: nat,
                       bytes: seq<Byte>, x: Volume, lay': Layout)
    requires Whole(w, lay, dirs, owner) && FileSlot(w, dirs, d, i) && OtherSlots(v, w, dirs, d.cluster, i)
    requires SlotOf(w, d.cluster, i).file in lay.chains && Rewritten(w, lay, dirs, d, i, bytes, x, lay')
    ensures FileSlot(x, dirs, d, i) && SlotOf(x, d.cluster, i).file == SlotOf(w, d.cluster, i).file
    ensures OtherSlots(v, x, dirs, d.cluster, i)
  {
    assert Filed(w, lay, dirs, owner, d.cluster, i);
  }

  /**
   The name given is the name read back: after a touch, a write of which `n` bytes go in, and a flush, opening
   the slot gives a handle whose entry has it, with size `n` and the valid flag alone.
   */
  lemma CreatedNamed(v: Volume, lay: Layout, dirs: set<nat>, owner: Owners, d: Handle, name: seq<Byte>,
                     bytes: seq<Byte>)
    returns (n: nat)
    requires Whole(v, lay, dirs, owner) && OnDir(dirs, d) && |name| < 256
    requires Room(v, d.cluster, FreeSlot(d.buf, 0))
    ensures n <= |bytes| && (n == |bytes| <==> Clusters(|bytes|) <= FreeCount(v.tags))
    ensures var i, x := FreeSlot(d.buf, 0), CreateWrite(v, d, name, bytes);
            && OpenSlot(x, d, i).2 == Success && OpenSlot(x, d, i).1.Some?
            && var e := OpenSlot(x, d, i).1.value.entry;
               && e == SlotOf(x, d.cluster, i) && Says(e, name, FirstFree(v.tags), d.cluster, n, 1, i)
               && (0 !in name ==> CString(e.name) == name)
  {
    var i, c, w := FreeSlot(d.buf, 0), FirstFree(v.tags), Touch(v, d, name).0;
    var owner' := WithOwner(owner, TouchEntry(v, d, name));
    TouchOk(v, lay, dirs, owner, d, name);
    var lay';
    lay', n := WriteFileOk(w, AddChain(lay, c), dirs, owner', d, i, bytes);
    var x := WriteFile(w, d, i, bytes).0;
    RewrittenSlots(v, w, AddChain(lay, c), dirs, owner', d, i, bytes[..n], x, lay');
    ReopenOk(x, lay', dirs, owner', d, i);
    if 0 !in name {
      NameRead(SlotOf(x, d.cluster, i), name);
    }
  }

  /**
   Removal takes back everything creation and writing did: the table of tags is restored exactly, and with it
   the number of free clusters; the slot is unused again and every other slot is as it was.
   */
  lemma RemoveUndoesCreate(v: Volume, lay: Layout, dirs: set<nat>, owner: Owners, d: Handle, name: seq<Byte>,
                           bytes: seq<Byte>)
    requires Whole(v, lay, dirs, owner) && OnDir(dirs, d) && |name| < 256
    requires Room(v, d.cluster, FreeSlot(d.buf, 0))
    ensures var y, i := RemoveFile(CreateWrite(v, d, name, bytes), d, FreeSlot(d.buf, 0)), FreeSlot(d.buf, 0);
            y.tags == v.tags && !IsValid(SlotOf(y, d.cluster, i)) && OtherSlots(v, y, dirs, d.cluster, i)
  {
    var i, c, x := FreeSlot(d.buf, 0), FirstFree(v.tags), CreateWrite(v, d, name, bytes);
    var lay', owner' := CreateWriteOk(v, lay, dirs, owner, d, name, bytes);
    var y := RemoveFile(x, d, i);
    RemoveFileOk(x, lay', dirs, owner', d, i);
    DropAdded(lay.chains, lay'.chains, c);
    TagsDetermined(v.tags, lay, y.tags, DropChain(lay', c));
    UnfiledSlots(v, x, y, lay', dirs, owner', d, i);
  }

  lemma DropAdded(m: map<nat, seq<nat>>, m': map<nat, seq<nat>>, c: nat)
    requires c !in m && c in m' && m' == m[c := m'[c]]
    ensures m' - {c} == m
  {}

  lemma UnfiledSlots(v: Volume, x: Volume, y: Volume, lay: Layout, dirs: set<nat>, owner: Owners, d: Handle, i: nat)
    requires Whole(x, lay, dirs, owner) && FileSlot(x, dirs, d, i) && OtherSlots(v, x, dirs, d.cluster, i)
    requires OnlySlot(x, y, dirs, Unfiled(SlotOf(x, d.cluster, i)))
    ensures !IsValid(SlotOf(y, d.cluster, i)) && OtherSlots(v, y, dirs, d.cluster, i)
  {
    assert Filed(x, lay, dirs, owner, d.cluster, i);
  }

  // ---------- paths ----------

  /** Follows slot numbers down from the root. */
  function Resolve(v: Volume, path: seq<nat>): (r: Option<Handle>)
    ensures r.Some? ==> |r.value.buf| == CLUSTER_SIZE
    decreases |path|
  {
    if path == [] then Some(OpenRoot(v))
    else
      match Resolve(v, path[..|path| - 1])
      case None => None
      case Some(d) => if IsDirectory(d.entry) then OpenSlot(v, d, path[|path| - 1]).1 else None
  }

  /** What a path leads to. */
  ghost predicate Resolved(v: Volume, lay: Layout, dirs: set<nat>, owner: Owners, path: seq<nat>, h: Handle) {
    if path == [] then h == OpenRoot(v) && DirHandle(v, dirs, h) && IsDirectory(h.entry)
    else
      && FreshFile(v, dirs, h) && h.entry.file in lay.chains && h.entry.file > ROOT && h.entry.file in owner
      && owner[h.entry.file].level == |path|
      && (IsDirectory(h.entry) ==> DirHandle(v, dirs, h))
      && (!IsDirectory(h.entry) ==> FileHandle(v, lay, dirs, h, 0) && h.abs == 0 && h.location == 0)
  }

  /** A handle opened through a directory is on a chain one level below it. */
  lemma OpenedOk(v: Volume, lay: Layout, dirs: set<nat>, owner: Owners, d: Handle, i: nat)
    requires Whole(v, lay, dirs, owner) && DirHandle(v, dirs, d) && i < ENTRIES
    ensures var h := OpenSlot(v, d, i).1;
            h.Some? ==>
              && FreshFile(v, dirs, h.value) && h.value.entry.file in lay.chains && h.value.entry.file > ROOT
              && h.value.entry.file in owner && owner[h.value.entry.file].level == Level(owner, d.cluster) + 1
              && (IsDirectory(h.value.entry) ==> DirHandle(v, dirs, h.value))
              && (!IsDirectory(h.value.entry) ==>
                    FileHandle(v, lay, dirs, h.value, 0) && h.value.abs == 0 && h.value.location == 0)
  {
    OpenFile(v, lay, dirs, owner, d, i);
    assert Filed(v, lay, dirs, owner, d.cluster, i);
    DecodedIsValid(Record(Cluster(v, d.cluster), ENTRY_BYTES, i));
  }

  /** One more step down a path that leads to a directory. */
  lemma ResolvedDown(v: Volume, lay: Layout, dirs: set<nat>, owner: Owners, path: seq<nat>, d: Handle)
    requires Whole(v, lay, dirs, owner) && path != [] && IsDirectory(d.entry)
    requires Resolved(v, lay, dirs, owner, path[..|path| - 1], d)
    ensures var h := OpenSlot(v, d, path[|path| - 1]).1; h.Some? ==> Resolved(v, lay, dirs, owner, path, h.value)
  {
    var i := path[|path| - 1];
    assert DirHandle(v, dirs, d) && Level(owner, d.cluster) == |path| - 1;
    if i < ENTRIES {
      OpenedOk(v, lay, dirs, owner, d, i);
    }
  }

  lemma {:induction false} ResolveOk(v: Volume, lay: Layout, dirs: set<nat>, owner: Owners, path: seq<nat>)
    requires Whole(v, lay, dirs, owner)
    ensures Resolve(v, path).Some? ==> Resolved(v, lay, dirs, owner, path, Resolve(v, path).value)
    decreases |path|
  {
    if path == [] {
      assert Dir(lay, ROOT);
    } else {
      var up := path[..|path| - 1];
      ResolveOk(v, lay, dirs, owner, up);
      var d := Resolve(v, up);
      if d.Some? && IsDirectory(d.value.entry) {
        ResolvedDown(v, lay, dirs, owner, path, d.value);
      }
    }
  }

  /** A path to a directory resolves to a handle on it. */
  lemma ResolvedDir(v: Volume, lay: Layout, dirs: set<nat>, owner: Owners, up: seq<nat>)
    requires Whole(v, lay, dirs, owner) && Resolve(v, up).Some? && Resolve(v, up).value.entry.file in dirs
    ensures var d := Resolve(v, up).value; IsDirectory(d.entry) && d.cluster == d.entry.file
  {
    ResolveOk(v, lay, dirs, owner, up);
  }

  /** One step down from a directory. */
  lemma ResolveDown(v: Volume, lay: Layout, dirs: set<nat>, owner: Owners, up: seq<nat>, i: nat)
    requires Whole(v, lay, dirs, owner) && i < ENTRIES
    requires Resolve(v, up).Some? && Resolve(v, up).value.entry.file in dirs
    requires IsValid(SlotOf(v, Resolve(v, up).value.entry.file, i))
    ensures Resolve(v, up + [i]).Some?
    ensures Resolve(v, up + [i]).value.entry == SlotOf(v, Resolve(v, up).value.entry.file, i)
  {
    var path := up + [i];
    assert path[..|path| - 1] == up && path[|path| - 1] == i;
    ResolvedDir(v, lay, dirs, owner, up);
    assert Resolve(v, path) == OpenSlot(v, Resolve(v, up).value, i).1;
  }

  /** The directories form a tree: every file is reached from the root, by a path as long as its level. */
  lemma {:induction false} EveryFileReached(v: Volume, lay: Layout, dirs: set<nat>, owner: Owners, f: nat)
    returns (path: seq<nat>)
    requires Whole(v, lay, dirs, owner) && f in lay.chains && f >= ROOT
    ensures Resolve(v, path).Some? && Resolve(v, path).value.entry.file == f && |path| == Level(owner, f)
    decreases Level(owner, f)
  {
    if f == ROOT {
      path := [];
    } else {
      LevelUp(v, lay, dirs, owner, f);
      var d, i := owner[f].dir, owner[f].num;
      var up := EveryFileReached(v, lay, dirs, owner, d);
      path := up + [i];
      ResolveDown(v, lay, dirs, owner, up, i);
    }
  }

  // ---------- runs ----------

  /** What a program asks for. Names are the bytes before the terminating zero. */
  datatype Op =
    | CreateFile(dir: seq<nat>, name: seq<Byte>)
    | CreateDirectory(dir: seq<nat>, name: seq<Byte>)
    | Put(file: seq<nat>, bytes: seq<Byte>)
    | Remove(file: seq<nat>)

  function PathOf(op: Op): seq<nat> {
    match op
    case CreateFile(dir, _) => dir
    case CreateDirectory(dir, _) => dir
    case Put(file, _) => file
    case Remove(file) => file
  }

  /** Each operation through a handle opened for it; writes are flushed. */
  function Step(v: Volume, op: Op): Volume {
    match Resolve(v, PathOf(op))
    case None => v
    case Some(h) =>
      match op
      case CreateFile(_, name) => if |name| < 256 then Touch(v, h, name).0 else v
      case CreateDirectory(_, name) => if |name| < 256 then Mkdir(v, h, name) else v
      case Put(_, bytes) => if InBuffer(h) then var (w, g, _) := Write(v, h, bytes); Save(w, g).0 else v
      case Remove(_) => RemovedBy(v, h)
  }

  /**
   The calls that make sense: creation in a directory with an unused slot while a cluster is free, writing to
   files, removal of files and of empty directories but not of the root.
   */
  ghost predicate Allowed(v: Volume, op: Op) {
    Resolve(v, PathOf(op)).Some? &&
    var h := Resolve(v, PathOf(op)).value;
    match op
    case CreateFile(_, name) => IsDirectory(h.entry) && |name| < 256 && Room(v, h.cluster, FreeSlot(h.buf, 0))
    case CreateDirectory(_, name) => IsDirectory(h.entry) && |name| < 256 && Room(v, h.cluster, FreeSlot(h.buf, 0))
    case Put(_, _) => !IsDirectory(h.entry)
    case Remove(path) => path != [] && (IsDirectory(h.entry) ==> EmptyDir(v, h.entry.file))
  }

  /** The chains below the root are the same. */
  ghost predicate SystemKept(lay: Layout, lay': Layout) {
    forall h :: h in lay.chains && h < ROOT ==> h in lay'.chains && lay'.chains[h] == lay.chains[h]
  }

  /** A creation files an entry in a slot that is unused. */
  lemma CreationFiles(v: Volume, lay: Layout, dirs: set<nat>, owner: Owners, op: Op) returns (e: DirEntry)
    requires Whole(v, lay, dirs, owner) && Allowed(v, op) && (op.CreateFile? || op.CreateDirectory?)
    ensures Step(v, op) == Filing(v, e) && Fileable(v, dirs, e) && Room(v, e.parent, e.num)
  {
    ResolveOk(v, lay, dirs, owner, PathOf(op));
    var h := Resolve(v, PathOf(op)).value;
    assert OnDir(dirs, h);
    if op.CreateFile? {
      e := TouchEntry(v, h, op.name);
      TouchFiles(v, lay, dirs, owner, h, op.name);
    } else {
      e := MkdirEntry(v, h, op.name);
      MkdirFiles(v, lay, dirs, owner, h, op.name);
    }
  }

  lemma CreationKeepsWhole(v: Volume, lay: Layout, dirs: set<nat>, owner: Owners, op: Op)
    returns (lay': Layout, dirs': set<nat>, owner': Owners)
    requires Whole(v, lay, dirs, owner) && Allowed(v, op) && (op.CreateFile? || op.CreateDirectory?)
    ensures Whole(Step(v, op), lay', dirs', owner') && SystemKept(lay, lay')
  {
    var e := CreationFiles(v, lay, dirs, owner, op);
    CreateOk(v, lay, dirs, owner, e);
    lay', dirs', owner' := AddChain(lay, e.file), DirsWith(dirs, e), WithOwner(owner, e);
  }

  lemma PutKeepsWhole(v: Volume, lay: Layout, dirs: set<nat>, owner: Owners, op: Op) returns (lay': Layout)
    requires Whole(v, lay, dirs, owner) && Allowed(v, op) && op.Put?
    ensures Whole(Step(v, op), lay', dirs, owner) && SystemKept(lay, lay')
  {
    ResolveOk(v, lay, dirs, owner, op.file);
    var k', n;
    lay', k', n := WriteKeepsWhole(v, lay, dirs, owner, Resolve(v, op.file).value, 0, op.bytes);
  }

  lemma DropKeepsSystem(lay: Layout, f: nat)
    requires f in lay.chains && f >= ROOT
    ensures SystemKept(lay, DropChain(lay, f))
  {}

  lemma RemovalKeepsWhole(v: Volume, lay: Layout, dirs: set<nat>, owner: Owners, op: Op)
    returns (lay': Layout, dirs': set<nat>, owner': Owners)
    requires Whole(v, lay, dirs, owner) && Allowed(v, op) && op.Remove?
    ensures Whole(Step(v, op), lay', dirs', owner') && SystemKept(lay, lay')
  {
    ResolveOk(v, lay, dirs, owner, op.file);
    var f := RemovedOk(v, lay, dirs, owner, op, Resolve(v, op.file).value);
    DropKeepsSystem(lay, f);
    lay', dirs', owner' := DropChain(lay, f), dirs - {f}, owner - {f};
  }

  lemma RemovedOk(v: Volume, lay: Layout, dirs: set<nat>, owner: Owners, op: Op, h: Handle) returns (f: nat)
    requires Whole(v, lay, dirs, owner) && op.Remove? && Resolve(v, op.file) == Some(h) && FreshFile(v, dirs, h)
    requires IsDirectory(h.entry) ==> EmptyDir(v, h.entry.file)
    ensures f in lay.chains && f > ROOT && Whole(Step(v, op), DropChain(lay, f), dirs - {f}, owner - {f})
  {
    RmOk(v, lay, dirs, owner, h);
    RemoveIs(v, op, h);
    f := h.entry.file;
  }

  lemma RemoveIs(v: Volume, op: Op, h: Handle)
    requires op.Remove? && Resolve(v, op.file) == Some(h)
    ensures Step(v, op) == RemovedBy(v, h)
  {}

  lemma StepKeepsWhole(v: Volume, lay: Layout, dirs: set<nat>, owner: Owners, op: Op)
    returns (lay': Layout, dirs': set<nat>, owner': Owners)
    requires Whole(v, lay, dirs, owner) && Allowed(v, op)
    ensures Whole(Step(v, op), lay', dirs', owner') && SystemKept(lay, lay')
  {
    if op.Put? {
      lay' := PutKeepsWhole(v, lay, dirs, owner, op);
      dirs', owner' := dirs, owner;
    } else if op.Remove? {
      lay', dirs', owner' := RemovalKeepsWhole(v, lay, dirs, owner, op);
    } else {
      lay', dirs', owner' := CreationKeepsWhole(v, lay, dirs, owner, op);
    }
  }

  function Run(v: Volume, ops: seq<Op>): Volume
    decreases |ops|
  {
    if ops == [] then v else Run(Step(v, ops[0]), ops[1..])
  }

  ghost predicate AllAllowed(v: Volume, ops: seq<Op>)
    decreases |ops|
  {
    ops != [] ==> Allowed(v, ops[0]) && AllAllowed(Step(v, ops[0]), ops[1..])
  }

  /**
   Every run from a whole file system ends in one: chains disjoint and linked both ways, one entry for
   each, in a tree.
   */
  lemma {:induction false} RunKeepsWhole(v: Volume, lay: Layout, dirs: set<nat>, owner: Owners, ops: seq<Op>)
    returns (lay': Layout, dirs': set<nat>, owner': Owners)
    requires Whole(v, lay, dirs, owner) && AllAllowed(v, ops)
    ensures Whole(Run(v, ops), lay', dirs', owner') && SystemKept(lay, lay')
    decreases |ops|
  {
    lay', dirs', owner' := lay, dirs, owner;
    if ops != [] {
      var lay1, dirs1, owner1 := StepKeepsWhole(v, lay, dirs, owner, ops[0]);
      lay', dirs', owner' := RunKeepsWhole(Step(v, ops[0]), lay1, dirs1, owner1, ops[1..]);
    }
  }
}
