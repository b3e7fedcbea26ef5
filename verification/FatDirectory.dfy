/**
 Directories (src/drivers/fat64/fat64.c:227-249, 379-467, 644-656): opening an entry, creating files and
 directories and removing them, and the well-formedness of the whole file system that these keep.
 */
module FatDirectory {
  import opened Common
  import opened FatVolume
  import opened FatCodec
  import opened FatFile

  const VALID_FLAG: nat := 1
  const DIRECTORY_FLAG: nat := 2

  // ---------- operations ----------

  function SlotOf(v: Volume, d: nat, i: nat): DirEntry
    requires i < ENTRIES
  {
    EntryAt(Cluster(v, d), i)
  }

  /**
   Opens slot `index` of a directory after reloading it. Slot 8, which lies behind the buffer, gets past
   the test.
   */
  function OpenSlot(v: Volume, d: Handle, index: nat): (r: (Handle, Option<Handle>, Status))
    ensures |r.0.buf| == CLUSTER_SIZE && (r.1.Some? ==> |r.1.value.buf| == CLUSTER_SIZE)
  {
    var d' := d.(buf := Cluster(v, d.cluster));
    if index == ENTRIES then (d', None, Overrun)
    else if index > ENTRIES || !IsValid(EntryAt(d'.buf, index)) then (d', None, Eof)
    else
      var e := EntryAt(d'.buf, index);
      (d', Some(Open(v, Handle(e, FREE, e.file, 0, 0, [], false))), Success)
  }

  function RootEntry(): DirEntry {
    DirEntry([47] + Zeros(255), ROOT, ROOT, CLUSTER_SIZE, Zeros(24), VALID_FLAG + DIRECTORY_FLAG, 0, Zeros(200))
  }

  function OpenRoot(v: Volume): Handle {
    Open(v, Handle(RootEntry(), FREE, ROOT, 0, 0, [], false))
  }

  /** The first slot without a valid entry from `i` on, or EOF. */
  function FreeSlot(buf: seq<Byte>, i: nat): (r: nat)
    requires |buf| == CLUSTER_SIZE && i <= ENTRIES
    ensures i <= r < ENTRIES || r == LOC_EOF
    ensures r < ENTRIES ==> !IsValid(EntryAt(buf, r))
    ensures forall j :: i <= j < ENTRIES && j < r ==> IsValid(EntryAt(buf, j))
    decreases ENTRIES - i
  {
    if i == ENTRIES then LOC_EOF else if !IsValid(EntryAt(buf, i)) then i else FreeSlot(buf, i + 1)
  }

  /** A zeroed entry with its name copied in and the given fields set. */
  function NewEntry(name: seq<Byte>, file: nat, parent: nat, size: nat, flags: nat, num: nat): DirEntry
    requires |name| < 256
  {
    DirEntry(name + Zeros(256 - |name|), file, parent, size, Zeros(24), flags, num, Zeros(200))
  }

  function TouchEntry(v: Volume, d: Handle, name: seq<Byte>): DirEntry
    requires |name| < 256 && |d.buf| == CLUSTER_SIZE
  {
    NewEntry(name, GetFree(v.tags, TAG_EOF, TAG_EOF).1, d.entry.file, 0, VALID_FLAG, FreeSlot(d.buf, 0))
  }

  function MkdirEntry(v: Volume, d: Handle, name: seq<Byte>): DirEntry
    requires |name| < 256 && |d.buf| == CLUSTER_SIZE
  {
    NewEntry(name, GetFree(v.tags, TAG_EOF, TAG_EOF).1, d.entry.file, CLUSTER_SIZE,
             VALID_FLAG + DIRECTORY_FLAG, FreeSlot(d.buf, 0))
  }

  /** The slot is looked up in the handle's buffer before the directory is reloaded. */
  function Touch(v: Volume, d: Handle, name: seq<Byte>): (Volume, Handle)
    requires |name| < 256 && |d.buf| == CLUSTER_SIZE
  {
    (SaveEntry(v.(tags := GetFree(v.tags, TAG_EOF, TAG_EOF).0), TouchEntry(v, d, name)),
     d.(buf := Cluster(v, d.cluster)))
  }

  /** As for a file, but with the new cluster cleared. */
  function Mkdir(v: Volume, d: Handle, name: seq<Byte>): Volume
    requires |name| < 256 && |d.buf| == CLUSTER_SIZE
  {
    var e := MkdirEntry(v, d, name);
    SetCluster(SaveEntry(v.(tags := GetFree(v.tags, TAG_EOF, TAG_EOF).0), e), e.file, Zeros(CLUSTER_SIZE))
  }

  /** `n` turns of the loop that frees a chain from cluster `c`, whose tag is `t`; it ends at EOF. */
  function Unchain(tags: seq<Tag>, c: nat, t: Tag, n: nat): (seq<Tag>, nat)
    decreases n
  {
    if n == 0 || c == TAG_EOF then (tags, c)
    else
      var tags' := if c < |tags| then tags[c := FREE] else tags;
      Unchain(tags', t.next, if t.next < |tags| then tags'[t.next] else FREE, n - 1)
  }

  /** Removal with `n` turns of its loop: the volume and the cluster the loop stopped at. */
  function Rm(v: Volume, h: Handle, n: nat): (Volume, nat) {
    var w := SaveEntry(v, h.entry.(flags := 0));
    var (tags, c) := Unchain(w.tags, h.entry.file, h.tags, n);
    (w.(tags := tags), c)
  }

  // ---------- the whole file system ----------

  /** Where the entry of a chain is, and how deep below the root. */
  datatype Owner = Owner(dir: nat, num: nat, level: nat)

  type Owners = map<nat, Owner>

  function Level(owner: Owners, d: nat): nat {
    if d != ROOT && d in owner then owner[d].level else 0
  }

  function WithOwner(owner: Owners, e: DirEntry): Owners {
    owner[e.file := Owner(e.parent, e.num, Level(owner, e.parent) + 1)]
  }

  /** Directories have one cluster. */
  ghost predicate Dir(lay: Layout, d: nat) {
    d >= ROOT && d in lay.chains && lay.chains[d] == [d]
  }

  /** A valid entry knows its place, and is the owner of the chain it names. */
  ghost predicate Filed(v: Volume, lay: Layout, dirs: set<nat>, owner: Owners, d: nat, i: nat)
    requires i < ENTRIES
  {
    var e := SlotOf(v, d, i);
    IsValid(e) ==>
      && e.num == i && e.parent == d && e.file > ROOT && e.file in lay.chains
      && e.file in owner && owner[e.file] == Owner(d, i, Level(owner, d) + 1) && (e.file in dirs <==> IsDirectory(e))
  }

  /** Every chain but the root belongs to an entry: no cluster is leaked. */
  ghost predicate Owned(v: Volume, dirs: set<nat>, owner: Owners, f: nat) {
    f in owner && owner[f].dir in dirs && owner[f].num < ENTRIES
    && IsValid(SlotOf(v, owner[f].dir, owner[f].num)) && SlotOf(v, owner[f].dir, owner[f].num).file == f
  }

  ghost predicate Whole(v: Volume, lay: Layout, dirs: set<nat>, owner: Owners) {
    && Sound(v, lay) && ROOT in dirs
    && (forall d :: d in dirs ==> Dir(lay, d))
    && (forall d, i: nat :: d in dirs && i < ENTRIES ==> Filed(v, lay, dirs, owner, d, i))
    && (forall f :: f in lay.chains && f > ROOT ==> Owned(v, dirs, owner, f))
  }

  /** Some layout, directories and owners make the volume a whole file system. */
  ghost predicate FileSystem(v: Volume) {
    exists lay, dirs, owner :: Whole(v, lay, dirs, owner)
  }

  /** A handle on one of the directories; its buffer may be older than the disk. */
  ghost predicate OnDir(dirs: set<nat>, d: Handle) {
    d.cluster in dirs && d.entry.file == d.cluster && |d.buf| == CLUSTER_SIZE
  }

  /** ... or is what is on disk. */
  ghost predicate DirHandle(v: Volume, dirs: set<nat>, d: Handle) {
    OnDir(dirs, d) && d.buf == Cluster(v, d.cluster)
  }

  lemma DirPlace(v: Volume, lay: Layout, d: nat)
    requires Sound(v, lay) && Dir(lay, d)
    ensures d < SIZE && lay.place[d] == Some((d, 0)) && v.tags[d] == Tag(TAG_EOF, TAG_EOF) && Cluster(v, d) == v.data[d]
  {
    assert Slot(v.tags, lay, d, 0);
  }

  /** Two entries never share a file. */
  lemma OwnersDistinct(v: Volume, lay: Layout, dirs: set<nat>, owner: Owners, d: nat, i: nat, d2: nat, i2: nat)
    requires Whole(v, lay, dirs, owner) && d in dirs && d2 in dirs && i < ENTRIES && i2 < ENTRIES
    requires IsValid(SlotOf(v, d, i)) && IsValid(SlotOf(v, d2, i2))
    ensures SlotOf(v, d, i).file == SlotOf(v, d2, i2).file <==> d == d2 && i == i2
  {
    assert Filed(v, lay, dirs, owner, d, i) && Filed(v, lay, dirs, owner, d2, i2);
  }

  /** The directory of a file is one level up. */
  lemma LevelUp(v: Volume, lay: Layout, dirs: set<nat>, owner: Owners, f: nat)
    requires Whole(v, lay, dirs, owner) && f in lay.chains && f > ROOT
    ensures f in owner && owner[f].num < ENTRIES
    ensures owner[f].dir in dirs && owner[f].dir in lay.chains && owner[f].dir >= ROOT
    ensures IsValid(SlotOf(v, owner[f].dir, owner[f].num)) && SlotOf(v, owner[f].dir, owner[f].num).file == f
    ensures f in dirs <==> IsDirectory(SlotOf(v, owner[f].dir, owner[f].num))
    ensures Level(owner, f) == Level(owner, owner[f].dir) + 1
  {
    assert Owned(v, dirs, owner, f);
    assert Filed(v, lay, dirs, owner, owner[f].dir, owner[f].num) && Dir(lay, owner[f].dir);
  }

  /** The root is in the set, and with a directory those filed in it. */
  ghost predicate Closed(v: Volume, within: set<nat>) {
    ROOT in within && forall d, i: nat :: d in within && i < ENTRIES ==> Inside(v, within, d, i)
  }

  ghost predicate Inside(v: Volume, within: set<nat>, d: nat, i: nat)
    requires i < ENTRIES
  {
    IsValid(SlotOf(v, d, i)) && IsDirectory(SlotOf(v, d, i)) ==> SlotOf(v, d, i).file in within
  }

  /** The directories of a file system are no more than those its slots lead to from the root. */
  lemma {:induction false} DirsWithin(v: Volume, lay: Layout, dirs: set<nat>, owner: Owners, within: set<nat>, d: nat)
    requires Whole(v, lay, dirs, owner) && Closed(v, within) && d in dirs
    ensures d in within
    decreases Level(owner, d)
  {
    assert Dir(lay, d);
    if d > ROOT {
      LevelUp(v, lay, dirs, owner, d);
      DirsWithin(v, lay, dirs, owner, within, owner[d].dir);
      assert Inside(v, within, owner[d].dir, owner[d].num);
    }
  }

  lemma SaveEntrySlots(v: Volume, e: DirEntry, d: nat, i: nat)
    requires |v.data| == SIZE && ValidEntry(e) && e.parent < SIZE && e.num < ENTRIES && i < ENTRIES
    ensures SlotOf(SaveEntry(v, e), d, i) == if d == e.parent && i == e.num then e else SlotOf(v, d, i)
  {
    EntryUpdate(Cluster(v, e.parent), e.num, e, i);
  }

  // ---------- opening ----------

  /** A fresh handle on a file is at its first byte and sees the bytes on disk. */
  lemma OpenFile(v: Volume, lay: Layout, dirs: set<nat>, owner: Owners, d: Handle, i: nat)
    requires Whole(v, lay, dirs, owner) && d.cluster in dirs && i < ENTRIES
    ensures var (d', f, status) := OpenSlot(v, d, i);
            var e := SlotOf(v, d.cluster, i);
            && d'.buf == Cluster(v, d.cluster)
            && (status == Success <==> IsValid(e)) && (status == Success <==> f.Some?)
            && (status == Success ==>
                  f.value.entry == e && f.value.cluster == e.file && f.value.tags == TagOf(v, e.file))
            && (status == Success && !IsDirectory(e) ==>
                  && FileOk(v, lay, f.value, 0) && f.value.abs == 0 && !f.value.dirty
                  && ViewOf(v, lay, f.value, 0) == Flat(v.data, lay.chains[e.file]))
            && (status == Success && IsDirectory(e) ==> DirHandle(v, dirs, f.value))
  {
    var e := SlotOf(v, d.cluster, i);
    assert Filed(v, lay, dirs, owner, d.cluster, i);
    assert Dir(lay, d.cluster);
    DirPlace(v, lay, d.cluster);
    DecodedIsValid(Record(Cluster(v, d.cluster), ENTRY_BYTES, i));
    if IsValid(e) && !IsDirectory(e) {
      FlatIsView(v, lay, e.file, 0);
    }
  }

  /** Opening gives something exactly for a valid slot; slot 8 is read past the end of the buffer. */
  lemma OpenExact(v: Volume, d: Handle, i: nat)
    ensures var (d', f, status) := OpenSlot(v, d, i);
            && (f.Some? <==> i < 8 && IsValid(SlotOf(v, d.cluster, i))) && (f.Some? <==> status == Success)
            && (i == 8 ==> status == Overrun) && (i != 8 && f.None? ==> status == Eof)
            && d' == d.(buf := Cluster(v, d.cluster))
            && (f.Some? ==> f.value.entry == SlotOf(v, d.cluster, i) && f.value.location == 0 && f.value.abs == 0)
  {}

  // ---------- creating ----------

  /** The cluster a new entry gets is a new chain of its own. */
  lemma NewCluster(v: Volume, lay: Layout, dirs: set<nat>, owner: Owners)
    requires Whole(v, lay, dirs, owner) && FreeCount(v.tags) > 0
    ensures var (tags, c) := GetFree(v.tags, TAG_EOF, TAG_EOF);
            && ROOT < c < SIZE && c !in lay.chains && c !in dirs && c == FirstFree(v.tags)
            && Sound(v.(tags := tags), AddChain(lay, c)) && FreeCount(tags) == FreeCount(v.tags) - 1
  {
    GetFreeExact(v.tags, TAG_EOF, TAG_EOF);
    var c := FirstFree(v.tags);
    FreeAboveRoot(v, lay, c);
    NewChain(v.tags, lay, c);
    assert Dir(lay, ROOT);
    FreeCountUpdate(v.tags, c, Tag(TAG_EOF, TAG_EOF));
  }

  /** Of the slots of these directories only the one entry `e` names has changed, to `e`. */
  ghost predicate OnlySlot(v: Volume, w: Volume, dirs: set<nat>, e: DirEntry) {
    forall d, i: nat :: d in dirs && i < ENTRIES ==>
      SlotOf(w, d, i) == if d == e.parent && i == e.num then e else SlotOf(v, d, i)
  }

  function DirsWith(dirs: set<nat>, e: DirEntry): set<nat> {
    if IsDirectory(e) then dirs + {e.file} else dirs
  }

  /** A valid entry in an unused slot for a chain of one new cluster, which is empty if it is a directory. */
  ghost predicate Created(v: Volume, lay: Layout, dirs: set<nat>, w: Volume, e: DirEntry) {
    && ROOT < e.file < SIZE && e.file !in lay.chains && e.file !in dirs && |lay.place| == SIZE
    && IsValid(e) && e.parent in dirs && e.num < ENTRIES && !IsValid(SlotOf(v, e.parent, e.num))
    && OnlySlot(v, w, dirs, e)
    && (IsDirectory(e) ==> forall i: nat :: i < ENTRIES ==> !IsValid(SlotOf(w, e.file, i)))
  }

  /** An old entry is still filed: the new chain is not its own, and levels of old directories are as they were. */
  lemma OldFiled(v: Volume, lay: Layout, dirs: set<nat>, owner: Owners, w: Volume, e: DirEntry, d: nat, i: nat)
    requires Whole(v, lay, dirs, owner) && Created(v, lay, dirs, w, e) && d in dirs && i < ENTRIES
    requires d != e.parent || i != e.num
    ensures Filed(w, AddChain(lay, e.file), DirsWith(dirs, e), WithOwner(owner, e), d, i)
  {
    assert Filed(v, lay, dirs, owner, d, i);
    assert SlotOf(w, d, i) == SlotOf(v, d, i);
    assert Level(WithOwner(owner, e), d) == Level(owner, d);
  }

  lemma CreatedFiled(v: Volume, lay: Layout, dirs: set<nat>, owner: Owners, w: Volume, e: DirEntry, d: nat, i: nat)
    requires Whole(v, lay, dirs, owner) && Created(v, lay, dirs, w, e) && d in DirsWith(dirs, e) && i < ENTRIES
    ensures Filed(w, AddChain(lay, e.file), DirsWith(dirs, e), WithOwner(owner, e), d, i)
  {
    if d in dirs && (d != e.parent || i != e.num) {
      OldFiled(v, lay, dirs, owner, w, e, d, i);
    }
  }

  lemma CreatedOwned(v: Volume, lay: Layout, dirs: set<nat>, owner: Owners, w: Volume, e: DirEntry, f: nat)
    requires Whole(v, lay, dirs, owner) && Created(v, lay, dirs, w, e)
    requires f in AddChain(lay, e.file).chains && f > ROOT
    ensures Owned(w, DirsWith(dirs, e), WithOwner(owner, e), f)
  {
    if f != e.file {
      assert Owned(v, dirs, owner, f);
    }
  }

  lemma CreatedWhole(v: Volume, lay: Layout, dirs: set<nat>, owner: Owners, w: Volume, e: DirEntry)
    requires Whole(v, lay, dirs, owner) && Created(v, lay, dirs, w, e) && Sound(w, AddChain(lay, e.file))
    ensures Whole(w, AddChain(lay, e.file), DirsWith(dirs, e), WithOwner(owner, e))
  {
    var lay', dirs', owner' := AddChain(lay, e.file), DirsWith(dirs, e), WithOwner(owner, e);
    forall d | d in dirs' ensures Dir(lay', d) {
      assert d in dirs ==> Dir(lay, d);
    }
    forall d, i: nat | d in dirs' && i < ENTRIES ensures Filed(w, lay', dirs', owner', d, i) {
      CreatedFiled(v, lay, dirs, owner, w, e, d, i);
    }
    forall f | f in lay'.chains && f > ROOT ensures Owned(w, dirs', owner', f) {
      CreatedOwned(v, lay, dirs, owner, w, e, f);
    }
  }

  ghost predicate DataKept(v: Volume, w: Volume, d: nat, c: nat) {
    |v.data| == |w.data| && forall x :: 0 <= x < |v.data| && x != d && x != c ==> w.data[x] == v.data[x]
  }

  /** Saving an entry of one of the directories, whatever the new tags are. */
  lemma Entered(v: Volume, lay: Layout, dirs: set<nat>, owner: Owners, tags: seq<Tag>, lay': Layout, e: DirEntry)
    requires Whole(v, lay, dirs, owner) && Sound(v.(tags := tags), lay')
    requires ValidEntry(e) && e.parent in dirs && e.num < ENTRIES
    ensures var w := SaveEntry(v.(tags := tags), e);
            w.tags == tags && Sound(w, lay') && OnlySlot(v, w, dirs, e) && DataKept(v, w, e.parent, e.parent)
  {
    var w := SaveEntry(v.(tags := tags), e);
    assert Dir(lay, e.parent);
    DirPlace(v, lay, e.parent);
    forall x, j: nat | x in dirs && j < ENTRIES
      ensures SlotOf(w, x, j) == if x == e.parent && j == e.num then e else SlotOf(v, x, j)
    {
      SaveEntrySlots(v.(tags := tags), e, x, j);
    }
  }

  /** A cleared directory has no entries. */
  lemma ClearedSlots(v: Volume, c: nat, i: nat)
    requires Cluster(v, c) == Zeros(CLUSTER_SIZE) && i < ENTRIES
    ensures !IsValid(SlotOf(v, c, i))
  {
    var b := Record(Cluster(v, c), ENTRY_BYTES, i);
    assert b[304] == 0;
    assert FromLE(b[304..308]) == b[304] + 256 * FromLE(b[304..308][1..]);
  }

  lemma Cleared(v: Volume, lay: Layout, dirs: set<nat>, u: Volume, e: DirEntry)
    requires ROOT < e.file < SIZE && e.file !in dirs && OnlySlot(v, u, dirs, e) && |lay.place| == SIZE
    requires Sound(u, AddChain(lay, e.file))
    ensures var w := SetCluster(u, e.file, Zeros(CLUSTER_SIZE));
            && Sound(w, AddChain(lay, e.file)) && OnlySlot(v, w, dirs, e) && w.tags == u.tags
            && Cluster(w, e.file) == Zeros(CLUSTER_SIZE) && DataKept(u, w, e.file, e.file)
            && forall i: nat :: i < ENTRIES ==> !IsValid(SlotOf(w, e.file, i))
  {
    var w := SetCluster(u, e.file, Zeros(CLUSTER_SIZE));
    forall i: nat | i < ENTRIES ensures !IsValid(SlotOf(w, e.file, i)) {
      ClearedSlots(w, e.file, i);
    }
    forall d, i: nat | d in dirs && i < ENTRIES ensures SlotOf(w, d, i) == SlotOf(u, d, i) {
      assert Cluster(w, d) == Cluster(u, d);
    }
  }

  /** The volume with a new entry saved, and its cluster cleared if it is a directory. */
  function Filing(v: Volume, e: DirEntry): Volume {
    var u := SaveEntry(v.(tags := GetFree(v.tags, TAG_EOF, TAG_EOF).0), e);
    if IsDirectory(e) then SetCluster(u, e.file, Zeros(CLUSTER_SIZE)) else u
  }

  /** An entry for the cluster the allocation gives, of one of the directories. */
  ghost predicate Fileable(v: Volume, dirs: set<nat>, e: DirEntry) {
    && ValidEntry(e) && IsValid(e) && e.parent in dirs && e.num < ENTRIES
    && e.file == GetFree(v.tags, TAG_EOF, TAG_EOF).1
  }

  /** A cluster is free, and so on disk is the slot of the entry. */
  ghost predicate Room(v: Volume, d: nat, i: nat) {
    FreeCount(v.tags) > 0 && i < ENTRIES && !IsValid(SlotOf(v, d, i))
  }

  lemma FilingCreates(v: Volume, lay: Layout, dirs: set<nat>, owner: Owners, e: DirEntry)
    requires Whole(v, lay, dirs, owner) && Fileable(v, dirs, e) && Room(v, e.parent, e.num)
    ensures var w := Filing(v, e);
            && ROOT < e.file < SIZE && |lay.place| == SIZE
            && Created(v, lay, dirs, w, e) && Sound(w, AddChain(lay, e.file))
            && DataKept(v, w, e.parent, if IsDirectory(e) then e.file else e.parent)
            && FreeCount(w.tags) == FreeCount(v.tags) - 1
  {
    var tags := GetFree(v.tags, TAG_EOF, TAG_EOF).0;
    NewCluster(v, lay, dirs, owner);
    Entered(v, lay, dirs, owner, tags, AddChain(lay, e.file), e);
    if IsDirectory(e) {
      Cleared(v, lay, dirs, SaveEntry(v.(tags := tags), e), e);
    }
  }

  /**
   Creating takes the least free cluster as a chain of its own and files it in an unused slot; nothing
   else on the volume changes, and the file system stays whole.
   */
  lemma CreateOk(v: Volume, lay: Layout, dirs: set<nat>, owner: Owners, e: DirEntry)
    requires Whole(v, lay, dirs, owner) && Fileable(v, dirs, e) && Room(v, e.parent, e.num)
    ensures var w := Filing(v, e);
            && e.file < |lay.place| && e.file !in lay.chains && e.file !in dirs && e.file == FirstFree(v.tags)
            && Whole(w, AddChain(lay, e.file), DirsWith(dirs, e), WithOwner(owner, e))
            && OnlySlot(v, w, dirs, e)
            && DataKept(v, w, e.parent, if IsDirectory(e) then e.file else e.parent)
            && FreeCount(w.tags) == FreeCount(v.tags) - 1
  {
    NewCluster(v, lay, dirs, owner);
    FilingCreates(v, lay, dirs, owner, e);
    CreatedWhole(v, lay, dirs, owner, Filing(v, e), e);
  }

  /** What the slots and the tags are after filing an entry, even with no cluster for it or over another entry. */
  lemma FilingSlots(v: Volume, lay: Layout, dirs: set<nat>, owner: Owners, e: DirEntry)
    requires Whole(v, lay, dirs, owner) && Fileable(v, dirs, e)
    ensures var w := Filing(v, e);
            && OnlySlot(v, w, dirs, e) && (IsDirectory(e) ==> EmptyDir(w, e.file)) && e.file !in dirs
            && e.file !in lay.chains && e.parent != e.file && w.tags == GetFree(v.tags, TAG_EOF, TAG_EOF).0
            && (FreeCount(v.tags) == 0 ==> w.tags == v.tags && e.file == TAG_EOF)
            && (FreeCount(v.tags) > 0 ==> e.file < |lay.place| && Chained(w.tags, AddChain(lay, e.file)))
  {
    var tags := GetFree(v.tags, TAG_EOF, TAG_EOF).0;
    GetFreeExact(v.tags, TAG_EOF, TAG_EOF);
    if FreeCount(v.tags) > 0 {
      NewCluster(v, lay, dirs, owner);
      Entered(v, lay, dirs, owner, tags, AddChain(lay, e.file), e);
      if IsDirectory(e) {
        Cleared(v, lay, dirs, SaveEntry(v.(tags := tags), e), e);
      }
    } else {
      assert v.(tags := tags) == v;
      Entered(v, lay, dirs, owner, tags, lay, e);
      NoSuchCluster(v, lay, dirs, owner, TAG_EOF);
      if IsDirectory(e) {
        forall i: nat | i < ENTRIES ensures !IsValid(SlotOf(Filing(v, e), e.file, i)) {
          ClearedSlots(Filing(v, e), e.file, i);
        }
      }
    }
  }

  lemma NoSuchCluster(v: Volume, lay: Layout, dirs: set<nat>, owner: Owners, c: nat)
    requires Whole(v, lay, dirs, owner) && c >= SIZE
    ensures c !in lay.chains && c !in dirs
  {
    forall h | h in lay.chains ensures h < SIZE {
      assert Slot(v.tags, lay, h, 0);
    }
    forall d | d in dirs ensures d in lay.chains {
      assert Dir(lay, d);
    }
  }

  lemma FilingClosed(v: Volume, lay: Layout, dirs: set<nat>, owner: Owners, w: Volume, e: DirEntry)
    requires Whole(v, lay, dirs, owner) && OnlySlot(v, w, dirs, e) && (IsDirectory(e) ==> EmptyDir(w, e.file))
    ensures Closed(w, DirsWith(dirs, e))
  {
    forall d, i: nat | d in DirsWith(dirs, e) && i < ENTRIES ensures Inside(w, DirsWith(dirs, e), d, i) {
      assert d in dirs ==> Filed(v, lay, dirs, owner, d, i);
    }
  }

  /** The valid slots of the new tree are those of the old one, but for the new entry. */
  lemma FiledSlot(v: Volume, dirs: set<nat>, w: Volume, e: DirEntry,
                  lay': Layout, dirs': set<nat>, owner': Owners, d: nat, i: nat)
    requires Whole(w, lay', dirs', owner') && OnlySlot(v, w, dirs, e) && Closed(w, DirsWith(dirs, e))
    requires IsDirectory(e) ==> EmptyDir(w, e.file)
    requires d in dirs' && i < ENTRIES && IsValid(SlotOf(w, d, i))
    ensures d in dirs && SlotOf(w, d, i) == if d == e.parent && i == e.num then e else SlotOf(v, d, i)
  {
    DirsWithin(w, lay', dirs', owner', DirsWith(dirs, e), d);
  }

  lemma EntryHasChain(v: Volume, lay: Layout, dirs: set<nat>, owner: Owners, d: nat, i: nat)
    requires Whole(v, lay, dirs, owner) && d in dirs && i < ENTRIES && IsValid(SlotOf(v, d, i))
    ensures SlotOf(v, d, i).file in lay.chains
  {
    assert Filed(v, lay, dirs, owner, d, i);
  }

  /** A directory that still has its chain is still a directory. */
  lemma StillDirectory(v: Volume, lay: Layout, dirs: set<nat>, owner: Owners, w: Volume, e: DirEntry,
                       lay': Layout, dirs': set<nat>, owner': Owners, d: nat)
    requires Whole(v, lay, dirs, owner) && OnlySlot(v, w, dirs, e) && e.parent in dirs && e.num < ENTRIES
    requires IsDirectory(e) ==> EmptyDir(w, e.file)
    requires Whole(w, lay', dirs', owner') && d in dirs && d in lay'.chains && d != e.file
    ensures d in dirs'
  {
    assert Dir(lay, d);
    if d > ROOT {
      LevelUp(w, lay', dirs', owner', d);
      var x, i := owner'[d].dir, owner'[d].num;
      FilingClosed(v, lay, dirs, owner, w, e);
      FiledSlot(v, dirs, w, e, lay', dirs', owner', x, i);
      assert Filed(v, lay, dirs, owner, x, i);
    }
  }

  /** An entry without a cluster breaks the file system, and so does one in place of another. */
  lemma FilingBreaks(v: Volume, lay: Layout, dirs: set<nat>, owner: Owners, e: DirEntry,
                     lay': Layout, dirs': set<nat>, owner': Owners)
    requires Whole(v, lay, dirs, owner) && Fileable(v, dirs, e) && Whole(Filing(v, e), lay', dirs', owner')
    ensures Room(v, e.parent, e.num)
  {
    var w := Filing(v, e);
    FilingSlots(v, lay, dirs, owner, e);
    assert Dir(lay, e.parent);
    if FreeCount(v.tags) == 0 {
      ChainsDetermined(v.tags, lay, lay');
      StillDirectory(v, lay, dirs, owner, w, e, lay', dirs', owner', e.parent);
      EntryHasChain(w, lay', dirs', owner', e.parent, e.num);
      assert false;
    }
    if IsValid(SlotOf(v, e.parent, e.num)) {
      var f := SlotOf(v, e.parent, e.num).file;
      assert Filed(v, lay, dirs, owner, e.parent, e.num);
      ChainsDetermined(w.tags, AddChain(lay, e.file), lay');
      LevelUp(w, lay', dirs', owner', f);
      FilingClosed(v, lay, dirs, owner, w, e);
      FiledSlot(v, dirs, w, e, lay', dirs', owner', owner'[f].dir, owner'[f].num);
      OwnersDistinct(v, lay, dirs, owner, e.parent, e.num, owner'[f].dir, owner'[f].num);
      assert false;
    }
  }

  /** A creation leaves a file system if and only if there is a free cluster and an unused slot. */
  lemma FilingExact(v: Volume, lay: Layout, dirs: set<nat>, owner: Owners, e: DirEntry)
    requires Whole(v, lay, dirs, owner) && Fileable(v, dirs, e)
    ensures FileSystem(Filing(v, e)) <==> Room(v, e.parent, e.num)
  {
    if Room(v, e.parent, e.num) {
      CreateOk(v, lay, dirs, owner, e);
    }
    forall lay', dirs', owner' | Whole(Filing(v, e), lay', dirs', owner') ensures Room(v, e.parent, e.num) {
      FilingBreaks(v, lay, dirs, owner, e, lay', dirs', owner');
    }
  }

  /** Whatever the buffer of the handle, touch files an entry of size 0 in the slot looked up in it. */
  lemma TouchFiles(v: Volume, lay: Layout, dirs: set<nat>, owner: Owners, d: Handle, name: seq<Byte>)
    requires Whole(v, lay, dirs, owner) && OnDir(dirs, d) && |name| < 256 && FreeSlot(d.buf, 0) < ENTRIES
    ensures var e := TouchEntry(v, d, name);
            && Touch(v, d, name).0 == Filing(v, e) && Fileable(v, dirs, e) && !IsDirectory(e)
            && e.parent == d.cluster && e.num == FreeSlot(d.buf, 0) && e.size == 0
  {
    EntryFits(v, lay, dirs, owner, d);
    FileFlags(TouchEntry(v, d, name));
  }

  /** ... and mkdir one of an empty directory. */
  lemma MkdirFiles(v: Volume, lay: Layout, dirs: set<nat>, owner: Owners, d: Handle, name: seq<Byte>)
    requires Whole(v, lay, dirs, owner) && OnDir(dirs, d) && |name| < 256 && FreeSlot(d.buf, 0) < ENTRIES
    ensures var e := MkdirEntry(v, d, name);
            && Mkdir(v, d, name) == Filing(v, e) && Fileable(v, dirs, e) && IsDirectory(e)
            && e.parent == d.cluster && e.num == FreeSlot(d.buf, 0)
  {
    EntryFits(v, lay, dirs, owner, d);
    DirectoryFlags(MkdirEntry(v, d, name));
  }

  // ---------- what a new entry says ----------

  /** The string in a buffer, which ends at the first zero byte. */
  function CString(b: seq<Byte>): seq<Byte> {
    if b == [] || b[0] == 0 then [] else [b[0]] + CString(b[1..])
  }

  /** The name is this one, with zeros behind it. */
  predicate Named(e: DirEntry, name: seq<Byte>) {
    |name| <= |e.name| == 256 && e.name[..|name|] == name && forall i :: |name| <= i < 256 ==> e.name[i] == 0
  }

  lemma NameRead(e: DirEntry, name: seq<Byte>)
    requires Named(e, name) && |name| < 256 && 0 !in name
    ensures CString(e.name) == name
  {
    StringRead(e.name, name);
  }

  lemma {:induction false} StringRead(b: seq<Byte>, name: seq<Byte>)
    requires |name| < |b| && b[..|name|] == name && b[|name|] == 0 && 0 !in name
    ensures CString(b) == name
  {
    if name != [] {
      assert b[0] == name[0] && b[1..][..|name| - 1] == name[1..];
      StringRead(b[1..], name[1..]);
    }
  }

  /** The name and the fields are these, and the times and the unused bytes are zero. */
  predicate Says(e: DirEntry, name: seq<Byte>, file: nat, parent: nat, size: nat, flags: nat, num: nat) {
    && Named(e, name)
    && e.file == file && e.parent == parent && e.size == size && e.flags == flags && e.num == num
    && |e.times| == 24 && (forall i :: 0 <= i < 24 ==> e.times[i] == 0)
    && |e.unused| == 200 && (forall i :: 0 <= i < 200 ==> e.unused[i] == 0)
  }

  /** The cluster a new entry gets: the least free one, or the mark for none. */
  function NextCluster(tags: seq<Tag>): (c: nat)
    ensures FirstFree(tags) < SIZE ==> c == FirstFree(tags)
    ensures FirstFree(tags) >= SIZE ==> c == 0xFFFF_FFFF
  {
    if FirstFree(tags) < SIZE then FirstFree(tags) else 0xFFFF_FFFF
  }

  /** Room for an entry in the directory of this handle, as far as the handle can tell. */
  predicate Touchable(v: Volume, d: Handle, name: seq<Byte>) {
    && |v.tags| == SIZE && |v.data| == SIZE && |name| < 256
    && |d.buf| == CLUSTER_SIZE && d.entry.file < SIZE && FreeSlot(d.buf, 0) < ENTRIES
  }

  /** Whatever is on the volume, the slot after a touch has the name given, size 0, and the valid flag alone. */
  lemma TouchSays(v: Volume, d: Handle, name: seq<Byte>)
    requires Touchable(v, d, name)
    ensures var i := FreeSlot(d.buf, 0);
            Says(SlotOf(Touch(v, d, name).0, d.entry.file, i), name, NextCluster(v.tags), d.entry.file, 0, 1, i)
  {
    var e := TouchEntry(v, d, name);
    EntrySays(v, e, name);
    SaveEntrySlots(v.(tags := GetFree(v.tags, TAG_EOF, TAG_EOF).0), e, d.entry.file, e.num);
  }

  /** Slot `i` of this directory has the name given, size 4096 and both flags, and the cluster it names is all zeros. */
  ghost predicate SaysDirectory(w: Volume, parent: nat, i: nat, name: seq<Byte>, c: nat) {
    && i < ENTRIES && Says(SlotOf(w, parent, i), name, c, parent, 4096, 3, i)
    && forall p :: 0 <= p < 4096 ==> Cluster(w, c)[p] == 0
  }

  /** That is so after a mkdir, unless the directory was itself the least free cluster. */
  lemma MkdirSays(v: Volume, d: Handle, name: seq<Byte>)
    requires Touchable(v, d, name) && FirstFree(v.tags) != d.entry.file
    ensures SaysDirectory(Mkdir(v, d, name), d.entry.file, FreeSlot(d.buf, 0), name, NextCluster(v.tags))
  {
    var e := MkdirEntry(v, d, name);
    EntrySays(v, e, name);
    var u := SaveEntry(v.(tags := GetFree(v.tags, TAG_EOF, TAG_EOF).0), e);
    SaveEntrySlots(v.(tags := GetFree(v.tags, TAG_EOF, TAG_EOF).0), e, d.entry.file, e.num);
    assert Cluster(Mkdir(v, d, name), d.entry.file) == Cluster(u, d.entry.file);
    assert Cluster(Mkdir(v, d, name), e.file) == Zeros(CLUSTER_SIZE);
  }

  /** The root is called "/", is its own parent, and has the size and the flags of any directory. */
  lemma RootSays()
    ensures Says(RootEntry(), [47], 1025, 1025, 4096, 3, 0)
  {}

  lemma EntrySays(v: Volume, e: DirEntry, name: seq<Byte>)
    requires |v.tags| == SIZE && |name| < 256 && e.file == GetFree(v.tags, TAG_EOF, TAG_EOF).1
    requires e == NewEntry(name, e.file, e.parent, e.size, e.flags, e.num)
    ensures e.file == NextCluster(v.tags) && Says(e, name, e.file, e.parent, e.size, e.flags, e.num)
  {
    GetFreeExact(v.tags, TAG_EOF, TAG_EOF);
    assert e.name[..|name|] == name;
  }

  lemma FileFlags(e: DirEntry)
    requires e.flags == VALID_FLAG
    ensures IsValid(e) && !IsDirectory(e)
  {}

  lemma DirectoryFlags(e: DirEntry)
    requires e.flags == VALID_FLAG + DIRECTORY_FLAG
    ensures IsValid(e) && IsDirectory(e)
  {}

  /** The cluster number of a new entry, and its directory's, fit their widths. */
  lemma EntryFits(v: Volume, lay: Layout, dirs: set<nat>, owner: Owners, d: Handle)
    requires Whole(v, lay, dirs, owner) && OnDir(dirs, d)
    ensures GetFree(v.tags, TAG_EOF, TAG_EOF).1 <= TAG_EOF && d.entry.file < SIZE
  {
    assert Dir(lay, d.cluster);
    DirPlace(v, lay, d.cluster);
    GetFreeExact(v.tags, TAG_EOF, TAG_EOF);
  }

  /**
   Touch leaves a file system if and only if a cluster was free and the slot that looks unused in the
   handle's buffer was so on disk.
   */
  lemma TouchExact(v: Volume, lay: Layout, dirs: set<nat>, owner: Owners, d: Handle, name: seq<Byte>)
    requires Whole(v, lay, dirs, owner) && OnDir(dirs, d) && |name| < 256 && FreeSlot(d.buf, 0) < ENTRIES
    ensures FileSystem(Touch(v, d, name).0)
            <==> FreeCount(v.tags) > 0 && !IsValid(SlotOf(v, d.cluster, FreeSlot(d.buf, 0)))
  {
    TouchFiles(v, lay, dirs, owner, d, name);
    FilingExact(v, lay, dirs, owner, TouchEntry(v, d, name));
  }

  /** So does mkdir. */
  lemma MkdirExact(v: Volume, lay: Layout, dirs: set<nat>, owner: Owners, d: Handle, name: seq<Byte>)
    requires Whole(v, lay, dirs, owner) && OnDir(dirs, d) && |name| < 256 && FreeSlot(d.buf, 0) < ENTRIES
    ensures FileSystem(Mkdir(v, d, name))
            <==> FreeCount(v.tags) > 0 && !IsValid(SlotOf(v, d.cluster, FreeSlot(d.buf, 0)))
  {
    MkdirFiles(v, lay, dirs, owner, d, name);
    FilingExact(v, lay, dirs, owner, MkdirEntry(v, d, name));
  }

  /** An entry for the cluster the allocation gives, of a file that is no directory. */
  ghost predicate Misfiled(v: Volume, lay: Layout, dirs: set<nat>, e: DirEntry) {
    && ValidEntry(e) && IsValid(e) && e.parent in lay.chains && e.parent > ROOT && e.parent !in dirs
    && e.num < ENTRIES && e.file == GetFree(v.tags, TAG_EOF, TAG_EOF).1
  }

  lemma MisfilingSlots(v: Volume, lay: Layout, dirs: set<nat>, owner: Owners, e: DirEntry)
    requires Whole(v, lay, dirs, owner) && Misfiled(v, lay, dirs, e)
    ensures var w := Filing(v, e);
            && w.tags == GetFree(v.tags, TAG_EOF, TAG_EOF).0 && |w.data| == SIZE
            && (forall c :: 0 <= c < SIZE ==> |w.data[c]| == CLUSTER_SIZE)
            && forall d, i: nat :: d in dirs && i < ENTRIES ==> SlotOf(w, d, i) == SlotOf(v, d, i)
  {
    var w := Filing(v, e);
    GetFreeExact(v.tags, TAG_EOF, TAG_EOF);
    NewClusterOutside(v, lay, dirs, owner);
    FilingData(v, e);
    forall d | d in dirs ensures Cluster(w, d) == Cluster(v, d) {
      assert d != e.parent && d != e.file;
    }
  }

  lemma NewClusterOutside(v: Volume, lay: Layout, dirs: set<nat>, owner: Owners)
    requires Whole(v, lay, dirs, owner)
    ensures GetFree(v.tags, TAG_EOF, TAG_EOF).1 !in dirs
  {
    GetFreeExact(v.tags, TAG_EOF, TAG_EOF);
    if FreeCount(v.tags) > 0 {
      NewCluster(v, lay, dirs, owner);
    } else {
      NoSuchCluster(v, lay, dirs, owner, TAG_EOF);
    }
  }

  /** Filing touches the clusters of the directory and of the new entry, at most. */
  lemma FilingData(v: Volume, e: DirEntry)
    requires |v.data| == SIZE && forall c :: 0 <= c < SIZE ==> |v.data[c]| == CLUSTER_SIZE
    ensures var w := Filing(v, e);
            && w.tags == GetFree(v.tags, TAG_EOF, TAG_EOF).0
            && |w.data| == SIZE && (forall c :: 0 <= c < SIZE ==> |w.data[c]| == CLUSTER_SIZE)
            && forall c: nat :: c != e.parent && c != e.file ==> Cluster(w, c) == Cluster(v, c)
  {}

  /**
   Filed in a file, an entry is found by nobody. What is left is a file system if and only if there was no
   cluster for it to leak.
   */
  lemma MisfilingExact(v: Volume, lay: Layout, dirs: set<nat>, owner: Owners, e: DirEntry)
    requires Whole(v, lay, dirs, owner) && Misfiled(v, lay, dirs, e)
    ensures FileSystem(Filing(v, e)) <==> FreeCount(v.tags) == 0
  {
    var w := Filing(v, e);
    MisfilingSlots(v, lay, dirs, owner, e);
    GetFreeExact(v.tags, TAG_EOF, TAG_EOF);
    if FreeCount(v.tags) == 0 {
      SameSlotsWhole(v, lay, dirs, owner, w);
    }
    forall lay', dirs', owner' | Whole(w, lay', dirs', owner') ensures FreeCount(v.tags) == 0 {
      MisfilingLeaks(v, lay, dirs, owner, e, lay', dirs', owner');
    }
  }

  lemma SameSlotsWhole(v: Volume, lay: Layout, dirs: set<nat>, owner: Owners, w: Volume)
    requires Whole(v, lay, dirs, owner) && w.tags == v.tags && |w.data| == SIZE
    requires forall c :: 0 <= c < SIZE ==> |w.data[c]| == CLUSTER_SIZE
    requires forall d, i: nat :: d in dirs && i < ENTRIES ==> SlotOf(w, d, i) == SlotOf(v, d, i)
    ensures Whole(w, lay, dirs, owner)
  {
    forall d, i: nat | d in dirs && i < ENTRIES ensures Filed(w, lay, dirs, owner, d, i) {
      assert Filed(v, lay, dirs, owner, d, i);
    }
    forall f | f in lay.chains && f > ROOT ensures Owned(w, dirs, owner, f) {
      assert Owned(v, dirs, owner, f);
    }
  }

  lemma MisfilingLeaks(v: Volume, lay: Layout, dirs: set<nat>, owner: Owners, e: DirEntry,
                       lay': Layout, dirs': set<nat>, owner': Owners)
    requires Whole(v, lay, dirs, owner) && Misfiled(v, lay, dirs, e) && Whole(Filing(v, e), lay', dirs', owner')
    ensures FreeCount(v.tags) == 0
  {
    var w := Filing(v, e);
    MisfilingSlots(v, lay, dirs, owner, e);
    if FreeCount(v.tags) > 0 {
      NewCluster(v, lay, dirs, owner);
      ChainsDetermined(w.tags, AddChain(lay, e.file), lay');
      LevelUp(w, lay', dirs', owner', e.file);
      var d, i := owner'[e.file].dir, owner'[e.file].num;
      forall x, j: nat | x in dirs && j < ENTRIES ensures Inside(w, dirs, x, j) {
        assert Filed(v, lay, dirs, owner, x, j);
      }
      DirsWithin(w, lay', dirs', owner', dirs, d);
      EntryHasChain(v, lay, dirs, owner, d, i);
      assert false;
    }
  }

  /** A handle on a file that is no directory: touch and mkdir take it like one on a directory. */
  ghost predicate OnFile(lay: Layout, dirs: set<nat>, d: Handle) {
    d.entry.file in lay.chains && d.entry.file > ROOT && d.entry.file !in dirs && |d.buf| == CLUSTER_SIZE
  }

  /** Through a handle on a file touch leaves a file system if and only if no cluster was free. */
  lemma TouchInFile(v: Volume, lay: Layout, dirs: set<nat>, owner: Owners, d: Handle, name: seq<Byte>)
    requires Whole(v, lay, dirs, owner) && OnFile(lay, dirs, d) && |name| < 256 && FreeSlot(d.buf, 0) < ENTRIES
    ensures FileSystem(Touch(v, d, name).0) <==> FreeCount(v.tags) == 0
  {
    var e := TouchEntry(v, d, name);
    GetFreeExact(v.tags, TAG_EOF, TAG_EOF);
    assert Slot(v.tags, lay, d.entry.file, 0);
    FileFlags(e);
    MisfilingExact(v, lay, dirs, owner, e);
    assert Touch(v, d, name).0 == Filing(v, e);
  }

  /** So does mkdir. */
  lemma MkdirInFile(v: Volume, lay: Layout, dirs: set<nat>, owner: Owners, d: Handle, name: seq<Byte>)
    requires Whole(v, lay, dirs, owner) && OnFile(lay, dirs, d) && |name| < 256 && FreeSlot(d.buf, 0) < ENTRIES
    ensures FileSystem(Mkdir(v, d, name)) <==> FreeCount(v.tags) == 0
  {
    var e := MkdirEntry(v, d, name);
    GetFreeExact(v.tags, TAG_EOF, TAG_EOF);
    assert Slot(v.tags, lay, d.entry.file, 0);
    DirectoryFlags(e);
    MisfilingExact(v, lay, dirs, owner, e);
    assert Mkdir(v, d, name) == Filing(v, e);
  }

  /** No valid slot of the directories names the chain. */
  ghost predicate Unnamed(v: Volume, dirs: set<nat>, c: nat) {
    forall d, i: nat :: d in dirs && i < ENTRIES && IsValid(SlotOf(v, d, i)) ==> SlotOf(v, d, i).file != c
  }

  /** Filing an entry over the only one of a chain leaves the chain with its clusters but without an entry. */
  lemma FilingOver(v: Volume, lay: Layout, dirs: set<nat>, owner: Owners, d: nat, i: nat, e: DirEntry)
    requires Whole(v, lay, dirs, owner) && Fileable(v, dirs, e) && d in dirs && i < ENTRIES
    requires IsValid(SlotOf(v, d, i)) && e.parent == d && e.num == i
    ensures var w, c := Filing(v, e), SlotOf(v, d, i).file;
            !FileSystem(w) && c < |w.tags| && w.tags[c] != FREE && Unnamed(w, dirs, c)
  {
    var c := SlotOf(v, d, i).file;
    FilingExact(v, lay, dirs, owner, e);
    FilingSlots(v, lay, dirs, owner, e);
    assert Filed(v, lay, dirs, owner, d, i) && Slot(v.tags, lay, c, 0);
    FreeIffUnplaced(v.tags, lay, c);
    GetFreeExact(v.tags, TAG_EOF, TAG_EOF);
    forall y, j: nat | y in dirs && j < ENTRIES && IsValid(SlotOf(Filing(v, e), y, j))
      ensures SlotOf(Filing(v, e), y, j).file != c
    {
      if y != d || j != i {
        OwnersDistinct(v, lay, dirs, owner, y, j, d, i);
      }
    }
  }

  /**
   A second touch through the handle the first one leaves takes the same slot: no file system is left, and
   the cluster of the first file is neither free nor named by any slot.
   */
  lemma TouchTwice(v: Volume, lay: Layout, dirs: set<nat>, owner: Owners, d: Handle, n1: seq<Byte>, n2: seq<Byte>)
    requires Whole(v, lay, dirs, owner) && DirHandle(v, dirs, d) && FreeSlot(d.buf, 0) < ENTRIES
    requires FreeCount(v.tags) > 0 && |n1| < 256 && |n2| < 256
    ensures var (w, d') := Touch(v, d, n1);
            var x, c := Touch(w, d', n2).0, FirstFree(v.tags);
            FileSystem(w) && !FileSystem(x) && c < |x.tags| && x.tags[c] != FREE && Unnamed(x, dirs, c)
  {
    var (w, d') := Touch(v, d, n1);
    var e := TouchEntry(v, d, n1);
    TouchFiles(v, lay, dirs, owner, d, n1);
    CreateOk(v, lay, dirs, owner, e);
    TouchFiles(w, AddChain(lay, e.file), dirs, WithOwner(owner, e), d', n2);
    FilingOver(w, AddChain(lay, e.file), dirs, WithOwner(owner, e), e.parent, e.num, TouchEntry(w, d', n2));
  }

  // ---------- removing ----------

  function Min(a: nat, b: nat): nat {
    if a < b then a else b
  }

  /** The loop of rm frees a chain from cluster `i` on in as many turns as it has clusters there, and not before. */
  lemma {:induction false} UnchainOk(tags: seq<Tag>, lay: Layout, f: nat, done: seq<nat>, i: nat, n: nat)
    requires Chained(tags, lay) && f in lay.chains && i <= |lay.chains[f]|
    requires forall j :: i <= j < |lay.chains[f]| ==> lay.chains[f][j] !in done
    ensures var ch := lay.chains[f];
            var t := if i < |ch| && ch[i] < |tags| then tags[ch[i]] else FREE;
            Unchain(FreeAll(tags, done), At(ch, i), t, n)
            == (FreeAll(tags, done + ch[i..Min(i + n, |ch|)]), At(ch, i + n))
            && (i + n < |ch| ==> At(ch, i + n) != TAG_EOF)
    decreases n
  {
    var ch := lay.chains[f];
    if i < |ch| && n > 0 {
      UnchainNext(tags, lay, f, done, i);
      UnchainOk(tags, lay, f, done + [ch[i]], i + 1, n - 1);
      assert done + [ch[i]] + ch[i + 1..Min(i + n, |ch|)] == done + ch[i..Min(i + n, |ch|)];
    } else {
      assert i < |ch| ==> Slot(tags, lay, f, i);
      assert done + ch[i..Min(i + n, |ch|)] == done;
    }
  }

  /** One turn: cluster `i` is freed, and the next one of the chain is still as it was. */
  lemma UnchainNext(tags: seq<Tag>, lay: Layout, f: nat, done: seq<nat>, i: nat)
    requires Chained(tags, lay) && f in lay.chains && i < |lay.chains[f]|
    requires forall j :: i <= j < |lay.chains[f]| ==> lay.chains[f][j] !in done
    ensures var ch := lay.chains[f];
            && ch[i] < |tags| && ch[i] != TAG_EOF && tags[ch[i]].next == At(ch, i + 1)
            && FreeAll(tags, done)[ch[i] := FREE] == FreeAll(tags, done + [ch[i]])
            && (forall j :: i + 1 <= j < |ch| ==> ch[j] !in done + [ch[i]])
            && (i + 1 < |ch| ==> ch[i + 1] < |tags| && FreeAll(tags, done + [ch[i]])[ch[i + 1]] == tags[ch[i + 1]])
  {
    var ch := lay.chains[f];
    assert Slot(tags, lay, f, i);
    assert i + 1 < |ch| ==> Slot(tags, lay, f, i + 1);
    assert FreeAll(tags, done)[ch[i] := FREE] == FreeAll(tags, done + [ch[i]]);
    forall j | i + 1 <= j < |ch| ensures ch[j] != ch[i] {
      ChainsDisjoint(tags, lay, f, i, f, j);
    }
  }

  /** A fresh handle on the file of an entry of one of the directories. */
  ghost predicate FreshFile(v: Volume, dirs: set<nat>, h: Handle) {
    && h.entry.parent in dirs && h.entry.num < ENTRIES && IsValid(h.entry) && ValidEntry(h.entry)
    && h.entry == SlotOf(v, h.entry.parent, h.entry.num) && h.tags == TagOf(v, h.entry.file)
  }

  ghost predicate EmptyDir(v: Volume, f: nat) {
    forall i: nat :: i < ENTRIES ==> !IsValid(SlotOf(v, f, i))
  }

  /** The entry as rm leaves it: only its flags are cleared. */
  function Unfiled(e: DirEntry): (r: DirEntry)
    ensures !IsValid(r)
  {
    e.(flags := 0)
  }

  /** The handle is at cluster number `k` of its file, whatever it has done there. */
  ghost predicate AtCluster(v: Volume, lay: Layout, h: Handle, k: nat) {
    && h.entry.file in lay.chains && k < |lay.chains[h.entry.file]|
    && h.cluster == lay.chains[h.entry.file][k] && h.tags == TagOf(v, h.cluster)
  }

  /** The first turn frees the first cluster and goes on behind cluster `k`, whose tag the handle has. */
  lemma FirstTurn(tags: seq<Tag>, lay: Layout, f: nat, k: nat, n: nat)
    requires Chained(tags, lay) && f in lay.chains && k < |lay.chains[f]| && n > 0
    ensures var ch := lay.chains[f];
            && ch[0] < |tags| && ch[0] != TAG_EOF && ch[k] < |tags| && tags[ch[k]].next == At(ch, k + 1)
            && tags[ch[0] := FREE] == FreeAll(tags, [ch[0]])
            && (forall j :: k + 1 <= j < |ch| ==> ch[j] !in [ch[0]])
            && var t := if k + 1 < |ch| && ch[k + 1] < |tags| then tags[ch[k + 1]] else FREE;
               && (At(ch, k + 1) < |tags| ==> FreeAll(tags, [ch[0]])[At(ch, k + 1)] == t)
               && Unchain(tags, ch[0], tags[ch[k]], n) == Unchain(FreeAll(tags, [ch[0]]), At(ch, k + 1), t, n - 1)
  {
    var ch := lay.chains[f];
    assert Slot(tags, lay, f, 0) && Slot(tags, lay, f, k);
    assert k + 1 < |ch| ==> Slot(tags, lay, f, k + 1);
    forall j | k + 1 <= j < |ch| ensures ch[j] !in [ch[0]] {
      ChainsDisjoint(tags, lay, f, 0, f, j);
    }
    assert FreeAll(tags, [ch[0]]) == tags[ch[0] := FREE];
  }

  /**
   The volume after `n` turns of rm's loop. The first turn frees the first cluster, but the next cluster is
   then the one behind the handle's; the loop has ended if and only if there was a turn for each of these.
   */
  lemma RmTurns(v: Volume, lay: Layout, h: Handle, k: nat, n: nat)
    requires Chained(v.tags, lay) && AtCluster(v, lay, h, k) && n > 0
    ensures var ch := lay.chains[h.entry.file];
            && k + 1 <= Behind(ch, k, n) <= |ch|
            && Rm(v, h, n)
               == (SaveEntry(v, Unfiled(h.entry)).(tags := FreeAll(v.tags, [ch[0]] + ch[k + 1..Behind(ch, k, n)])),
                   At(ch, k + n))
            && (At(ch, k + n) == TAG_EOF <==> k + n >= |ch|)
  {
    FirstTurn(v.tags, lay, h.entry.file, k, n);
    UnchainOk(v.tags, lay, h.entry.file, [lay.chains[h.entry.file][0]], k + 1, n - 1);
  }

  /** How far behind cluster `k` of a chain `n` turns have come. */
  function Behind(ch: seq<nat>, k: nat, n: nat): nat {
    Min(k + n, |ch|)
  }

  /** With as many turns as the volume has clusters the loop has ended. */
  lemma RmEnds(v: Volume, lay: Layout, h: Handle, k: nat)
    requires Chained(v.tags, lay) && AtCluster(v, lay, h, k)
    ensures var ch := lay.chains[h.entry.file];
            && Rm(v, h, SIZE)
               == (SaveEntry(v, Unfiled(h.entry)).(tags := FreeAll(v.tags, [ch[0]] + ch[k + 1..])), TAG_EOF)
            && (k == 0 ==> [ch[0]] + ch[k + 1..] == ch)
  {
    var ch := lay.chains[h.entry.file];
    ChainBound(v.tags, lay, h.entry.file);
    RmTurns(v, lay, h, k, SIZE);
    assert ch[k + 1..|ch|] == ch[k + 1..];
  }

  /** What a removed entry leaves behind: everything but that entry and its chain. */
  lemma RemovedFiled(v: Volume, lay: Layout, dirs: set<nat>, owner: Owners, w: Volume, e: DirEntry, d: nat, i: nat)
    requires Whole(v, lay, dirs, owner) && OnlySlot(v, w, dirs, Unfiled(e)) && d in dirs && i < ENTRIES && d != e.file
    requires e.parent in dirs && e.num < ENTRIES && IsValid(e) && e == SlotOf(v, e.parent, e.num)
    requires e.file in lay.chains
    ensures Filed(w, DropChain(lay, e.file), dirs - {e.file}, owner - {e.file}, d, i)
  {
    assert Filed(v, lay, dirs, owner, d, i) && Filed(v, lay, dirs, owner, e.parent, e.num);
  }

  lemma RemovedOwned(v: Volume, lay: Layout, dirs: set<nat>, owner: Owners, w: Volume, e: DirEntry, f: nat)
    requires Whole(v, lay, dirs, owner) && OnlySlot(v, w, dirs, Unfiled(e))
    requires f in lay.chains && f > ROOT && f != e.file
    requires e.parent in dirs && e.num < ENTRIES && IsValid(e) && e == SlotOf(v, e.parent, e.num)
    requires e.file in lay.chains
    requires IsDirectory(e) ==> EmptyDir(v, e.file)
    ensures Owned(w, dirs - {e.file}, owner - {e.file}, f)
  {
    assert Owned(v, dirs, owner, f) && Filed(v, lay, dirs, owner, e.parent, e.num);
  }

  lemma RemovedWhole(v: Volume, lay: Layout, dirs: set<nat>, owner: Owners, w: Volume, e: DirEntry)
    requires Whole(v, lay, dirs, owner) && OnlySlot(v, w, dirs, Unfiled(e)) && e.file in lay.chains && e.file > ROOT
    requires e.parent in dirs && e.num < ENTRIES && IsValid(e) && e == SlotOf(v, e.parent, e.num)
    requires IsDirectory(e) ==> EmptyDir(v, e.file)
    requires Sound(w, DropChain(lay, e.file))
    ensures Whole(w, DropChain(lay, e.file), dirs - {e.file}, owner - {e.file})
  {
    var lay', dirs', owner' := DropChain(lay, e.file), dirs - {e.file}, owner - {e.file};
    forall d | d in dirs' ensures Dir(lay', d) {
      assert Dir(lay, d);
    }
    forall d, i: nat | d in dirs' && i < ENTRIES ensures Filed(w, lay', dirs', owner', d, i) {
      RemovedFiled(v, lay, dirs, owner, w, e, d, i);
    }
    forall f | f in lay'.chains && f > ROOT ensures Owned(w, dirs', owner', f) {
      RemovedOwned(v, lay, dirs, owner, w, e, f);
    }
  }

  /** Without its chain and its entry the volume is still sound. */
  lemma RemovedSound(v: Volume, lay: Layout, dirs: set<nat>, owner: Owners, e: DirEntry)
    requires Whole(v, lay, dirs, owner) && ValidEntry(e) && e.parent in dirs && e.num < ENTRIES
    requires e.file in lay.chains && e.file > ROOT
    ensures var w := SaveEntry(v, Unfiled(e)).(tags := FreeAll(v.tags, lay.chains[e.file]));
            Sound(w, DropChain(lay, e.file)) && OnlySlot(v, w, dirs, Unfiled(e)) && DataKept(v, w, e.parent, e.parent)
  {
    var ch := lay.chains[e.file];
    assert v.(tags := v.tags) == v;
    Entered(v, lay, dirs, owner, v.tags, lay, Unfiled(e));
    RemoveChain(v.tags, lay, e.file);
    forall c: nat | c < ROOT ensures c !in ch {
      SystemOutside(v, lay, e.file, c);
    }
    forall d, i: nat | d in dirs && i < ENTRIES
      ensures SlotOf(SaveEntry(v, Unfiled(e)).(tags := FreeAll(v.tags, ch)), d, i)
              == SlotOf(SaveEntry(v, Unfiled(e)), d, i)
    {}
  }

  lemma SystemOutside(v: Volume, lay: Layout, f: nat, c: nat)
    requires Sound(v, lay) && f in lay.chains && f >= ROOT && c < ROOT
    ensures c !in lay.chains[f]
  {
    forall i | 0 <= i < |lay.chains[f]| ensures lay.chains[f][i] != c {
      FileClusters(v, lay, f, i);
    }
  }

  /** The cluster a handle is at does not matter to rm, only the tag. */
  function Restarted(h: Handle): Handle {
    h.(cluster := h.entry.file)
  }

  lemma FreshAtStart(v: Volume, lay: Layout, dirs: set<nat>, owner: Owners, h: Handle)
    requires Whole(v, lay, dirs, owner) && FreshFile(v, dirs, h)
    ensures AtCluster(v, lay, Restarted(h), 0) && Rm(v, h, SIZE) == Rm(v, Restarted(h), SIZE)
  {
    assert Filed(v, lay, dirs, owner, h.entry.parent, h.entry.num);
  }

  /**
   Removing a file, or an empty directory, frees exactly the clusters of its chain, clears its slot,
   touches nothing else, and leaves the file system whole.
   */
  lemma RmOk(v: Volume, lay: Layout, dirs: set<nat>, owner: Owners, h: Handle)
    requires Whole(v, lay, dirs, owner) && FreshFile(v, dirs, h)
    requires IsDirectory(h.entry) ==> EmptyDir(v, h.entry.file)
    ensures var f := h.entry.file;
            && f in lay.chains && f > ROOT
            && var (w, c) := Rm(v, h, SIZE);
            && c == TAG_EOF && w.tags == FreeAll(v.tags, lay.chains[f])
            && FreeCount(w.tags) == FreeCount(v.tags) + |lay.chains[f]|
            && Whole(w, DropChain(lay, f), dirs - {f}, owner - {f})
            && OnlySlot(v, w, dirs, Unfiled(h.entry)) && DataKept(v, w, h.entry.parent, h.entry.parent)
  {
    var e := h.entry;
    assert Filed(v, lay, dirs, owner, e.parent, e.num);
    FreshAtStart(v, lay, dirs, owner, h);
    RmEnds(v, lay, Restarted(h), 0);
    RemoveChainCount(v.tags, lay, e.file);
    RemovedSound(v, lay, dirs, owner, e);
    RemovedWhole(v, lay, dirs, owner, Rm(v, h, SIZE).0, e);
  }

  /** Removing a directory leaves a file system if and only if it is empty; else the files in it are leaked. */
  lemma RmNeedsEmpty(v: Volume, lay: Layout, dirs: set<nat>, owner: Owners, h: Handle)
    requires Whole(v, lay, dirs, owner) && FreshFile(v, dirs, h) && IsDirectory(h.entry)
    ensures FileSystem(Rm(v, h, SIZE).0) <==> EmptyDir(v, h.entry.file)
  {
    if EmptyDir(v, h.entry.file) {
      RmOk(v, lay, dirs, owner, h);
    }
    forall lay', dirs', owner', i: nat | Whole(Rm(v, h, SIZE).0, lay', dirs', owner') && i < ENTRIES
      ensures !IsValid(SlotOf(v, h.entry.file, i))
    {
      LeakedFile(v, lay, dirs, owner, h, i, lay', dirs', owner');
    }
  }

  lemma LeakedFile(v: Volume, lay: Layout, dirs: set<nat>, owner: Owners, h: Handle, i: nat,
                   lay': Layout, dirs': set<nat>, owner': Owners)
    requires Whole(v, lay, dirs, owner) && FreshFile(v, dirs, h) && IsDirectory(h.entry) && i < ENTRIES
    requires Whole(Rm(v, h, SIZE).0, lay', dirs', owner')
    ensures !IsValid(SlotOf(v, h.entry.file, i))
  {
    var e, w := h.entry, Rm(v, h, SIZE).0;
    var f, child := e.file, SlotOf(v, e.file, i).file;
    assert Filed(v, lay, dirs, owner, e.parent, e.num) && Filed(v, lay, dirs, owner, f, i);
    FreshAtStart(v, lay, dirs, owner, h);
    RmEnds(v, lay, Restarted(h), 0);
    RemovedSound(v, lay, dirs, owner, e);
    ChainsDetermined(w.tags, DropChain(lay, f), lay');
    if IsValid(SlotOf(v, f, i)) {
      LevelUp(w, lay', dirs', owner', child);
      RemovedClosed(v, lay, dirs, owner, w, e);
      DirsWithin(w, lay', dirs', owner', dirs - {f}, owner'[child].dir);
      OwnersDistinct(v, lay, dirs, owner, owner'[child].dir, owner'[child].num, f, i);
      assert false;
    }
  }

  lemma RemovedClosed(v: Volume, lay: Layout, dirs: set<nat>, owner: Owners, w: Volume, e: DirEntry)
    requires Whole(v, lay, dirs, owner) && OnlySlot(v, w, dirs, Unfiled(e)) && e.file > ROOT
    requires e.parent in dirs && e.num < ENTRIES && IsValid(e) && e == SlotOf(v, e.parent, e.num)
    ensures Closed(w, dirs - {e.file})
  {
    forall d, i: nat | d in dirs - {e.file} && i < ENTRIES ensures Inside(w, dirs - {e.file}, d, i) {
      assert Filed(v, lay, dirs, owner, d, i);
      assert Filed(v, lay, dirs, owner, e.parent, e.num);
    }
  }

  /** The entry is the root's own, or one that stands in a directory. */
  ghost predicate KnownEntry(v: Volume, dirs: set<nat>, e: DirEntry) {
    e == RootEntry() ||
    (e.parent in dirs && e.num < ENTRIES && IsValid(e) && ValidEntry(e) && e == SlotOf(v, e.parent, e.num))
  }

  lemma RootStands(v: Volume, lay: Layout, dirs: set<nat>, owner: Owners)
    requires Whole(v, lay, dirs, owner)
    ensures v.tags[ROOT] != FREE
  {
    assert Dir(lay, ROOT);
    DirPlace(v, lay, ROOT);
  }

  /** Removal through a handle past the first cluster leaves the second one linked to a free cluster. */
  lemma RmMoved(v: Volume, lay: Layout, h: Handle, k: nat, lay': Layout)
    requires Sound(v, lay) && AtCluster(v, lay, h, k) && k > 0 && h.entry.file >= ROOT
    ensures !Chained(Rm(v, h, SIZE).0.tags, lay')
  {
    var f, w := h.entry.file, Rm(v, h, SIZE).0;
    var ch := lay.chains[f];
    RmEnds(v, lay, h, k);
    assert Slot(v.tags, lay, f, 0) && Slot(v.tags, lay, f, 1);
    FileClusters(v, lay, f, 1);
    ChainsDisjoint(v.tags, lay, f, 0, f, 1);
    forall j | k + 1 <= j < |ch| ensures ch[j] != ch[1] {
      ChainsDisjoint(v.tags, lay, f, 1, f, j);
    }
    assert w.tags[ch[0]] == FREE && w.tags[ch[1]] == v.tags[ch[1]];
    if Chained(w.tags, lay') {
      FreeIffUnplaced(v.tags, lay, ch[1]);
      FreeIffUnplaced(w.tags, lay', ch[1]);
      var g, i: nat :| g in lay'.chains && i < |lay'.chains[g]| && lay'.chains[g][i] == ch[1];
      LinksInverse(w.tags, lay', g, i);
    }
  }

  /**
   Removal through any handle leaves a file system if and only if the handle is not the root's, is still at
   the first cluster of its file, and the file, if it is a directory, is empty.
   */
  lemma RmExact(v: Volume, lay: Layout, dirs: set<nat>, owner: Owners, h: Handle, k: nat)
    requires Whole(v, lay, dirs, owner) && KnownEntry(v, dirs, h.entry) && AtCluster(v, lay, h, k)
    ensures FileSystem(Rm(v, h, SIZE).0)
            <==> h.entry.file != ROOT && k == 0 && (IsDirectory(h.entry) ==> EmptyDir(v, h.entry.file))
  {
    var w := Rm(v, h, SIZE).0;
    assert Dir(lay, ROOT);
    if h.entry == RootEntry() {
      RmEnds(v, lay, h, k);
      forall lay', dirs', owner' ensures !Whole(w, lay', dirs', owner') {
        if Whole(w, lay', dirs', owner') {
          RootStands(w, lay', dirs', owner');
        }
      }
    } else {
      assert Filed(v, lay, dirs, owner, h.entry.parent, h.entry.num);
      if k > 0 {
        forall lay', dirs', owner' ensures !Whole(w, lay', dirs', owner') {
          RmMoved(v, lay, h, k, lay');
        }
      } else if IsDirectory(h.entry) {
        RmNeedsEmpty(v, lay, dirs, owner, h);
      } else {
        RmOk(v, lay, dirs, owner, h);
      }
    }
  }

  /** The handle on the root, the only one the source opens by name, is one of these: removing the root leaves none. */
  lemma RmRoot(v: Volume, lay: Layout, dirs: set<nat>, owner: Owners)
    requires Whole(v, lay, dirs, owner)
    ensures AtCluster(v, lay, OpenRoot(v), 0) && !FileSystem(Rm(v, OpenRoot(v), SIZE).0)
  {
    assert Dir(lay, ROOT);
    RmExact(v, lay, dirs, owner, OpenRoot(v), 0);
  }
}
