/**
 File handles (src/drivers/fat64/fat64.c:227-377, 493-604): one-cluster write-back caches over the
 volume, and the byte-wise read and write built on them.
 */
module FatFile {
  import opened Common
  import opened FatVolume
  import opened FatCodec

  const LOC_EOF: nat := 0xFFFF_FFFF

  /** Overrun stands for reading past the end of the buffer, which C leaves undefined. */
  datatype Status = Success | Eof | BadHandle | Overrun

  datatype Handle = Handle(entry: DirEntry, tags: Tag, cluster: nat, abs: nat, location: nat,
                           buf: seq<Byte>, dirty: bool)

  // ---------- the volume, cluster by cluster ----------

  function Cluster(v: Volume, c: nat): (b: seq<Byte>)
    ensures |b| == CLUSTER_SIZE
  {
    if c < |v.data| && |v.data[c]| == CLUSTER_SIZE then v.data[c] else Zeros(CLUSTER_SIZE)
  }

  function TagOf(v: Volume, c: nat): Tag {
    if c < |v.tags| then v.tags[c] else FREE
  }

  function SetCluster(v: Volume, c: nat, b: seq<Byte>): Volume {
    if c < |v.data| then v.(data := v.data[c := b]) else v
  }

  function SetTag(v: Volume, c: nat, t: Tag): Volume {
    if c < |v.tags| then v.(tags := v.tags[c := t]) else v
  }

  // ---------- handles ----------

  /** The location is one the buffer has, or the end-of-file mark. */
  predicate InBuffer(h: Handle) {
    |h.buf| == CLUSTER_SIZE && (h.location < CLUSTER_SIZE || h.location == LOC_EOF)
  }

  /** ... or getc has left it one past the buffer. */
  predicate Readable(h: Handle) {
    |h.buf| == CLUSTER_SIZE && (h.location <= CLUSTER_SIZE || h.location == LOC_EOF)
  }

  function Save(v: Volume, h: Handle): (Volume, Handle) {
    if h.dirty then (SetCluster(v, h.cluster, h.buf), h.(dirty := false)) else (v, h)
  }

  function Open(v: Volume, h: Handle): (r: Handle)
    ensures |r.buf| == CLUSTER_SIZE
  {
    h.(buf := Cluster(v, h.cluster), tags := TagOf(v, h.cluster))
  }

  /** Rewrites an entry in its directory on disk. */
  function SaveEntry(v: Volume, e: DirEntry): Volume {
    if e.num < ENTRIES && ValidEntry(e) then
      SetCluster(v, e.parent, PutEntry(Cluster(v, e.parent), e.num, e))
    else
      v
  }

  /** At the end of a cluster: save it and go on to the next, or return with the location given. */
  function Turn(v: Volume, h: Handle, atEnd: nat): (r: (Volume, Handle))
    requires |h.buf| == CLUSTER_SIZE
    ensures |r.1.buf| == CLUSTER_SIZE
    ensures r.1.location == atEnd || r.1.location == 0
  {
    var (w, g) := Save(v, h);
    if g.tags.next != TAG_EOF then (w, Open(w, g.(cluster := g.tags.next)).(location := 0))
    else (w, g.(location := atEnd))
  }

  function Getc(v: Volume, h: Handle): (r: (Volume, Handle, Byte, Status))
    requires InBuffer(h)
    ensures |r.1.buf| == CLUSTER_SIZE
    ensures r.1.location <= CLUSTER_SIZE || r.1.location == LOC_EOF
  {
    if h.cluster == 0 then (v, h, 0, BadHandle)
    else if h.location == LOC_EOF then (v, h, 0, Eof)
    else
      var data := h.buf[h.location];
      var g := h.(location := h.location + 1, abs := h.abs + 1);
      // the end-of-file mark is compared, not stored, so the location stays one past the buffer
      var (w, k) := if g.location == CLUSTER_SIZE then Turn(v, g, CLUSTER_SIZE) else (v, g);
      (w, k, data, Success)
  }

  /** A byte put in the buffer, the entry left alone. */
  function Poked(h: Handle, data: Byte): Handle
    requires |h.buf| == CLUSTER_SIZE && h.location < CLUSTER_SIZE
  {
    h.(buf := h.buf[h.location := data], location := h.location + 1, abs := h.abs + 1, dirty := true)
  }

  /** Stores a byte in the buffer and, if the file gets longer, its new size on disk. */
  function Poke(v: Volume, h: Handle, data: Byte): (r: (Volume, Handle))
    requires |h.buf| == CLUSTER_SIZE && h.location < CLUSTER_SIZE
    ensures |r.1.buf| == CLUSTER_SIZE && r.1.location == h.location + 1
  {
    var g := Poked(h, data);
    if g.abs > g.entry.size then
      var k := g.(entry := g.entry.(size := g.entry.size + 1));
      (SaveEntry(v, k.entry), k)
    else
      (v, g)
  }

  /** Stores a byte and turns to the next cluster at the end of this one. */
  function Store(v: Volume, h: Handle, data: Byte): (r: (Volume, Handle))
    requires |h.buf| == CLUSTER_SIZE && h.location < CLUSTER_SIZE
    ensures InBuffer(r.1)
  {
    var (w, g) := Poke(v, h, data);
    if g.location == CLUSTER_SIZE then Turn(w, g, LOC_EOF) else (w, g)
  }

  /** Moves to a newly allocated cluster behind the current one. */
  function Grow(v: Volume, h: Handle): (r: (Volume, Handle, Status))
    requires |h.buf| == CLUSTER_SIZE
    ensures r.2 == Success ==> |r.1.buf| == CLUSTER_SIZE && r.1.location == 0
    ensures r.2 != Success ==> r.1 == h && r.2 == Eof
  {
    var (tags, c) := GetFree(v.tags, h.cluster, TAG_EOF);
    if c == TAG_EOF then (v, h, Eof)
    else
      var g := h.(tags := Tag(h.tags.prev, c));
      var (w, k) := Save(SetTag(v.(tags := tags), g.cluster, g.tags), g);
      (w, Open(w, k.(cluster := c)).(location := 0), Success)
  }

  function Putc(v: Volume, h: Handle, data: Byte): (r: (Volume, Handle, Status))
    requires InBuffer(h)
    ensures InBuffer(r.1)
  {
    if h.cluster == 0 then (v, h, BadHandle)
    else if h.location == LOC_EOF then
      if IsDirectory(h.entry) then (v, h, Eof)
      else
        var (w, g, status) := Grow(v, h);
        if status != Success then (v, h, status)
        else
          var (x, k) := Store(w, g, data);
          (x, k, Success)
    else
      var (w, g) := Store(v, h, data);
      (w, g, Success)
  }

  function Write(v: Volume, h: Handle, bytes: seq<Byte>): (r: (Volume, Handle, Status))
    requires InBuffer(h)
    ensures InBuffer(r.1)
    decreases |bytes|
  {
    if bytes == [] then (v, h, Success)
    else
      var (w, g, status) := Putc(v, h, bytes[0]);
      if status != Success then (w, g, status) else Write(w, g, bytes[1..])
  }

  function Read(v: Volume, h: Handle, amount: nat): (r: (Volume, Handle, seq<Byte>, Status))
    requires Readable(h)
    decreases amount
  {
    if amount == 0 then (v, h, [], Success)
    else if h.location == CLUSTER_SIZE then (v, h, [], Overrun)
    else
      var (w, g, data, status) := Getc(v, h);
      if status != Success then (w, g, [], status)
      else
        var (x, k, rest, last) := Read(w, g, amount - 1);
        (x, k, [data] + rest, last)
  }

  // ---------- a file as one flat sequence of bytes ----------

  /** The volume is well formed: chains, whole clusters, and system clusters below the root. */
  ghost predicate Sound(v: Volume, lay: Layout) {
    && Chained(v.tags, lay)
    && |v.data| == SIZE && (forall c :: 0 <= c < SIZE ==> |v.data[c]| == CLUSTER_SIZE)
    && (forall c: nat :: c < ROOT ==> lay.place[c].Some? && lay.place[c].value.0 < ROOT)
  }

  /** Cluster number `i` of the chain `ch` of which cluster number `k` is cached in `buf`. */
  function Chunk(data: seq<seq<Byte>>, ch: seq<nat>, k: nat, buf: seq<Byte>, i: nat): (b: seq<Byte>)
    ensures |b| == CLUSTER_SIZE
  {
    if i == k && |buf| == CLUSTER_SIZE then buf
    else if i < |ch| && ch[i] < |data| && |data[ch[i]]| == CLUSTER_SIZE then data[ch[i]]
    else Zeros(CLUSTER_SIZE)
  }

  function ByteAt(data: seq<seq<Byte>>, ch: seq<nat>, k: nat, buf: seq<Byte>, p: nat): Byte {
    Chunk(data, ch, k, buf, p / CLUSTER_SIZE)[p % CLUSTER_SIZE]
  }

  /** The bytes of the file as its handle sees them: the disk, but for the cached cluster. */
  function View(data: seq<seq<Byte>>, ch: seq<nat>, k: nat, buf: seq<Byte>): (s: seq<Byte>)
    ensures |s| == CLUSTER_SIZE * |ch|
    ensures forall p :: 0 <= p < |s| ==> s[p] == ByteAt(data, ch, k, buf, p)
  {
    seq(CLUSTER_SIZE * |ch|, p requires 0 <= p < CLUSTER_SIZE * |ch| => ByteAt(data, ch, k, buf, p))
  }

  /** The bytes of the chain on disk. */
  function Flat(data: seq<seq<Byte>>, ch: seq<nat>): (s: seq<Byte>) {
    View(data, ch, |ch|, [])
  }

  /** The handle caches cluster number `k` of its file, whose directory entry on disk is as it knows it. */
  ghost predicate FileAt(v: Volume, lay: Layout, h: Handle, k: nat) {
    && h.entry.file in lay.chains && h.entry.file >= ROOT
    && k < |lay.chains[h.entry.file]|
    && h.cluster == lay.chains[h.entry.file][k]
    && h.tags == TagOf(v, h.cluster)
    && |h.buf| == CLUSTER_SIZE && (!h.dirty ==> h.buf == Cluster(v, h.cluster))
    && EntryOk(v, lay, h.entry)
  }

  /** ... and its location is inside that cluster, or at the end of the last one. */
  ghost predicate FileOk(v: Volume, lay: Layout, h: Handle, k: nat) {
    && FileAt(v, lay, h, k)
    && (if h.location == LOC_EOF then k + 1 == |lay.chains[h.entry.file]| && h.abs == CLUSTER_SIZE * (k + 1)
        else h.location < CLUSTER_SIZE && h.abs == CLUSTER_SIZE * k + h.location)
  }

  /** The file as its handle sees it. */
  ghost function ViewOf(v: Volume, lay: Layout, h: Handle, k: nat): seq<Byte>
    requires h.entry.file in lay.chains
  {
    View(v.data, lay.chains[h.entry.file], k, h.buf)
  }

  ghost predicate EntryOk(v: Volume, lay: Layout, e: DirEntry) {
    && ValidEntry(e) && e.num < ENTRIES && !IsDirectory(e)
    && ROOT <= e.parent < SIZE && |lay.place| == SIZE
    && lay.place[e.parent].Some? && lay.place[e.parent].value.0 != e.file
    && EntryAt(Cluster(v, e.parent), e.num) == e
  }

  /** What a file operation leaves alone: every cluster but the file's own and its directory's. */
  ghost predicate OthersKept(v: Volume, w: Volume, ch: seq<nat>, parent: nat) {
    |w.data| == |v.data| && forall c :: 0 <= c < |v.data| && c !in ch && c != parent ==> w.data[c] == v.data[c]
  }

  /** Of the directory only the file's own slot may differ. */
  ghost predicate SlotsKept(v: Volume, w: Volume, parent: nat, num: nat) {
    forall j :: 0 <= j < ENTRIES && j != num ==> EntryAt(Cluster(w, parent), j) == EntryAt(Cluster(v, parent), j)
  }

  lemma FileClusters(v: Volume, lay: Layout, h: nat, i: nat)
    requires Sound(v, lay) && h in lay.chains && h >= ROOT && i < |lay.chains[h]|
    ensures ROOT <= lay.chains[h][i] < SIZE
    ensures Cluster(v, lay.chains[h][i]) == v.data[lay.chains[h][i]]
  {
    assert Slot(v.tags, lay, h, i);
  }

  lemma ViewByChunks(data: seq<seq<Byte>>, data': seq<seq<Byte>>, ch: seq<nat>,
                     k: nat, buf: seq<Byte>, k': nat, buf': seq<Byte>)
    requires forall i :: 0 <= i < |ch| ==> Chunk(data, ch, k, buf, i) == Chunk(data', ch, k', buf', i)
    ensures View(data, ch, k, buf) == View(data', ch, k', buf')
  {
    forall p | 0 <= p < CLUSTER_SIZE * |ch| ensures ByteAt(data, ch, k, buf, p) == ByteAt(data', ch, k', buf', p) {
      assert 0 <= p / CLUSTER_SIZE < |ch|;
    }
  }

  /** A byte put in the buffer is that byte of the view. */
  lemma ViewPoke(data: seq<seq<Byte>>, ch: seq<nat>, k: nat, buf: seq<Byte>, loc: nat, b: Byte)
    requires k < |ch| && |buf| == CLUSTER_SIZE && loc < CLUSTER_SIZE
    ensures CLUSTER_SIZE * k + loc < CLUSTER_SIZE * |ch|
    ensures View(data, ch, k, buf[loc := b]) == View(data, ch, k, buf)[CLUSTER_SIZE * k + loc := b]
  {
    var pos := CLUSTER_SIZE * k + loc;
    assert pos < CLUSTER_SIZE * |ch|;
    forall p | 0 <= p < CLUSTER_SIZE * |ch|
      ensures ByteAt(data, ch, k, buf[loc := b], p) == if p == pos then b else ByteAt(data, ch, k, buf, p)
    {
      assert p == CLUSTER_SIZE * (p / CLUSTER_SIZE) + p % CLUSTER_SIZE;
    }
  }

  /** The directory of a file lies outside the file's own chain. */
  lemma ParentOutside(v: Volume, lay: Layout, e: DirEntry)
    requires Sound(v, lay) && EntryOk(v, lay, e) && e.file in lay.chains
    ensures e.parent !in lay.chains[e.file]
  {
    forall i | 0 <= i < |lay.chains[e.file]| ensures lay.chains[e.file][i] != e.parent {
      assert Slot(v.tags, lay, e.file, i);
    }
  }

  // ---------- the steps of a write ----------

  /** Writing the entry back touches one slot of the directory and nothing else. */
  lemma SaveEntryOk(v: Volume, lay: Layout, h: Handle, k: nat, e: DirEntry)
    requires Sound(v, lay) && FileAt(v, lay, h, k) && ValidEntry(e) && e == h.entry.(size := e.size)
    ensures var w, g := SaveEntry(v, e), h.(entry := e);
            && w.tags == v.tags && Sound(w, lay) && FileAt(w, lay, g, k)
            && ViewOf(w, lay, g, k) == ViewOf(v, lay, h, k)
            && OthersKept(v, w, [], e.parent) && SlotsKept(v, w, e.parent, e.num)
  {
    var w, ch := SaveEntry(v, e), lay.chains[h.entry.file];
    ParentOutside(v, lay, h.entry);
    forall j | 0 <= j < ENTRIES
      ensures EntryAt(Cluster(w, e.parent), j) == if j == e.num then e else EntryAt(Cluster(v, e.parent), j)
    {
      EntryUpdate(Cluster(v, e.parent), e.num, e, j);
    }
    forall i | 0 <= i < |ch| ensures Chunk(w.data, ch, k, h.buf, i) == Chunk(v.data, ch, k, h.buf, i) {
      assert ch[i] in ch;
    }
    ViewByChunks(w.data, v.data, ch, k, h.buf, k, h.buf);
  }

  /** With the cached cluster on disk, the view from any cluster is the disk. */
  lemma FlatIsView(v: Volume, lay: Layout, f: nat, k: nat)
    requires Sound(v, lay) && f in lay.chains && f >= ROOT && k < |lay.chains[f]|
    ensures View(v.data, lay.chains[f], k, Cluster(v, lay.chains[f][k])) == Flat(v.data, lay.chains[f])
  {
    var ch := lay.chains[f];
    FileClusters(v, lay, f, k);
    ViewByChunks(v.data, v.data, ch, k, Cluster(v, ch[k]), |ch|, []);
  }

  /** Saving puts the view on disk and changes no other cluster. */
  lemma SaveOk(v: Volume, lay: Layout, h: Handle, k: nat)
    requires Sound(v, lay) && FileAt(v, lay, h, k)
    ensures var (w, g) := Save(v, h);
            var ch := lay.chains[h.entry.file];
            && w.tags == v.tags && Sound(w, lay) && FileAt(w, lay, g, k) && g == h.(dirty := false)
            && Flat(w.data, ch) == ViewOf(v, lay, h, k)
            && OthersKept(v, w, ch, h.entry.parent) && Cluster(w, h.entry.parent) == Cluster(v, h.entry.parent)
  {
    var (w, g) := Save(v, h);
    var f := h.entry.file;
    var ch := lay.chains[f];
    ParentOutside(v, lay, h.entry);
    FileClusters(v, lay, f, k);
    assert ch[k] in ch;
    forall i | 0 <= i < |ch| ensures Chunk(w.data, ch, |ch|, [], i) == Chunk(v.data, ch, k, h.buf, i) {
      FileClusters(v, lay, f, i);
      ChainsDisjoint(v.tags, lay, f, i, f, k);
    }
    ViewByChunks(w.data, v.data, ch, |ch|, [], k, h.buf);
  }

  /** Opening another cluster of the file, nothing being unsaved, shows the same bytes. */
  lemma OpenOk(v: Volume, lay: Layout, h: Handle, k: nat, j: nat)
    requires Sound(v, lay) && FileAt(v, lay, h, k) && !h.dirty && j < |lay.chains[h.entry.file]|
    ensures var g := Open(v, h.(cluster := lay.chains[h.entry.file][j]));
            FileAt(v, lay, g, j) && ViewOf(v, lay, g, j) == ViewOf(v, lay, h, k)
  {
    FlatIsView(v, lay, h.entry.file, k);
    FlatIsView(v, lay, h.entry.file, j);
  }

  /** At the end of a cluster the next one is opened if there is one. */
  lemma TurnOk(v: Volume, lay: Layout, h: Handle, k: nat, atEnd: nat)
    requires Sound(v, lay) && FileAt(v, lay, h, k)
    ensures var (w, g) := Turn(v, h, atEnd);
            var ch := lay.chains[h.entry.file];
            var k' := if k + 1 < |ch| then k + 1 else k;
            && w.tags == v.tags && Sound(w, lay) && FileAt(w, lay, g, k') && !g.dirty
            && g.location == (if k + 1 < |ch| then 0 else atEnd) && g.abs == h.abs && g.entry == h.entry
            && ViewOf(w, lay, g, k') == ViewOf(v, lay, h, k)
            && OthersKept(v, w, ch, h.entry.parent) && Cluster(w, h.entry.parent) == Cluster(v, h.entry.parent)
  {
    var ch := lay.chains[h.entry.file];
    var (w, g) := Save(v, h);
    SaveOk(v, lay, h, k);
    FlatIsView(w, lay, h.entry.file, k);
    FileClusters(v, lay, h.entry.file, k);
    LinksInverse(v.tags, lay, h.entry.file, k);
    assert Slot(v.tags, lay, h.entry.file, k);
    if k + 1 < |ch| {
      OpenOk(w, lay, g, k, k + 1);
    }
  }

  /** Number of the cluster the handle is at after a byte is stored at location `loc` of cluster `k` of `n`. */
  function After(n: nat, k: nat, loc: nat): nat {
    if loc + 1 == CLUSTER_SIZE && k + 1 < n then k + 1 else k
  }

  function Max(a: nat, b: nat): nat {
    if a > b then a else b
  }

  /**
   The size of a file after `n` bytes are put from position `pos` on. A position past the size, where reading
   can leave a handle, stays past it: the size then grows by one for each byte.
   */
  function Grown(size: nat, pos: nat, n: nat): nat {
    if pos <= size then Max(size, pos + n) else size + n
  }

  lemma PokedOk(v: Volume, lay: Layout, h: Handle, k: nat, data: Byte)
    requires Sound(v, lay) && FileOk(v, lay, h, k) && h.location < CLUSTER_SIZE
    ensures var g := Poked(h, data);
            && FileAt(v, lay, g, k) && h.abs < |ViewOf(v, lay, h, k)| && g.abs < U64
            && ViewOf(v, lay, g, k) == ViewOf(v, lay, h, k)[h.abs := data]
  {
    ChainBound(v.tags, lay, h.entry.file);
    ViewPoke(v.data, lay.chains[h.entry.file], k, h.buf, h.location, data);
  }

  lemma PokeOk(v: Volume, lay: Layout, h: Handle, k: nat, data: Byte)
    requires Sound(v, lay) && FileOk(v, lay, h, k) && h.location < CLUSTER_SIZE
    ensures var (w, g) := Poke(v, h, data);
            && w.tags == v.tags && Sound(w, lay) && FileAt(w, lay, g, k)
            && h.abs < |ViewOf(v, lay, h, k)| && ViewOf(w, lay, g, k) == ViewOf(v, lay, h, k)[h.abs := data]
            && g.abs == h.abs + 1 && g.entry == h.entry.(size := Grown(h.entry.size, h.abs, 1))
            && OthersKept(v, w, [], h.entry.parent) && SlotsKept(v, w, h.entry.parent, h.entry.num)
  {
    var g := Poked(h, data);
    PokedOk(v, lay, h, k, data);
    if g.abs > g.entry.size {
      var e := g.entry.(size := g.entry.size + 1);
      SaveEntryOk(v, lay, g, k, e);
      assert Poke(v, h, data) == (SaveEntry(v, e), g.(entry := e));
    } else {
      assert Poke(v, h, data) == (v, g);
    }
  }

  /** Storing a byte writes it at the handle's position of the flat file. */
  lemma StoreOk(v: Volume, lay: Layout, h: Handle, k: nat, data: Byte)
    requires Sound(v, lay) && FileOk(v, lay, h, k) && h.location < CLUSTER_SIZE
    ensures var (w, g) := Store(v, h, data);
            var ch := lay.chains[h.entry.file];
            var k' := After(|ch|, k, h.location);
            && w.tags == v.tags && Sound(w, lay) && FileOk(w, lay, g, k')
            && h.abs < |ViewOf(v, lay, h, k)| && ViewOf(w, lay, g, k') == ViewOf(v, lay, h, k)[h.abs := data]
            && g.abs == h.abs + 1 && g.entry == h.entry.(size := Grown(h.entry.size, h.abs, 1))
            && OthersKept(v, w, ch, h.entry.parent) && SlotsKept(v, w, h.entry.parent, h.entry.num)
  {
    PokeOk(v, lay, h, k, data);
    var (u, x) := Poke(v, h, data);
    if x.location == CLUSTER_SIZE {
      TurnOk(u, lay, x, k, LOC_EOF);
    }
  }

  // ---------- growth ----------

  /** A longer chain shows the same bytes first. */
  lemma ViewPrefix(data: seq<seq<Byte>>, ch: seq<nat>, c: nat, k: nat, buf: seq<Byte>)
    requires k < |ch| && |buf| == CLUSTER_SIZE
    ensures View(data, ch, k, buf) <= View(data, ch + [c], k, buf)
  {
    var long := ch + [c];
    forall p | 0 <= p < CLUSTER_SIZE * |ch| ensures ByteAt(data, ch, k, buf, p) == ByteAt(data, long, k, buf, p) {
      assert 0 <= p / CLUSTER_SIZE < |ch|;
    }
  }

  /** Free clusters lie above the tag table. */
  lemma FreeAboveRoot(v: Volume, lay: Layout, c: nat)
    requires Sound(v, lay) && c < SIZE && v.tags[c] == FREE
    ensures c >= ROOT && lay.place[c] == None
  {
    FreeIffUnplaced(v.tags, lay, c);
  }

  /** At the end of the file the least free cluster is linked behind the last one. */
  lemma GrowOk(v: Volume, lay: Layout, h: Handle, k: nat)
    requires Sound(v, lay) && FileOk(v, lay, h, k) && h.location == LOC_EOF && FreeCount(v.tags) > 0
    ensures var (w, g, status) := Grow(v, h);
            var c, f := FirstFree(v.tags), h.entry.file;
            && status == Success && c < SIZE && h.cluster < SIZE
            && var lay' := Extend(lay, f, c);
            && w.tags == LinkBehind(v.tags, h.cluster, c)
            && Sound(w, lay') && FileOk(w, lay', g, k + 1) && g.location == 0
            && ViewOf(v, lay, h, k) <= ViewOf(w, lay', g, k + 1)
            && g.abs == h.abs && g.entry == h.entry
            && FreeCount(w.tags) == FreeCount(v.tags) - 1
            && OthersKept(v, w, lay.chains[f], h.entry.parent)
            && Cluster(w, h.entry.parent) == Cluster(v, h.entry.parent)
  {
    var f := h.entry.file;
    var ch := lay.chains[f];
    GetFreeExact(v.tags, h.cluster, TAG_EOF);
    var c := FirstFree(v.tags);
    FreeAboveRoot(v, lay, c);
    GrowChain(v.tags, lay, f, c);
    LinkedCount(v.tags, lay, f, c);
    FileClusters(v, lay, f, k);
    var lay' := Extend(lay, f, c);
    var g := h.(tags := Tag(h.tags.prev, c));
    var u := v.(tags := LinkBehind(v.tags, h.cluster, c));
    assert SetTag(v.(tags := GetFree(v.tags, h.cluster, TAG_EOF).0), g.cluster, g.tags) == u;
    assert Sound(u, lay') && FileAt(u, lay', g, k);
    ViewPrefix(v.data, ch, c, k, h.buf);
    SaveOk(u, lay', g, k);
    FlatIsView(Save(u, g).0, lay', f, k);
    OpenOk(Save(u, g).0, lay', Save(u, g).1, k, k + 1);
    assert c !in ch && c != h.entry.parent;
    KeptWithout(u, Save(u, g).0, lay', f, k, g, c);
  }

  /** Linking in a free cluster uses up one. */
  lemma LinkedCount(tags: seq<Tag>, lay: Layout, f: nat, c: nat)
    requires Chained(tags, lay) && f in lay.chains && c < SIZE && tags[c] == FREE
    ensures var last := lay.chains[f][|lay.chains[f]| - 1];
            last < SIZE && c !in lay.chains[f] && FreeCount(LinkBehind(tags, last, c)) == FreeCount(tags) - 1
  {
    var ch := lay.chains[f];
    var last := ch[|ch| - 1];
    assert Slot(tags, lay, f, |ch| - 1);
    FreeIffUnplaced(tags, lay, last);
    FreeIffUnplaced(tags, lay, c);
    forall i | 0 <= i < |ch| ensures ch[i] != c {
      assert Slot(tags, lay, f, i);
    }
    assert |ch| > 1 ==> Slot(tags, lay, f, |ch| - 2);
    FreeCountUpdate(tags, c, Tag(last, TAG_EOF));
    FreeCountUpdate(tags[c := Tag(last, TAG_EOF)], last, Tag(tags[last].prev, c));
  }

  /** Saving cluster number `k`, not the new one, leaves the new one as it was. */
  lemma KeptWithout(u: Volume, w: Volume, lay: Layout, f: nat, k: nat, g: Handle, c: nat)
    requires w == Save(u, g).0 && f in lay.chains && k + 1 < |lay.chains[f]|
    requires g.cluster == lay.chains[f][k] && lay.chains[f] == lay.chains[f][..|lay.chains[f]| - 1] + [c]
    ensures OthersKept(u, w, lay.chains[f][..|lay.chains[f]| - 1], g.entry.parent)
  {
    var ch := lay.chains[f][..|lay.chains[f]| - 1];
    assert ch[k] == g.cluster;
  }

  // ---------- whole writes ----------

  /** `after` is `before` with `bytes` written at `pos`, possibly longer. */
  ghost predicate Overwritten(before: seq<Byte>, after: seq<Byte>, pos: nat, bytes: seq<Byte>) {
    && pos <= |before| <= |after| && pos + |bytes| <= |after|
    && (forall p :: 0 <= p < |bytes| ==> after[pos + p] == bytes[p])
    && (forall p :: 0 <= p < |before| && !(pos <= p < pos + |bytes|) ==> after[p] == before[p])
  }

  /** Clusters a file of this length needs. */
  function Clusters(length: nat): nat {
    (length + CLUSTER_SIZE - 1) / CLUSTER_SIZE
  }

  /** Only chain `f` is changed, and only by growing to what `length` bytes need. */
  ghost predicate Lengthened(chains: map<nat, seq<nat>>, chains': map<nat, seq<nat>>, f: nat, length: nat)
    requires f in chains
  {
    && f in chains' && chains' == chains[f := chains'[f]] && chains[f] <= chains'[f]
    && |chains'[f]| == Max(|chains[f]|, Clusters(length))
  }

  /** Growth of the chain, of the size and of the position by `n` bytes, paid for in free clusters. */
  ghost predicate Accounts(v: Volume, lay: Layout, h: Handle, n: nat, w: Volume, lay': Layout, g: Handle)
    requires h.entry.file in lay.chains
  {
    var f := h.entry.file;
    && Lengthened(lay.chains, lay'.chains, f, h.abs + n)
    && FreeCount(w.tags) + |lay'.chains[f]| == FreeCount(v.tags) + |lay.chains[f]|
    && g.abs == h.abs + n && g.entry == h.entry.(size := Grown(h.entry.size, h.abs, n))
  }

  /** What changes when `bytes` go into the file of handle `h`, and what does not. */
  ghost predicate Changed(v: Volume, lay: Layout, h: Handle, k: nat, bytes: seq<Byte>,
                          w: Volume, lay': Layout, g: Handle, k': nat)
    requires h.entry.file in lay.chains
  {
    && Accounts(v, lay, h, |bytes|, w, lay', g)
    && Overwritten(ViewOf(v, lay, h, k), ViewOf(w, lay', g, k'), h.abs, bytes)
    && OthersKept(v, w, lay'.chains[h.entry.file], h.entry.parent) && SlotsKept(v, w, h.entry.parent, h.entry.num)
  }

  /** What a write has done after `bytes` went in: everything but the status. */
  ghost predicate Written(v: Volume, lay: Layout, h: Handle, k: nat, bytes: seq<Byte>,
                          w: Volume, lay': Layout, g: Handle, k': nat)
    requires h.entry.file in lay.chains
  {
    Sound(w, lay') && FileOk(w, lay', g, k') && Changed(v, lay, h, k, bytes, w, lay', g, k')
  }

  lemma NothingWritten(v: Volume, lay: Layout, h: Handle, k: nat)
    requires Sound(v, lay) && FileOk(v, lay, h, k)
    ensures Written(v, lay, h, k, [], v, lay, h, k)
  {
    FileClusters(v, lay, h.entry.file, k);
    assert h.abs <= CLUSTER_SIZE * |lay.chains[h.entry.file]|;
  }

  lemma PokedOver(before: seq<Byte>, pos: nat, data: Byte, after: seq<Byte>, grown: seq<Byte>)
    requires pos <= |before| && before <= grown && pos < |grown| && after == grown[pos := data]
    ensures Overwritten(before, after, pos, [data])
  {}

  lemma StoreWritten(v: Volume, lay: Layout, h: Handle, k: nat, data: Byte) returns (k': nat)
    requires Sound(v, lay) && FileOk(v, lay, h, k) && h.location < CLUSTER_SIZE
    ensures var (w, g) := Store(v, h, data); Written(v, lay, h, k, [data], w, lay, g, k')
  {
    StoreOk(v, lay, h, k, data);
    var (w, g) := Store(v, h, data);
    var f := h.entry.file;
    k' := After(|lay.chains[f]|, k, h.location);
    PokedOver(ViewOf(v, lay, h, k), h.abs, data, ViewOf(w, lay, g, k'), ViewOf(v, lay, h, k));
    assert lay.chains == lay.chains[f := lay.chains[f]];
  }

  lemma GrowWritten(v: Volume, lay: Layout, h: Handle, k: nat, data: Byte) returns (lay': Layout, k': nat)
    requires Sound(v, lay) && FileOk(v, lay, h, k) && h.location == LOC_EOF && FreeCount(v.tags) > 0
    ensures Grow(v, h).2 == Success
    ensures var (u, m, _) := Grow(v, h);
            var (w, g) := Store(u, m, data);
            Written(v, lay, h, k, [data], w, lay', g, k')
  {
    var f := h.entry.file;
    GrowOk(v, lay, h, k);
    var (u, m, status) := Grow(v, h);
    lay' := Extend(lay, f, FirstFree(v.tags));
    k' := After(|lay'.chains[f]|, k + 1, 0);
    StoreOk(u, lay', m, k + 1, data);
    var (w, g) := Store(u, m, data);
    PokedOver(ViewOf(v, lay, h, k), h.abs, data, ViewOf(w, lay', g, k'), ViewOf(u, lay', m, k + 1));
    KeptTwice(v, u, w, lay.chains[f], lay'.chains[f], h.entry.parent);
  }

  lemma KeptTwice(v: Volume, u: Volume, w: Volume, ch: seq<nat>, ch': seq<nat>, parent: nat)
    requires OthersKept(v, u, ch, parent) && OthersKept(u, w, ch', parent) && ch <= ch'
    ensures OthersKept(v, w, ch', parent)
  {
    forall c | 0 <= c < |v.data| && c !in ch' && c != parent ensures w.data[c] == v.data[c] {
      assert c !in ch;
    }
  }

  /** One byte: stored in the buffer, after a new cluster is linked in if the file has no room. */
  lemma PutcOk(v: Volume, lay: Layout, h: Handle, k: nat, data: Byte) returns (lay': Layout, k': nat)
    requires Sound(v, lay) && FileOk(v, lay, h, k)
    ensures var (w, g, status) := Putc(v, h, data);
            if h.location == LOC_EOF && FreeCount(v.tags) == 0 then
              w == v && g == h && status == Eof && lay' == lay && k' == k
            else status == Success && Written(v, lay, h, k, [data], w, lay', g, k')
  {
    FileClusters(v, lay, h.entry.file, k);
    if h.location != LOC_EOF {
      lay' := lay;
      k' := StoreWritten(v, lay, h, k, data);
    } else if FreeCount(v.tags) == 0 {
      GetFreeExact(v.tags, h.cluster, TAG_EOF);
      lay', k' := lay, k;
    } else {
      lay', k' := GrowWritten(v, lay, h, k, data);
    }
  }

  lemma OverwrittenThen(a: seq<Byte>, b: seq<Byte>, c: seq<Byte>, pos: nat, x: Byte, rest: seq<Byte>)
    requires Overwritten(a, b, pos, [x]) && Overwritten(b, c, pos + 1, rest)
    ensures Overwritten(a, c, pos, [x] + rest)
  {
    assert [x][0] == x && b[pos + 0] == [x][0];
    forall p | 0 <= p < |rest| + 1 ensures c[pos + p] == ([x] + rest)[p] {
      assert p > 0 ==> c[pos + 1 + (p - 1)] == rest[p - 1];
    }
  }

  lemma LengthenedThen(a: map<nat, seq<nat>>, b: map<nat, seq<nat>>, c: map<nat, seq<nat>>, f: nat, m: nat, n: nat)
    requires f in a && Lengthened(a, b, f, m) && Lengthened(b, c, f, m + n)
    ensures Lengthened(a, c, f, m + n) && a[f] <= b[f] <= c[f]
  {
    assert Clusters(m) <= Clusters(m + n);
  }

  lemma SlotsKeptTwice(v: Volume, u: Volume, w: Volume, parent: nat, num: nat)
    requires SlotsKept(v, u, parent, num) && SlotsKept(u, w, parent, num)
    ensures SlotsKept(v, w, parent, num)
  {}

  lemma AccountsThen(v: Volume, lay: Layout, h: Handle, m: nat, u: Volume, lay1: Layout, x: Handle,
                     n: nat, w: Volume, lay2: Layout, g: Handle)
    requires h.entry.file in lay.chains && Accounts(v, lay, h, m, u, lay1, x) && Accounts(u, lay1, x, n, w, lay2, g)
    ensures Accounts(v, lay, h, m + n, w, lay2, g) && lay1.chains[h.entry.file] <= lay2.chains[h.entry.file]
  {
    LengthenedThen(lay.chains, lay1.chains, lay2.chains, h.entry.file, h.abs + m, n);
  }

  lemma ChangedThen(v: Volume, lay: Layout, h: Handle, k: nat, x: Byte, u: Volume, lay1: Layout, m: Handle, k1: nat,
                    rest: seq<Byte>, w: Volume, lay2: Layout, g: Handle, k2: nat)
    requires h.entry.file in lay.chains && Changed(v, lay, h, k, [x], u, lay1, m, k1)
    requires Changed(u, lay1, m, k1, rest, w, lay2, g, k2)
    ensures Changed(v, lay, h, k, [x] + rest, w, lay2, g, k2)
  {
    var f, parent := h.entry.file, h.entry.parent;
    AccountsThen(v, lay, h, 1, u, lay1, m, |rest|, w, lay2, g);
    OverwrittenThen(ViewOf(v, lay, h, k), ViewOf(u, lay1, m, k1), ViewOf(w, lay2, g, k2), h.abs, x, rest);
    KeptTwice(v, u, w, lay1.chains[f], lay2.chains[f], parent);
    SlotsKeptTwice(v, u, w, parent, h.entry.num);
  }

  /**
   A write puts in all its bytes, or as many as there is room for on the volume and then returns EOF
   with the volume full; either way the flat file is overwritten by what was put in, the chains stay
   sound, and nothing but the file's clusters and its directory slot is touched.
   */
  lemma {:induction false} WriteOk(v: Volume, lay: Layout, h: Handle, k: nat, bytes: seq<Byte>)
    returns (lay': Layout, k': nat, n: nat)
    requires Sound(v, lay) && FileOk(v, lay, h, k)
    ensures n <= |bytes|
    ensures var (w, g, status) := Write(v, h, bytes);
            && Written(v, lay, h, k, bytes[..n], w, lay', g, k')
            && status == (if n == |bytes| then Success else Eof)
            && (n < |bytes| ==> FreeCount(w.tags) == 0 && g.abs == CLUSTER_SIZE * |lay'.chains[h.entry.file]|)
    decreases |bytes|, 1
  {
    if bytes == [] {
      NothingWritten(v, lay, h, k);
      lay', k', n := lay, k, 0;
    } else {
      var (u, m, status) := Putc(v, h, bytes[0]);
      var lay1, k1 := PutcOk(v, lay, h, k, bytes[0]);
      if status == Success {
        lay', k', n := WriteRest(v, lay, h, k, bytes, u, lay1, m, k1);
      } else {
        NothingWritten(v, lay, h, k);
        lay', k', n := lay, k, 0;
      }
    }
  }

  lemma TakeCons(bytes: seq<Byte>, n: nat)
    requires n < |bytes|
    ensures bytes[..n + 1] == [bytes[0]] + bytes[1..][..n]
  {}

  lemma {:induction false} WriteRest(v: Volume, lay: Layout, h: Handle, k: nat, bytes: seq<Byte>,
                                     u: Volume, lay1: Layout, m: Handle, k1: nat)
    returns (lay': Layout, k': nat, n: nat)
    requires h.entry.file in lay.chains && InBuffer(m) && bytes != []
    requires Written(v, lay, h, k, [bytes[0]], u, lay1, m, k1)
    ensures 0 < n <= |bytes|
    ensures var (w, g, status) := Write(u, m, bytes[1..]);
            && Written(v, lay, h, k, bytes[..n], w, lay', g, k')
            && status == (if n == |bytes| then Success else Eof)
            && (n < |bytes| ==> FreeCount(w.tags) == 0 && g.abs == CLUSTER_SIZE * |lay'.chains[h.entry.file]|)
    decreases |bytes|, 0
  {
    var rest := bytes[1..];
    lay', k', n := WriteOk(u, lay1, m, k1, rest);
    var (w, g, _) := Write(u, m, rest);
    TakeCons(bytes, n);
    ChangedThen(v, lay, h, k, bytes[0], u, lay1, m, k1, rest[..n], w, lay', g, k');
    n := n + 1;
  }

  /** A write succeeds exactly when the free clusters cover what the file lacks. */
  lemma WriteSucceeds(v: Volume, lay: Layout, h: Handle, k: nat, bytes: seq<Byte>)
    requires Sound(v, lay) && FileOk(v, lay, h, k)
    ensures Write(v, h, bytes).2 == Success
            <==> Clusters(h.abs + |bytes|) <= |lay.chains[h.entry.file]| + FreeCount(v.tags)
  {
    var lay', k', n := WriteOk(v, lay, h, k, bytes);
  }

  /** The size covers what is put if and only if it covered the position before. */
  lemma WriteCovered(v: Volume, lay: Layout, h: Handle, k: nat, bytes: seq<Byte>)
    requires Sound(v, lay) && FileOk(v, lay, h, k)
    ensures var g := Write(v, h, bytes).1; g.abs <= g.entry.size <==> h.abs <= h.entry.size
  {
    var lay', k', n := WriteOk(v, lay, h, k, bytes);
  }

  // ---------- whole reads ----------

  /**
   The handle is at a byte of its file, or past the last one: there putc leaves the end-of-file mark, and
   getc a location one past the buffer.
   */
  ghost predicate ReadAt(v: Volume, lay: Layout, h: Handle, k: nat) {
    && FileAt(v, lay, h, k)
    && (h.location >= CLUSTER_SIZE ==> k + 1 == |lay.chains[h.entry.file]|)
    && (if h.location == LOC_EOF then h.abs == CLUSTER_SIZE * (k + 1)
        else h.location <= CLUSTER_SIZE && h.abs == CLUSTER_SIZE * k + h.location)
  }

  /** What reading leaves alone: the bytes of the file and everything else on the volume. */
  ghost predicate Unread(v: Volume, lay: Layout, h: Handle, k: nat, w: Volume, g: Handle, k': nat)
    requires h.entry.file in lay.chains
  {
    && w.tags == v.tags && g.entry == h.entry && ViewOf(w, lay, g, k') == ViewOf(v, lay, h, k)
    && OthersKept(v, w, lay.chains[h.entry.file], h.entry.parent)
    && Cluster(w, h.entry.parent) == Cluster(v, h.entry.parent)
    && (!h.dirty ==> !g.dirty && w == v)
  }

  /** Getting a byte yields the byte at the handle's position of the flat file and moves on by one. */
  lemma GotOk(v: Volume, lay: Layout, h: Handle, k: nat) returns (k': nat)
    requires Sound(v, lay) && ReadAt(v, lay, h, k) && h.location < CLUSTER_SIZE
    ensures h.abs < |ViewOf(v, lay, h, k)|
    ensures var (w, g, data, status) := Getc(v, h);
            && status == Success && data == ViewOf(v, lay, h, k)[h.abs] && g.abs == h.abs + 1
            && g.location != LOC_EOF && (g.location == CLUSTER_SIZE <==> g.abs == |ViewOf(v, lay, h, k)|)
            && Sound(w, lay) && ReadAt(w, lay, g, k') && Unread(v, lay, h, k, w, g, k')
  {
    var ch := lay.chains[h.entry.file];
    FileClusters(v, lay, h.entry.file, k);
    assert h.abs < CLUSTER_SIZE * |ch|;
    assert ViewOf(v, lay, h, k)[h.abs] == ByteAt(v.data, ch, k, h.buf, h.abs);
    k' := After(|ch|, k, h.location);
    var g := h.(location := h.location + 1, abs := h.abs + 1);
    assert FileAt(v, lay, g, k) && ViewOf(v, lay, g, k) == ViewOf(v, lay, h, k);
    if g.location == CLUSTER_SIZE {
      TurnOk(v, lay, g, k, CLUSTER_SIZE);
      var (w, x) := Turn(v, g, CLUSTER_SIZE);
      assert Getc(v, h) == (w, x, h.buf[h.location], Success);
    } else {
      assert Getc(v, h) == (v, g, h.buf[h.location], Success);
    }
  }

  /**
   Getc yields the byte at the handle's position of the flat file and moves on by one, or returns EOF and
   does nothing. It returns EOF exactly at the mark that putc leaves at the end of the last cluster.
   */
  lemma GetcOk(v: Volume, lay: Layout, h: Handle, k: nat) returns (k': nat)
    requires Sound(v, lay) && ReadAt(v, lay, h, k) && h.location != CLUSTER_SIZE
    ensures var (w, g, data, status) := Getc(v, h);
            if h.location == LOC_EOF then
              (w, g, data, status) == (v, h, 0, Eof) && h.abs == |ViewOf(v, lay, h, k)|
            else
              && status == Success && h.abs < |ViewOf(v, lay, h, k)| && data == ViewOf(v, lay, h, k)[h.abs]
              && g.abs == h.abs + 1 && g.location != LOC_EOF
              && Sound(w, lay) && ReadAt(w, lay, g, k') && Unread(v, lay, h, k, w, g, k')
  {
    FileClusters(v, lay, h.entry.file, k);
    k' := k;
    if h.location != LOC_EOF {
      k' := GotOk(v, lay, h, k);
    }
  }

  /** What reading past the last cluster comes to: EOF at the mark, else a byte from behind the buffer. */
  function PastEnd(h: Handle): Status {
    if h.location == LOC_EOF then Eof else Overrun
  }

  /** The bytes of `file` from `pos` on, `amount` of them if there are so many; else all, and status `last`. */
  ghost predicate Fetched(file: seq<Byte>, pos: nat, amount: nat, last: Status, bytes: seq<Byte>, status: Status) {
    && pos + |bytes| <= |file| && bytes == file[pos..pos + |bytes|]
    && status == (if pos + amount <= |file| then Success else last)
    && pos + |bytes| == (if pos + amount <= |file| then pos + amount else |file|)
  }

  lemma FetchedThen(file: seq<Byte>, pos: nat, amount: nat, last: Status, rest: seq<Byte>, status: Status)
    requires 0 < amount && pos < |file| && Fetched(file, pos + 1, amount - 1, last, rest, status)
    ensures Fetched(file, pos, amount, last, [file[pos]] + rest, status)
  {}

  /** A read that gets a byte goes on from there. */
  lemma ReadMore(v: Volume, h: Handle, amount: nat) returns (u: Volume, m: Handle)
    requires amount > 0 && InBuffer(h) && Getc(v, h).3 == Success
    ensures u == Getc(v, h).0 && m == Getc(v, h).1
    ensures Readable(m)
    ensures var r := Read(u, m, amount - 1);
            Read(v, h, amount) == (r.0, r.1, [Getc(v, h).2] + r.2, r.3)
  {
    u, m := Getc(v, h).0, Getc(v, h).1;
  }

  /** What a read comes to, of which nothing but the handle's place in the file has changed. */
  ghost predicate ReadDone(v: Volume, lay: Layout, h: Handle, k: nat, amount: nat,
                           r: (Volume, Handle, seq<Byte>, Status), k': nat)
    requires h.entry.file in lay.chains
  {
    && Sound(r.0, lay) && ReadAt(r.0, lay, r.1, k') && Unread(v, lay, h, k, r.0, r.1, k')
    && Fetched(ViewOf(v, lay, h, k), h.abs, amount, PastEnd(h), r.2, r.3)
  }

  lemma NothingFetched(v: Volume, lay: Layout, h: Handle, k: nat, amount: nat)
    requires Sound(v, lay) && ReadAt(v, lay, h, k) && (amount == 0 || h.location >= CLUSTER_SIZE)
    ensures ReadDone(v, lay, h, k, amount, Read(v, h, amount), k)
  {
    FileClusters(v, lay, h.entry.file, k);
    assert CLUSTER_SIZE * (k + 1) <= CLUSTER_SIZE * |lay.chains[h.entry.file]|;
    assert Read(v, h, amount) == (v, h, [], if amount == 0 then Success else PastEnd(h));
  }

  /**
   A read returns the bytes of the flat file from the handle's position on. It succeeds exactly when the
   clusters of the file hold that many. Otherwise it stops at the end of the last cluster: with EOF if
   the handle was there already, left by putc, else to fetch the next byte from behind the buffer.
   */
  lemma {:induction false} ReadOk(v: Volume, lay: Layout, h: Handle, k: nat, amount: nat) returns (k': nat)
    requires Sound(v, lay) && ReadAt(v, lay, h, k)
    ensures ReadDone(v, lay, h, k, amount, Read(v, h, amount), k')
    decreases amount
  {
    if amount == 0 || h.location >= CLUSTER_SIZE {
      NothingFetched(v, lay, h, k, amount);
      k' := k;
    } else {
      var k1 := GotOk(v, lay, h, k);
      var u, m := ReadMore(v, h, amount);
      k' := ReadOk(u, lay, m, k1, amount - 1);
      ReadThen(v, lay, h, k, amount, u, m, k1, Read(u, m, amount - 1), k');
    }
  }

  lemma ReadThen(v: Volume, lay: Layout, h: Handle, k: nat, amount: nat, u: Volume, m: Handle, k1: nat,
                 r: (Volume, Handle, seq<Byte>, Status), k2: nat)
    requires amount > 0 && h.entry.file in lay.chains && h.abs < |ViewOf(v, lay, h, k)| && m.abs == h.abs + 1
    requires h.location != LOC_EOF && m.location != LOC_EOF
    requires Unread(v, lay, h, k, u, m, k1) && ReadDone(u, lay, m, k1, amount - 1, r, k2)
    ensures ReadDone(v, lay, h, k, amount, (r.0, r.1, [ViewOf(v, lay, h, k)[h.abs]] + r.2, r.3), k2)
  {
    KeptTwice(v, u, r.0, lay.chains[h.entry.file], lay.chains[h.entry.file], h.entry.parent);
    FetchedThen(ViewOf(v, lay, h, k), h.abs, amount, Overrun, r.2, r.3);
  }

  /** The same end of the last cluster: after the last byte is put a read returns EOF, after it is got it does not. */
  lemma EndReached(v: Volume, lay: Layout, h: Handle, k: nat, data: Byte, amount: nat)
    requires Sound(v, lay) && FileOk(v, lay, h, k) && k + 1 == |lay.chains[h.entry.file]|
    requires h.location == CLUSTER_SIZE - 1 && amount > 0
    ensures var (w, g, _) := Putc(v, h, data);
            g.abs == h.abs + 1 && Read(w, g, amount) == (w, g, [], Eof)
    ensures var (w, g, _, _) := Getc(v, h);
            g.abs == h.abs + 1 && Read(w, g, amount) == (w, g, [], Overrun)
  {
    FileClusters(v, lay, h.entry.file, k);
    StoreOk(v, lay, h, k, data);
    var k' := GotOk(v, lay, h, k);
  }

  /** Getting the byte behind the last one of the file and putting the next leaves the size one short. */
  lemma PutPastSize(v: Volume, lay: Layout, h: Handle, k: nat, data: Byte)
    requires Sound(v, lay) && FileOk(v, lay, h, k) && h.abs == h.entry.size && h.location < CLUSTER_SIZE - 1
    ensures var (w, g, _, _) := Getc(v, h);
            var (x, m, status) := Putc(w, g, data);
            status == Success && m.abs == h.abs + 2 && m.entry.size == h.entry.size + 1
  {
    var k1 := GotOk(v, lay, h, k);
    var (w, g, _, _) := Getc(v, h);
    FileClusters(v, lay, h.entry.file, k);
    var lay', k' := PutcOk(w, lay, g, k1, data);
  }
}
