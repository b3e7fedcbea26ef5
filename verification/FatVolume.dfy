/**
 The FAT64 volume (src/drivers/fat64/fat64.c) as a table of cluster tags and the contents of the
 clusters: doubly linked chains, allocation of the first free cluster, growth and release of chains.
 */
module FatVolume {
  import opened Common

  const CLUSTER_SIZE: nat := 4096
  const SIZE: nat := 262144          // clusters on the partition
  const ROOT: nat := 1025            // first cluster after the tag table
  const TAG_EOF: nat := 0xFFFF_FFFF

  datatype Tag = Tag(prev: nat, next: nat)

  const FREE: Tag := Tag(0, 0)

  datatype Volume = Volume(tags: seq<Tag>, data: seq<seq<Byte>>)

  // ---------- chains ----------

  /** The chains by first cluster, and for each cluster its chain and its number in it. */
  datatype Layout = Layout(chains: map<nat, seq<nat>>, place: seq<Option<(nat, nat)>>)

  function At(ch: seq<nat>, i: int): nat {
    if 0 <= i < |ch| then ch[i] else TAG_EOF
  }

  /** Cluster number `i` of chain `h` is linked to its neighbours, the ends to EOF. */
  ghost predicate Slot(tags: seq<Tag>, lay: Layout, h: nat, i: nat)
    requires h in lay.chains && i < |lay.chains[h]|
  {
    var ch := lay.chains[h];
    && ch[i] < |tags| == |lay.place|
    && tags[ch[i]] == Tag(At(ch, i - 1), At(ch, i + 1))
    && lay.place[ch[i]] == Some((h, i))
  }

  /** A cluster is free, or is where its place says. */
  ghost predicate Placed(tags: seq<Tag>, lay: Layout, c: nat)
    requires c < |tags| == |lay.place|
  {
    match lay.place[c]
    case None => tags[c] == FREE
    case Some((h, i)) => h in lay.chains && i < |lay.chains[h]| && lay.chains[h][i] == c
  }

  ghost predicate Chained(tags: seq<Tag>, lay: Layout) {
    && |tags| == |lay.place| == SIZE
    && (forall h, i: nat :: h in lay.chains && i < |lay.chains[h]| ==> Slot(tags, lay, h, i))
    && (forall c: nat :: c < |tags| ==> Placed(tags, lay, c))
    && (forall h :: h in lay.chains ==> lay.chains[h] != [] && lay.chains[h][0] == h)
  }

  /** Chains are acyclic and pairwise disjoint: different places hold different clusters. */
  lemma ChainsDisjoint(tags: seq<Tag>, lay: Layout, h: nat, i: nat, g: nat, j: nat)
    requires Chained(tags, lay)
    requires h in lay.chains && g in lay.chains && i < |lay.chains[h]| && j < |lay.chains[g]|
    ensures lay.chains[h][i] == lay.chains[g][j] <==> h == g && i == j
  {
    assert Slot(tags, lay, h, i) && Slot(tags, lay, g, j);
  }

  /** Following next and then prev, or prev and then next, leads back. */
  lemma LinksInverse(tags: seq<Tag>, lay: Layout, h: nat, i: nat)
    requires Chained(tags, lay) && h in lay.chains && i < |lay.chains[h]|
    ensures var c := lay.chains[h][i];
            && c < SIZE
            && (tags[c].next != TAG_EOF ==> tags[c].next < SIZE && tags[tags[c].next].prev == c)
            && (tags[c].prev != TAG_EOF ==> tags[c].prev < SIZE && tags[tags[c].prev].next == c)
            && (tags[c].next == TAG_EOF <==> i == |lay.chains[h]| - 1)
            && (tags[c].prev == TAG_EOF <==> i == 0)
  {
    assert Slot(tags, lay, h, i);
    assert i > 0 ==> Slot(tags, lay, h, i - 1);
    assert i + 1 < |lay.chains[h]| ==> Slot(tags, lay, h, i + 1);
  }

  lemma {:induction false} DistinctBelow(s: seq<nat>, n: nat)
    requires forall i :: 0 <= i < |s| ==> s[i] < n
    requires forall i, j :: 0 <= i < j < |s| ==> s[i] != s[j]
    ensures |s| <= n
  {
    if s == [] {
    } else if i: int :| 0 <= i < |s| && s[i] == n - 1 {
      DistinctBelow(s[..i] + s[i + 1..], n - 1);
    } else {
      assert s[0] < n;
      DistinctBelow(s, n - 1);
    }
  }

  /** No chain is longer than the volume. */
  lemma ChainBound(tags: seq<Tag>, lay: Layout, h: nat)
    requires Chained(tags, lay) && h in lay.chains
    ensures |lay.chains[h]| <= SIZE
  {
    var ch := lay.chains[h];
    forall i | 0 <= i < |ch| ensures ch[i] < SIZE {
      assert Slot(tags, lay, h, i);
    }
    forall i, j | 0 <= i < j < |ch| ensures ch[i] != ch[j] {
      ChainsDisjoint(tags, lay, h, i, h, j);
    }
    DistinctBelow(ch, SIZE);
  }

  /** The non-free clusters are exactly those on some chain. */
  lemma FreeIffUnplaced(tags: seq<Tag>, lay: Layout, c: nat)
    requires Chained(tags, lay) && c < SIZE
    ensures tags[c] == FREE <==> lay.place[c] == None
    ensures tags[c] != FREE <==> exists h, i: nat :: h in lay.chains && i < |lay.chains[h]| && lay.chains[h][i] == c
  {
    assert Placed(tags, lay, c);
    if lay.place[c].Some? {
      var (h, i) := lay.place[c].value;
      assert Slot(tags, lay, h, i);
      assert i > 0 ==> Slot(tags, lay, h, i - 1);
      assert i + 1 < |lay.chains[h]| ==> Slot(tags, lay, h, i + 1);
    }
    forall h, i: nat | h in lay.chains && i < |lay.chains[h]| && lay.chains[h][i] == c
      ensures lay.place[c] == Some((h, i))
    {
      assert Slot(tags, lay, h, i);
    }
  }

  /** The table is determined by the chains. */
  lemma TagsDetermined(tags: seq<Tag>, lay: Layout, tags': seq<Tag>, lay': Layout)
    requires Chained(tags, lay) && Chained(tags', lay') && lay.chains == lay'.chains
    ensures tags == tags'
  {
    forall c: nat | c < SIZE ensures tags[c] == tags'[c] {
      assert Placed(tags, lay, c) && Placed(tags', lay', c);
      assert lay.place[c].Some? ==> var (h, i) := lay.place[c].value; Slot(tags, lay, h, i) && Slot(tags', lay', h, i);
      assert lay'.place[c].Some? ==> var (h, i) := lay'.place[c].value; Slot(tags, lay, h, i);
    }
  }

  /** Cluster number `i` of a chain is found by following the tags, whatever the layout. */
  lemma {:induction false} ChainFollowed(tags: seq<Tag>, lay: Layout, lay': Layout, h: nat, i: nat)
    requires Chained(tags, lay) && Chained(tags, lay') && h in lay.chains && i < |lay.chains[h]|
    ensures h in lay'.chains && i < |lay'.chains[h]| && lay'.chains[h][i] == lay.chains[h][i]
    decreases i
  {
    LinksInverse(tags, lay, h, i);
    if i == 0 {
      FreeIffUnplaced(tags, lay, h);
      FreeIffUnplaced(tags, lay', h);
      var g, j: nat :| g in lay'.chains && j < |lay'.chains[g]| && lay'.chains[g][j] == h;
      LinksInverse(tags, lay', g, j);
    } else {
      ChainFollowed(tags, lay, lay', h, i - 1);
      assert Slot(tags, lay, h, i - 1) && Slot(tags, lay', h, i - 1);
    }
  }

  /** The chains are determined by the table. */
  lemma ChainsDetermined(tags: seq<Tag>, lay: Layout, lay': Layout)
    requires Chained(tags, lay) && Chained(tags, lay')
    ensures lay.chains == lay'.chains
  {
    forall h | h in lay.chains ensures h in lay'.chains && lay'.chains[h] == lay.chains[h] {
      ChainContained(tags, lay, lay', h);
      ChainContained(tags, lay', lay, h);
    }
    forall h | h in lay'.chains ensures h in lay.chains {
      ChainContained(tags, lay', lay, h);
    }
  }

  lemma ChainContained(tags: seq<Tag>, lay: Layout, lay': Layout, h: nat)
    requires Chained(tags, lay) && Chained(tags, lay') && h in lay.chains
    ensures h in lay'.chains && lay.chains[h] <= lay'.chains[h]
  {
    ChainFollowed(tags, lay, lay', h, |lay.chains[h]| - 1);
    forall i | 0 <= i < |lay.chains[h]| ensures lay'.chains[h][i] == lay.chains[h][i] {
      ChainFollowed(tags, lay, lay', h, i);
    }
  }

  // ---------- allocation ----------

  /** The least free cluster, found tag by tag, or the table size. */
  function FirstFree(tags: seq<Tag>): (c: nat)
    ensures c <= |tags|
    ensures c < |tags| ==> tags[c] == FREE
    ensures forall j :: 0 <= j < c ==> tags[j] != FREE
  {
    if tags == [] || tags[0] == FREE then 0 else 1 + FirstFree(tags[1..])
  }

  /** Marks the first free cluster with the given links, or returns EOF. */
  function GetFree(tags: seq<Tag>, prev: nat, next: nat): (seq<Tag>, nat) {
    var c := FirstFree(tags);
    if c == |tags| then (tags, TAG_EOF) else (tags[c := Tag(prev, next)], c)
  }

  function FreeCount(tags: seq<Tag>): nat {
    if tags == [] then 0
    else FreeCount(tags[..|tags| - 1]) + if tags[|tags| - 1] == FREE then 1 else 0
  }

  lemma {:induction false} FreeCountUpdate(tags: seq<Tag>, c: nat, t: Tag)
    requires c < |tags|
    ensures FreeCount(tags[c := t]) + (if tags[c] == FREE then 1 else 0)
            == FreeCount(tags) + (if t == FREE then 1 else 0)
  {
    var n := |tags| - 1;
    if c == n {
      assert tags[c := t][..n] == tags[..n];
    } else {
      assert tags[c := t][..n] == tags[..n][c := t];
      FreeCountUpdate(tags[..n], c, t);
    }
  }

  lemma {:induction false} SomeFree(tags: seq<Tag>)
    ensures FreeCount(tags) > 0 <==> exists c :: 0 <= c < |tags| && tags[c] == FREE
  {
    if tags != [] {
      var n := |tags| - 1;
      SomeFree(tags[..n]);
      if FreeCount(tags[..n]) > 0 {
        var c :| 0 <= c < n && tags[..n][c] == FREE;
        assert tags[c] == FREE;
      }
      forall c | 0 <= c < n && tags[c] == FREE ensures FreeCount(tags[..n]) > 0 {
        assert tags[..n][c] == FREE;
      }
    }
  }

  /** Allocation succeeds exactly when a cluster is free, and takes the least one. */
  lemma GetFreeExact(tags: seq<Tag>, prev: nat, next: nat)
    requires |tags| == SIZE
    ensures var (tags', c) := GetFree(tags, prev, next);
            && (c == TAG_EOF <==> FreeCount(tags) == 0)
            && (c != TAG_EOF ==>
                  && c < SIZE && tags[c] == FREE && tags' == tags[c := Tag(prev, next)]
                  && forall j :: 0 <= j < c ==> tags[j] != FREE)
  {
    SomeFree(tags);
  }

  // ---------- the three changes a layout goes through ----------

  function AddChain(lay: Layout, c: nat): Layout
    requires c < |lay.place|
  {
    Layout(lay.chains[c := [c]], lay.place[c := Some((c, 0))])
  }

  /** A free cluster marked EOF at both ends is a new chain of one. */
  lemma NewChain(tags: seq<Tag>, lay: Layout, c: nat)
    requires Chained(tags, lay) && c < SIZE && tags[c] == FREE
    ensures c !in lay.chains
    ensures Chained(tags[c := Tag(TAG_EOF, TAG_EOF)], AddChain(lay, c))
  {
    var tags', lay' := tags[c := Tag(TAG_EOF, TAG_EOF)], AddChain(lay, c);
    FreeIffUnplaced(tags, lay, c);
    forall h | h in lay.chains ensures h != c {
      assert Slot(tags, lay, h, 0);
    }
    forall h, i: nat | h in lay'.chains && i < |lay'.chains[h]| ensures Slot(tags', lay', h, i) {
      assert h != c ==> Slot(tags, lay, h, i);
    }
    forall x: nat | x < SIZE ensures Placed(tags', lay', x) {
      assert Placed(tags, lay, x);
    }
  }

  function Extend(lay: Layout, h: nat, c: nat): Layout
    requires h in lay.chains && c < |lay.place|
  {
    Layout(lay.chains[h := lay.chains[h] + [c]], lay.place[c := Some((h, |lay.chains[h]|))])
  }

  /** The tags after linking free cluster `c` behind `last`. */
  function LinkBehind(tags: seq<Tag>, last: nat, c: nat): seq<Tag>
    requires last < |tags| && c < |tags|
  {
    tags[c := Tag(last, TAG_EOF)][last := Tag(tags[last].prev, c)]
  }

  lemma GrowChain(tags: seq<Tag>, lay: Layout, h: nat, c: nat)
    requires Chained(tags, lay) && h in lay.chains && c < SIZE && tags[c] == FREE
    ensures var last := lay.chains[h][|lay.chains[h]| - 1];
            last < SIZE && Chained(LinkBehind(tags, last, c), Extend(lay, h, c))
  {
    var ch := lay.chains[h];
    var n := |ch|;
    var last := ch[n - 1];
    assert Slot(tags, lay, h, n - 1);
    assert n > 1 ==> Slot(tags, lay, h, n - 2);
    FreeIffUnplaced(tags, lay, c);
    var tags', lay' := LinkBehind(tags, last, c), Extend(lay, h, c);
    forall g, i: nat | g in lay'.chains && i < |lay'.chains[g]| ensures Slot(tags', lay', g, i) {
      if g != h || i < n {
        assert Slot(tags, lay, g, i);
      }
    }
    forall x: nat | x < SIZE ensures Placed(tags', lay', x) {
      assert Placed(tags, lay, x);
    }
  }

  /** The tags with a whole chain marked free. */
  function FreeAll(tags: seq<Tag>, ch: seq<nat>): (r: seq<Tag>)
    ensures |r| == |tags|
    ensures forall c :: 0 <= c < |tags| ==> r[c] == if c in ch then FREE else tags[c]
  {
    seq(|tags|, c requires 0 <= c < |tags| => if c in ch then FREE else tags[c])
  }

  function DropChain(lay: Layout, h: nat): (r: Layout)
    requires h in lay.chains
    ensures |r.place| == |lay.place|
    ensures forall c :: 0 <= c < |lay.place| ==> r.place[c] == if c in lay.chains[h] then None else lay.place[c]
  {
    Layout(lay.chains - {h},
           seq(|lay.place|, c requires 0 <= c < |lay.place| => if c in lay.chains[h] then None else lay.place[c]))
  }

  lemma RemoveChain(tags: seq<Tag>, lay: Layout, h: nat)
    requires Chained(tags, lay) && h in lay.chains
    ensures Chained(FreeAll(tags, lay.chains[h]), DropChain(lay, h))
  {
    var ch := lay.chains[h];
    var tags', lay' := FreeAll(tags, ch), DropChain(lay, h);
    forall g, i: nat | g in lay'.chains && i < |lay'.chains[g]| ensures Slot(tags', lay', g, i) {
      assert Slot(tags, lay, g, i);
      OnOwnChain(tags, lay, h, g, i);
    }
    forall x: nat | x < SIZE ensures Placed(tags', lay', x) {
      assert Placed(tags, lay, x);
      if x !in ch && lay.place[x].Some? {
        var (g, i) := lay.place[x].value;
        assert g != h;
      }
    }
  }

  lemma OnOwnChain(tags: seq<Tag>, lay: Layout, h: nat, g: nat, i: nat)
    requires Chained(tags, lay) && h in lay.chains && g in lay.chains && i < |lay.chains[g]| && g != h
    ensures lay.chains[g][i] !in lay.chains[h]
  {
    forall j | 0 <= j < |lay.chains[h]| ensures lay.chains[h][j] != lay.chains[g][i] {
      ChainsDisjoint(tags, lay, h, j, g, i);
    }
  }

  /** Releasing a chain gives back exactly as many clusters as it has. */
  lemma {:induction false} FreeAllCount(tags: seq<Tag>, ch: seq<nat>)
    requires forall i :: 0 <= i < |ch| ==> ch[i] < |tags| && tags[ch[i]] != FREE
    requires forall i, j :: 0 <= i < j < |ch| ==> ch[i] != ch[j]
    ensures FreeCount(FreeAll(tags, ch)) == FreeCount(tags) + |ch|
    decreases |ch|
  {
    if ch == [] {
      assert FreeAll(tags, ch) == tags;
    } else {
      var n := |ch| - 1;
      FreeAllCount(tags, ch[..n]);
      var part := FreeAll(tags, ch[..n]);
      assert ch[n] !in ch[..n];
      assert ch == ch[..n] + [ch[n]];
      assert FreeAll(tags, ch) == part[ch[n] := FREE];
      FreeCountUpdate(part, ch[n], FREE);
    }
  }

  lemma RemoveChainCount(tags: seq<Tag>, lay: Layout, h: nat)
    requires Chained(tags, lay) && h in lay.chains
    ensures FreeCount(FreeAll(tags, lay.chains[h])) == FreeCount(tags) + |lay.chains[h]|
  {
    var ch := lay.chains[h];
    forall i | 0 <= i < |ch| ensures ch[i] < |tags| && tags[ch[i]] != FREE {
      assert Slot(tags, lay, h, i);
      FreeIffUnplaced(tags, lay, ch[i]);
    }
    forall i, j | 0 <= i < j < |ch| ensures ch[i] != ch[j] {
      ChainsDisjoint(tags, lay, h, i, h, j);
    }
    FreeAllCount(tags, ch);
  }
}
