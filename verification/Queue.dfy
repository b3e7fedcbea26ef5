/**
 The generic self-ordering queues (src/kernel/queue.c), seen as sequences of entries.
 Every queue draws its nodes from one fixed pool of which only the number of free nodes matters here.
 */
module QueueSpec {

  datatype Entry = Entry(data: nat, key: nat)

  /** The ordering and removal routines a queue can carry; the first of each is the null pointer. */
  datatype Compare = NoCompare | UintAsc
  datatype Remover = NoRemover | IfEqual | IfLeU

  datatype Queue = Queue(items: seq<Entry>, compare: Compare, remover: Remover)
  datatype Queues = Queues(all: seq<Queue>, avail: nat)
  datatype Status = Success | NoQnodes | Empty | NotFound

  // ---------- one queue ----------

  /** The removal predicate applied to a node's key and the key asked for. */
  predicate Matches(r: Remover, nodeKey: nat, key: nat) {
    match r
    case NoRemover => true
    case IfEqual => nodeKey == key
    case IfLeU => nodeKey <= key
  }

  /** Position of the first entry that matches, or the length. */
  function Find(items: seq<Entry>, r: Remover, key: nat): (i: nat)
    ensures i <= |items|
    ensures i < |items| ==> Matches(r, items[i].key, key)
    ensures forall j :: 0 <= j < i ==> !Matches(r, items[j].key, key)
  {
    if items == [] || Matches(r, items[0].key, key) then 0 else 1 + Find(items[1..], r, key)
  }

  /** Where an entry with this key goes: before the first entry with a greater key. */
  function Place(items: seq<Entry>, c: Compare, key: nat): (i: nat)
    ensures i <= |items|
    ensures c == NoCompare ==> i == |items|
    ensures c == UintAsc ==> (forall j :: 0 <= j < i ==> items[j].key <= key) && (i < |items| ==> items[i].key > key)
  {
    if items == [] then 0
    else if c == UintAsc && items[0].key > key then 0
    else 1 + Place(items[1..], c, key)
  }

  function InsertAt(items: seq<Entry>, i: nat, e: Entry): seq<Entry>
    requires i <= |items|
  {
    items[..i] + [e] + items[i..]
  }

  function RemoveAt(items: seq<Entry>, i: nat): seq<Entry>
    requires i < |items|
  {
    items[..i] + items[i + 1..]
  }

  function Insert(q: Queue, e: Entry): Queue {
    q.(items := InsertAt(q.items, Place(q.items, q.compare, e.key), e))
  }

  // ---------- the operations on all queues ----------

  function AppendTo(s: Queues, k: nat, e: Entry): (Queues, Status)
    requires k < |s.all|
  {
    if s.avail == 0 then (s, NoQnodes)
    else (Queues(s.all[k := s.all[k].(items := s.all[k].items + [e])], s.avail - 1), Success)
  }

  function InsertTo(s: Queues, k: nat, e: Entry): (Queues, Status)
    requires k < |s.all|
  {
    if s.avail == 0 then (s, NoQnodes)
    else (Queues(s.all[k := Insert(s.all[k], e)], s.avail - 1), Success)
  }

  function RemoveIndex(s: Queues, k: nat, i: nat): Queues
    requires k < |s.all| && i < |s.all[k].items|
  {
    Queues(s.all[k := s.all[k].(items := RemoveAt(s.all[k].items, i))], s.avail + 1)
  }

  /** The data is meaningful on success only. */
  function RemoveFrom(s: Queues, k: nat): (Queues, Status, nat)
    requires k < |s.all|
  {
    if s.all[k].items == [] then (s, Empty, 0)
    else (RemoveIndex(s, k, 0), Success, s.all[k].items[0].data)
  }

  function RemoveByKey(s: Queues, k: nat, key: nat): (Queues, Status, nat)
    requires k < |s.all|
  {
    var q := s.all[k];
    var i := Find(q.items, q.remover, key);
    if q.items == [] then (s, Empty, 0)
    else if i == |q.items| then (s, NotFound, 0)
    else (RemoveIndex(s, k, i), Success, q.items[i].data)
  }

  /**
   Keyed removal takes the head without a removal routine, the first entry with this key, or the first whose
   key is not past it; if there is none it changes nothing.
   */
  lemma KeyedRemoval(s: Queues, k: nat, key: nat)
    requires k < |s.all|
    ensures var items, (t, status, data) := s.all[k].items, RemoveByKey(s, k, key);
            && (status == Empty <==> items == [])
            && (status == NotFound <==> items != [] && forall i :: 0 <= i < |items| ==> !Accepts(s.all[k], i, key))
            && (status != Success ==> t == s)
            && (status == Success ==>
                  exists i :: 0 <= i < |items| && Accepts(s.all[k], i, key) && data == items[i].data
                    && t == Queues(s.all[k := s.all[k].(items := items[..i] + items[i + 1..])], s.avail + 1)
                    && forall j :: 0 <= j < i ==> !Accepts(s.all[k], j, key))
  {
    var i := Find(s.all[k].items, s.all[k].remover, key);
    assert i < |s.all[k].items| ==> Accepts(s.all[k], i, key);
  }

  predicate Accepts(q: Queue, i: nat, key: nat)
    requires i < |q.items|
  {
    match q.remover
    case NoRemover => true
    case IfEqual => q.items[i].key == key
    case IfLeU => q.items[i].key <= key
  }

  // ---------- self-ordering ----------

  ghost predicate Sorted(items: seq<Entry>) {
    forall i, j :: 0 <= i < j < |items| ==> items[i].key <= items[j].key
  }

  /** The entries with one key, in queue order. */
  function WithKey(items: seq<Entry>, key: nat): seq<Entry> {
    if items == [] then []
    else
      var before, last := WithKey(items[..|items| - 1], key), items[|items| - 1];
      if last.key == key then before + [last] else before
  }

  /** Insertion keeps a self-ordering queue sorted and puts the newcomer behind its equals. */
  lemma InsertIsStable(q: Queue, e: Entry, key: nat)
    requires q.compare == UintAsc && Sorted(q.items)
    ensures Sorted(Insert(q, e).items)
    ensures WithKey(Insert(q, e).items, key) == WithKey(q.items, key) + if e.key == key then [e] else []
  {
    var i := Place(q.items, q.compare, e.key);
    SplitSorted(q.items, i, e);
    InsertWithKey(q.items, i, e, key);
  }

  lemma SplitSorted(items: seq<Entry>, i: nat, e: Entry)
    requires Sorted(items) && i <= |items|
    requires forall j :: 0 <= j < i ==> items[j].key <= e.key
    requires i < |items| ==> items[i].key > e.key
    ensures Sorted(InsertAt(items, i, e))
    ensures forall j :: i <= j < |items| ==> items[j].key > e.key
  {}

  lemma {:induction false} InsertWithKey(items: seq<Entry>, i: nat, e: Entry, key: nat)
    requires i <= |items| && forall j :: i <= j < |items| ==> items[j].key > e.key
    ensures WithKey(InsertAt(items, i, e), key) == WithKey(items, key) + if e.key == key then [e] else []
    decreases |items|
  {
    var all := InsertAt(items, i, e);
    if i == |items| {
      assert all[..|all| - 1] == items;
    } else {
      var before := items[..|items| - 1];
      assert all[..|all| - 1] == InsertAt(before, i, e);
      assert all[|all| - 1] == items[|items| - 1];
      InsertWithKey(before, i, e, key);
    }
  }

  lemma InsertPermutes(q: Queue, e: Entry)
    ensures multiset(Insert(q, e).items) == multiset(q.items) + multiset{e}
  {
    var i := Place(q.items, q.compare, e.key);
    assert q.items == q.items[..i] + q.items[i..];
  }

  /** All arrivals inserted one after the other. */
  function InsertAll(q: Queue, arrivals: seq<Entry>): Queue {
    if arrivals == [] then q
    else Insert(InsertAll(q, arrivals[..|arrivals| - 1]), arrivals[|arrivals| - 1])
  }

  /** A self-ordering queue is a stable sort: sorted, and equal keys stay in order of arrival. */
  lemma {:induction false} InsertAllSortsStably(q: Queue, arrivals: seq<Entry>, key: nat)
    requires q.compare == UintAsc && q.items == []
    ensures var r := InsertAll(q, arrivals);
            && r.compare == UintAsc
            && Sorted(r.items)
            && WithKey(r.items, key) == WithKey(arrivals, key)
  {
    if arrivals != [] {
      var before, last := arrivals[..|arrivals| - 1], arrivals[|arrivals| - 1];
      InsertAllSortsStably(q, before, key);
      InsertIsStable(InsertAll(q, before), last, key);
    }
  }

  /** Nothing is lost or invented by the sorting. */
  lemma {:induction false} InsertAllPermutes(q: Queue, arrivals: seq<Entry>)
    ensures multiset(InsertAll(q, arrivals).items) == multiset(q.items) + multiset(arrivals)
  {
    if arrivals != [] {
      var before, last := arrivals[..|arrivals| - 1], arrivals[|arrivals| - 1];
      InsertAllPermutes(q, before);
      InsertPermutes(InsertAll(q, before), last);
      assert arrivals == before + [last];
    }
  }

  // ---------- conservation ----------

  function TotalItems(all: seq<Queue>): nat {
    if all == [] then 0 else |all[0].items| + TotalItems(all[1..])
  }

  lemma {:induction false} TotalUpdate(all: seq<Queue>, k: nat, q: Queue)
    requires k < |all|
    ensures TotalItems(all[k := q]) + |all[k].items| == TotalItems(all) + |q.items|
  {
    if k == 0 {
      assert all[k := q][1..] == all[1..];
    } else {
      assert all[k := q][1..] == all[1..][k - 1 := q];
      TotalUpdate(all[1..], k - 1, q);
    }
  }

  /** Free nodes plus queued entries stay constant under every operation. */
  lemma NodesConserved(s: Queues, k: nat, e: Entry)
    requires k < |s.all|
    ensures var total := s.avail + TotalItems(s.all);
            && (var s' := AppendTo(s, k, e).0; s'.avail + TotalItems(s'.all) == total)
            && (var s' := InsertTo(s, k, e).0; s'.avail + TotalItems(s'.all) == total)
            && (var s' := RemoveFrom(s, k).0; s'.avail + TotalItems(s'.all) == total)
            && (var s' := RemoveByKey(s, k, e.key).0; s'.avail + TotalItems(s'.all) == total)
  {
    TotalUpdate(s.all, k, s.all[k].(items := s.all[k].items + [e]));
    TotalUpdate(s.all, k, Insert(s.all[k], e));
    if s.all[k].items != [] {
      TotalUpdate(s.all, k, s.all[k].(items := RemoveAt(s.all[k].items, 0)));
      var i := Find(s.all[k].items, s.all[k].remover, e.key);
      if i < |s.all[k].items| {
        TotalUpdate(s.all, k, s.all[k].(items := RemoveAt(s.all[k].items, i)));
      }
    }
  }
}

/** The linked lists themselves: nodes in one shared array, relinked in place. */
module KernelQueue {
  import opened QueueSpec

  const NULL: int := -1
  const POOL: int := -1    // owner of the nodes on the free list
  const HELD: int := -2    // owner of a node between allocation and linking

  /** A qnode; `prev` and `next` are node numbers or NULL. */
  datatype Node = Node(key: nat, data: nat, prev: int, next: int)

  datatype Header = Header(compare: Compare, remover: Remover, length: nat, head: int, tail: int)

  /** Node number `i` of a chain, NULL off either end. */
  function At(c: seq<nat>, i: int): int {
    if 0 <= i < |c| then c[i] else NULL
  }

  ghost predicate Linked(ns: seq<Node>, c: seq<nat>, i: nat)
    requires i < |c|
  {
    c[i] < |ns| && ns[c[i]].prev == At(c, i - 1) && ns[c[i]].next == At(c, i + 1)
  }

  ghost predicate Differ(c: seq<nat>, i: nat, j: nat)
    requires i < j < |c|
  {
    c[i] != c[j]
  }

  ghost predicate Distinct(c: seq<nat>) {
    forall i, j :: 0 <= i < j < |c| ==> Differ(c, i, j)
  }

  ghost predicate OwnedBy(owner: seq<int>, c: seq<nat>, i: nat, k: int)
    requires i < |c|
  {
    c[i] < |owner| && owner[c[i]] == k
  }

  ghost predicate Chain(ns: seq<Node>, owner: seq<int>, c: seq<nat>, k: int) {
    && Distinct(c)
    && (forall i :: 0 <= i < |c| ==> Linked(ns, c, i))
    && (forall i :: 0 <= i < |c| ==> OwnedBy(owner, c, i, k))
  }

  ghost predicate HeaderOf(h: Header, c: seq<nat>) {
    h.length == |c| && h.head == At(c, 0) && h.tail == At(c, |c| - 1)
  }

  ghost predicate PoolLinked(ns: seq<Node>, pool: seq<nat>, i: nat)
    requires i < |pool|
  {
    pool[i] < |ns| && ns[pool[i]].next == At(pool, i + 1)
  }

  ghost predicate PoolChain(ns: seq<Node>, owner: seq<int>, pool: seq<nat>) {
    && Distinct(pool)
    && (forall i :: 0 <= i < |pool| ==> PoolLinked(ns, pool, i))
    && (forall i :: 0 <= i < |pool| ==> OwnedBy(owner, pool, i, POOL))
  }

  function ItemOf(n: Node): Entry {
    Entry(n.data, n.key)
  }

  function ItemAt(ns: seq<Node>, x: nat): Entry {
    if x < |ns| then ItemOf(ns[x]) else Entry(0, 0)
  }

  ghost function ItemsOf(ns: seq<Node>, c: seq<nat>): (s: seq<Entry>)
    ensures |s| == |c|
    ensures forall i :: 0 <= i < |c| ==> s[i] == ItemAt(ns, c[i])
  {
    seq(|c|, i requires 0 <= i < |c| => ItemAt(ns, c[i]))
  }

  // ---------- relinking ----------

  /** Nodes of other owners than `k`, node `x` apart, are as they were. */
  ghost predicate KeptBut(ns: seq<Node>, ns': seq<Node>, owner: seq<int>, k: int, x: int) {
    && |ns| == |ns'| == |owner|
    && forall n :: 0 <= n < |ns| && owner[n] != k && n != x ==> ns'[n] == ns[n]
  }

  function LinkNode(ns: seq<Node>, x: nat, n: Node): seq<Node>
    requires x < |ns| && -1 <= n.prev < |ns| && -1 <= n.next < |ns|
  {
    var a := ns[x := n];
    var b := if n.prev == NULL then a else a[n.prev := a[n.prev].(next := x)];
    if n.next == NULL then b else b[n.next := b[n.next].(prev := x)]
  }

  function UnlinkNode(ns: seq<Node>, x: nat): seq<Node>
    requires x < |ns| && -1 <= ns[x].prev < |ns| && -1 <= ns[x].next < |ns|
  {
    var n := ns[x];
    var b := if n.prev == NULL then ns else ns[n.prev := ns[n.prev].(next := n.next)];
    if n.next == NULL then b else b[n.next := b[n.next].(prev := n.prev)]
  }

  /** Linking a held node in as number `p` of a chain inserts its entry there. */
  lemma LinkInChain(ns: seq<Node>, owner: seq<int>, c: seq<nat>, k: nat, p: nat, x: nat, n: Node)
    requires Chain(ns, owner, c, k) && p <= |c| && |owner| == |ns|
    requires x < |ns| && owner[x] == HELD
    requires n.prev == At(c, p - 1) && n.next == At(c, p)
    ensures p < |c| ==> Linked(ns, c, p)
    ensures p > 0 ==> Linked(ns, c, p - 1)
    ensures KeptBut(ns, LinkNode(ns, x, n), owner, k, x)
    ensures var c' := c[..p] + [x] + c[p..];
            var ns' := LinkNode(ns, x, n);
            && Chain(ns', owner[x := k], c', k)
            && ItemsOf(ns', c') == InsertAt(ItemsOf(ns, c), p, ItemOf(n))
  {
    assert p < |c| ==> Linked(ns, c, p) && OwnedBy(owner, c, p, k);
    assert p > 0 ==> Linked(ns, c, p - 1) && OwnedBy(owner, c, p - 1, k);
    assert 0 < p < |c| ==> Differ(c, p - 1, p);
    var c' := c[..p] + [x] + c[p..];
    var ns', owner' := LinkNode(ns, x, n), owner[x := k];
    assert c'[p] == x;
    forall i | 0 <= i < |c'| ensures Linked(ns', c', i) && OwnedBy(owner', c', i, k) {
      if i != p {
        var j := if i < p then i else i - 1;
        assert c'[i] == c[j];
        assert Linked(ns, c, j) && OwnedBy(owner, c, j, k);
        assert 0 <= j < p - 1 ==> Differ(c, j, p - 1);
        assert 0 <= p - 1 < j ==> Differ(c, p - 1, j);
        assert j < p < |c| ==> Differ(c, j, p);
        assert p < j ==> Differ(c, p, j);
      }
    }
    forall i, j | 0 <= i < j < |c'| ensures Differ(c', i, j) {
      assert i != p ==> OwnedBy(owner, c, if i < p then i else i - 1, k);
      assert j != p ==> OwnedBy(owner, c, if j < p then j else j - 1, k);
      assert i != p && j != p ==> Differ(c, if i < p then i else i - 1, if j < p then j else j - 1);
    }
    LinkItems(ns, owner, c, k, p, x, n);
  }

  lemma LinkItems(ns: seq<Node>, owner: seq<int>, c: seq<nat>, k: nat, p: nat, x: nat, n: Node)
    requires Chain(ns, owner, c, k) && p <= |c| && |owner| == |ns|
    requires x < |ns| && owner[x] == HELD
    requires n.prev == At(c, p - 1) && n.next == At(c, p)
    requires -1 <= n.prev < |ns| && -1 <= n.next < |ns|
    ensures var c' := c[..p] + [x] + c[p..];
            ItemsOf(LinkNode(ns, x, n), c') == InsertAt(ItemsOf(ns, c), p, ItemOf(n))
  {
    forall i | 0 <= i < |c| ensures c[i] < |ns| && c[i] != x {
      assert Linked(ns, c, i) && OwnedBy(owner, c, i, k);
    }
    assert p > 0 ==> c[p - 1] != x;
    assert p < |c| ==> c[p] != x;
  }

  /** A node's neighbours are properly linked nodes of the same chain, all different. */
  lemma Neighbours(ns: seq<Node>, owner: seq<int>, c: seq<nat>, k: int, p: nat)
    requires Chain(ns, owner, c, k) && p < |c| && |owner| == |ns|
    ensures Linked(ns, c, p) && OwnedBy(owner, c, p, k)
    ensures p > 0 ==> Linked(ns, c, p - 1) && OwnedBy(owner, c, p - 1, k) && c[p - 1] != c[p]
    ensures p + 1 < |c| ==> Linked(ns, c, p + 1) && OwnedBy(owner, c, p + 1, k) && c[p] != c[p + 1]
    ensures 0 < p < |c| - 1 ==> c[p - 1] != c[p + 1]
  {
    assert p > 0 ==> Differ(c, p - 1, p);
    assert p + 1 < |c| ==> Differ(c, p, p + 1);
    assert 0 < p < |c| - 1 ==> Differ(c, p - 1, p + 1);
  }

  lemma UnlinkedChain(ns: seq<Node>, owner: seq<int>, c: seq<nat>, k: int, p: nat)
    requires Chain(ns, owner, c, k) && p < |c| && |owner| == |ns|
    ensures c[p] < |ns| && -1 <= ns[c[p]].prev < |ns| && -1 <= ns[c[p]].next < |ns|
    ensures Chain(UnlinkNode(ns, c[p]), owner[c[p] := HELD], c[..p] + c[p + 1..], k)
  {
    Neighbours(ns, owner, c, k, p);
    var c' := c[..p] + c[p + 1..];
    var ns', owner' := UnlinkNode(ns, c[p]), owner[c[p] := HELD];
    forall i | 0 <= i < |c'| ensures Linked(ns', c', i) && OwnedBy(owner', c', i, k) {
      UnlinkOther(ns, owner, c, k, p, if i < p then i else i + 1);
    }
    forall i, j | 0 <= i < j < |c'| ensures Differ(c', i, j) {
      assert Differ(c, if i < p then i else i + 1, if j < p then j else j + 1);
    }
  }

  /** Unlinking node number `p` removes its entry. */
  lemma UnlinkInChain(ns: seq<Node>, owner: seq<int>, c: seq<nat>, k: int, p: nat)
    requires Chain(ns, owner, c, k) && p < |c| && |owner| == |ns|
    ensures Linked(ns, c, p) && (p > 0 ==> Linked(ns, c, p - 1)) && (p + 1 < |c| ==> Linked(ns, c, p + 1))
    ensures KeptBut(ns, UnlinkNode(ns, c[p]), owner, k, c[p])
    ensures var c' := c[..p] + c[p + 1..];
            var ns' := UnlinkNode(ns, c[p]);
            && Chain(ns', owner[c[p] := HELD], c', k)
            && ns'[c[p]].data == ns[c[p]].data
            && ItemsOf(ns', c') == RemoveAt(ItemsOf(ns, c), p)
  {
    Neighbours(ns, owner, c, k, p);
    UnlinkedChain(ns, owner, c, k, p);
    UnlinkItems(ns, c, p);
    UnlinkKept(ns, owner, c[p], k);
  }

  lemma UnlinkKept(ns: seq<Node>, owner: seq<int>, x: nat, k: int)
    requires x < |ns| == |owner| && -1 <= ns[x].prev < |ns| && -1 <= ns[x].next < |ns|
    requires ns[x].prev != NULL ==> owner[ns[x].prev] == k
    requires ns[x].next != NULL ==> owner[ns[x].next] == k
    ensures KeptBut(ns, UnlinkNode(ns, x), owner, k, x)
  {}

  lemma UnlinkItems(ns: seq<Node>, c: seq<nat>, p: nat)
    requires p < |c| && c[p] < |ns| && -1 <= ns[c[p]].prev < |ns| && -1 <= ns[c[p]].next < |ns|
    ensures ItemsOf(UnlinkNode(ns, c[p]), c[..p] + c[p + 1..]) == RemoveAt(ItemsOf(ns, c), p)
  {
    var ns' := UnlinkNode(ns, c[p]);
    forall x: nat ensures ItemAt(ns', x) == ItemAt(ns, x) {}
  }

  /** Any other node `j` of the chain keeps its neighbours, node `p` left out. */
  lemma UnlinkOther(ns: seq<Node>, owner: seq<int>, c: seq<nat>, k: int, p: nat, j: nat)
    requires Chain(ns, owner, c, k) && p < |c| && j < |c| && j != p && |owner| == |ns|
    ensures Linked(ns, c, p) && (p > 0 ==> Linked(ns, c, p - 1)) && (p + 1 < |c| ==> Linked(ns, c, p + 1))
    ensures OwnedBy(owner[c[p] := HELD], c, j, k)
    ensures var ns' := UnlinkNode(ns, c[p]);
            && ns'[c[j]].prev == At(c, if j == p + 1 then p - 1 else j - 1)
            && ns'[c[j]].next == At(c, if j == p - 1 then p + 1 else j + 1)
  {
    Neighbours(ns, owner, c, k, p);
    assert Linked(ns, c, j) && OwnedBy(owner, c, j, k);
    assert j < p ==> Differ(c, j, p);
    assert p < j ==> Differ(c, p, j);
    assert j < p - 1 ==> Differ(c, j, p - 1);
    assert 0 <= p - 1 < j ==> Differ(c, p - 1, j);
    assert j < p + 1 < |c| ==> Differ(c, j, p + 1);
    assert p + 1 < j ==> Differ(c, p + 1, j);
  }

  // ---------- all queues together ----------

  ghost predicate QueueOk(ns: seq<Node>, owner: seq<int>, qs: seq<Header>, chains: seq<seq<nat>>, k: nat)
    requires k < |qs| == |chains|
  {
    Chain(ns, owner, chains[k], k) && HeaderOf(qs[k], chains[k])
  }

  /** The nodes, headers and free list represent the queues whose node numbers are `chains`. */
  ghost predicate Rep(ns: seq<Node>, qs: seq<Header>, avail: int, pool: seq<nat>, chains: seq<seq<nat>>,
                      owner: seq<int>)
  {
    && |qs| == |chains| && |owner| == |ns|
    && PoolChain(ns, owner, pool) && avail == At(pool, 0)
    && forall k :: 0 <= k < |qs| ==> QueueOk(ns, owner, qs, chains, k)
  }

  ghost function QueueOf(ns: seq<Node>, h: Header, c: seq<nat>): Queue {
    Queue(ItemsOf(ns, c), h.compare, h.remover)
  }

  ghost function Abstract(ns: seq<Node>, qs: seq<Header>, pool: seq<nat>, chains: seq<seq<nat>>): (s: Queues)
    requires |qs| == |chains|
    ensures |s.all| == |qs| && s.avail == |pool|
    ensures forall k :: 0 <= k < |qs| ==> s.all[k] == QueueOf(ns, qs[k], chains[k])
  {
    Queues(seq(|qs|, k requires 0 <= k < |qs| => QueueOf(ns, qs[k], chains[k])), |pool|)
  }

  lemma ChainKept(ns: seq<Node>, ns': seq<Node>, owner: seq<int>, owner': seq<int>, c: seq<nat>, j: int, k: int, x: nat)
    requires Chain(ns, owner, c, j) && j != k && x < |owner| && owner[x] != j
    requires KeptBut(ns, ns', owner, k, x)
    requires |owner'| == |owner| && forall n :: 0 <= n < |owner| && n != x ==> owner'[n] == owner[n]
    ensures Chain(ns', owner', c, j) && ItemsOf(ns', c) == ItemsOf(ns, c)
  {
    forall i | 0 <= i < |c|
      ensures Linked(ns', c, i) && OwnedBy(owner', c, i, j) && ItemAt(ns', c[i]) == ItemAt(ns, c[i])
    {
      assert Linked(ns, c, i) && OwnedBy(owner, c, i, j);
    }
  }

  lemma PoolKept(ns: seq<Node>, ns': seq<Node>, owner: seq<int>, owner': seq<int>, pool: seq<nat>, k: nat, x: nat)
    requires PoolChain(ns, owner, pool) && x < |owner| && owner[x] != POOL
    requires KeptBut(ns, ns', owner, k, x)
    requires |owner'| == |owner| && forall n :: 0 <= n < |owner| && n != x ==> owner'[n] == owner[n]
    ensures PoolChain(ns', owner', pool)
  {
    forall i | 0 <= i < |pool| ensures PoolLinked(ns', pool, i) && OwnedBy(owner', pool, i, POOL) {
      assert PoolLinked(ns, pool, i) && OwnedBy(owner, pool, i, POOL);
    }
  }

  /** Relinking queue `k` alone, through node `x`, changes the abstract state at `k` alone. */
  lemma RelinkOne(ns: seq<Node>, qs: seq<Header>, avail: int, pool: seq<nat>, chains: seq<seq<nat>>, owner: seq<int>,
                  k: nat, ns': seq<Node>, h: Header, c: seq<nat>, x: nat, to: int)
    requires Rep(ns, qs, avail, pool, chains, owner) && k < |qs|
    requires KeptBut(ns, ns', owner, k, x)
    requires x < |ns| && (owner[x] == HELD || owner[x] == k) && (to == HELD || to == k)
    requires Chain(ns', owner[x := to], c, k) && HeaderOf(h, c)
    ensures Rep(ns', qs[k := h], avail, pool, chains[k := c], owner[x := to])
    ensures Abstract(ns', qs[k := h], pool, chains[k := c])
            == Abstract(ns, qs, pool, chains).(all := Abstract(ns, qs, pool, chains).all[k := QueueOf(ns', h, c)])
  {
    var owner', qs', chains' := owner[x := to], qs[k := h], chains[k := c];
    PoolKept(ns, ns', owner, owner', pool, k, x);
    forall j | 0 <= j < |qs| ensures QueueOk(ns', owner', qs', chains', j) {
      assert QueueOk(ns, owner, qs, chains, j);
      if j != k {
        ChainKept(ns, ns', owner, owner', chains[j], j, k, x);
      }
    }
    forall j | 0 <= j < |qs| && j != k ensures ItemsOf(ns', chains[j]) == ItemsOf(ns, chains[j]) {
      assert QueueOk(ns, owner, qs, chains, j);
      ChainKept(ns, ns', owner, owner', chains[j], j, k, x);
    }
  }

  /** Linking held node `x` in at place `p` of queue `k`, seen from outside. */
  lemma LinkOne(ns: seq<Node>, qs: seq<Header>, avail: int, pool: seq<nat>, chains: seq<seq<nat>>, owner: seq<int>,
                k: nat, p: nat, x: nat, n: Node, h: Header)
    requires Rep(ns, qs, avail, pool, chains, owner) && k < |qs| && p <= |chains[k]|
    requires x < |ns| && owner[x] == HELD
    requires n.prev == At(chains[k], p - 1) && n.next == At(chains[k], p)
    requires h.compare == qs[k].compare && h.remover == qs[k].remover
    requires HeaderOf(h, chains[k][..p] + [x] + chains[k][p..])
    ensures -1 <= n.prev < |ns| && -1 <= n.next < |ns|
    ensures var chains' := chains[k := chains[k][..p] + [x] + chains[k][p..]];
            var ns', s := LinkNode(ns, x, n), Abstract(ns, qs, pool, chains);
            && Rep(ns', qs[k := h], avail, pool, chains', owner[x := k])
            && Abstract(ns', qs[k := h], pool, chains')
               == s.(all := s.all[k := s.all[k].(items := InsertAt(s.all[k].items, p, ItemOf(n)))])
  {
    assert QueueOk(ns, owner, qs, chains, k);
    LinkInChain(ns, owner, chains[k], k, p, x, n);
    RelinkOne(ns, qs, avail, pool, chains, owner, k, LinkNode(ns, x, n), h,
              chains[k][..p] + [x] + chains[k][p..], x, k);
  }

  /** Linking a node behind the last one. */
  lemma LinkLast(ns: seq<Node>, qs: seq<Header>, avail: int, pool: seq<nat>, chains: seq<seq<nat>>, owner: seq<int>,
                 k: nat, x: nat, n: Node, h: Header)
    requires Rep(ns, qs, avail, pool, chains, owner) && k < |qs|
    requires x < |ns| && owner[x] == HELD
    requires n.prev == At(chains[k], |chains[k]| - 1) && n.next == NULL
    requires h.compare == qs[k].compare && h.remover == qs[k].remover
    requires HeaderOf(h, chains[k] + [x])
    ensures -1 <= n.prev < |ns|
    ensures var chains' := chains[k := chains[k] + [x]];
            var ns', s := LinkNode(ns, x, n), Abstract(ns, qs, pool, chains);
            && Rep(ns', qs[k := h], avail, pool, chains', owner[x := k])
            && Abstract(ns', qs[k := h], pool, chains')
               == s.(all := s.all[k := s.all[k].(items := s.all[k].items + [ItemOf(n)])])
  {
    var c := chains[k];
    assert c[..|c|] + [x] + c[|c|..] == c + [x];
    LinkOne(ns, qs, avail, pool, chains, owner, k, |c|, x, n, h);
    AppendIsInsertAt(Abstract(ns, qs, pool, chains).all[k].items, ItemOf(n));
  }

  /** Unlinking the node at place `p` of queue `k`, seen from outside. */
  lemma UnlinkOne(ns: seq<Node>, qs: seq<Header>, avail: int, pool: seq<nat>, chains: seq<seq<nat>>, owner: seq<int>,
                  k: nat, p: nat, h: Header)
    requires Rep(ns, qs, avail, pool, chains, owner) && k < |qs| && p < |chains[k]|
    requires h.compare == qs[k].compare && h.remover == qs[k].remover
    requires HeaderOf(h, chains[k][..p] + chains[k][p + 1..])
    ensures var x := chains[k][p];
            && x < |ns| && -1 <= ns[x].prev < |ns| && -1 <= ns[x].next < |ns|
            && UnlinkNode(ns, x)[x].data == ns[x].data
    ensures var chains' := chains[k := chains[k][..p] + chains[k][p + 1..]];
            var x := chains[k][p];
            var ns', s := UnlinkNode(ns, x), Abstract(ns, qs, pool, chains);
            && Rep(ns', qs[k := h], avail, pool, chains', owner[x := HELD])
            && Abstract(ns', qs[k := h], pool, chains')
               == s.(all := s.all[k := s.all[k].(items := RemoveAt(s.all[k].items, p))])
  {
    var c := chains[k];
    assert QueueOk(ns, owner, qs, chains, k);
    Neighbours(ns, owner, c, k, p);
    UnlinkInChain(ns, owner, c, k, p);
    RelinkOne(ns, qs, avail, pool, chains, owner, k, UnlinkNode(ns, c[p]), h, c[..p] + c[p + 1..], c[p], HELD);
  }

  class QueueModule {
    const nodes: array<Node>
    const queues: array<Header>
    var avail: int
    ghost var pool: seq<nat>
    ghost var chains: seq<seq<nat>>
    ghost var owner: seq<int>

    ghost predicate Valid()
      reads this, nodes, queues
    {
      Rep(nodes[..], queues[..], avail, pool, chains, owner)
    }

    ghost function Abs(): Queues
      reads this, nodes, queues
      requires Valid()
    {
      Abstract(nodes[..], queues[..], pool, chains)
    }

    /** Every node starts on the free list and every queue empty. */
    constructor (nNodes: nat, routines: seq<(Compare, Remover)>)
      ensures Valid() && fresh(nodes) && fresh(queues)
      ensures Abs() == Queues(seq(|routines|, k requires 0 <= k < |routines| =>
                                    Queue([], routines[k].0, routines[k].1)), nNodes)
    {
      nodes := new Node[nNodes](i => Node(0, 0, NULL, NULL));
      queues := new Header[|routines|](k requires 0 <= k < |routines| =>
        Header(routines[k].0, routines[k].1, 0, NULL, NULL));
      avail := NULL;
      pool, chains := [], seq(|routines|, k => []);
      owner := seq(nNodes, i => HELD);
      new;
      forall k | 0 <= k < |routines| ensures QueueOk(nodes[..], owner, queues[..], chains, k) {
        assert chains[k] == [];
      }
      var i := 0;
      while i < nodes.Length
        invariant 0 <= i <= nodes.Length == |owner|
        invariant |pool| == i && Valid()
        invariant forall n :: i <= n < nodes.Length ==> owner[n] == HELD
        invariant chains == seq(|routines|, k => [])
        modifies `avail, `pool, `owner, nodes
      {
        AddFirst(nodes[..], queues[..], avail, pool, chains, owner, i);
        nodes[i] := nodes[i].(next := avail);
        avail := i;
        pool, owner := [i as nat] + pool, owner[i := POOL];
        i := i + 1;
      }
    }

    /** Takes the first free node, if there is one. */
    method QnodeAlloc() returns (status: Status, x: int)
      requires Valid()
      modifies `avail, `pool, `owner
      ensures Valid()
      ensures if old(pool) == [] then
                status == NoQnodes && pool == [] && owner == old(owner)
              else
                && status == Success && x == old(pool)[0] < nodes.Length && pool == old(pool)[1..]
                && owner == old(owner)[x := HELD]
      ensures Abs() == old(Abs()).(avail := |pool|)
    {
      if avail == NULL {
        assert pool == [];
        return NoQnodes, NULL;
      }
      assert PoolLinked(nodes[..], pool, 0) && OwnedBy(owner, pool, 0, POOL);
      x := avail;
      avail := nodes[x].next;
      DropFirst(nodes[..], queues[..], pool, chains, owner);
      pool, owner := pool[1..], owner[x := HELD];
      status := Success;
    }

    /** Puts a held node back at the front of the free list. */
    method QnodeFree(x: int)
      requires Valid() && 0 <= x < nodes.Length && owner[x] == HELD
      modifies `avail, `pool, `owner, nodes
      ensures Valid() && pool == [x] + old(pool)
      ensures Abs() == old(Abs()).(avail := |old(pool)| + 1)
    {
      AddFirst(nodes[..], queues[..], avail, pool, chains, owner, x);
      nodes[x] := nodes[x].(next := avail);
      avail := x;
      pool, owner := [x as nat] + pool, owner[x := POOL];
    }

    method Append(k: nat, data: nat, key: nat) returns (status: Status)
      requires Valid() && k < queues.Length
      modifies this, nodes, queues
      ensures Valid()
      ensures (Abs(), status) == AppendTo(old(Abs()), k, Entry(data, key))
    {
      var x;
      status, x := QnodeAlloc();
      if status != Success {
        return;
      }
      ghost var ns, qs, c := nodes[..], queues[..], chains[k];
      assert QueueOk(ns, owner, qs, chains, k);
      NeighboursOf(ns, owner, c, k, |c|);
      ghost var n := Node(key, data, queues[k].tail, NULL);
      ghost var h := qs[k].(length := |c| + 1, head := if c == [] then x else qs[k].head, tail := x);

      nodes[x] := nodes[x].(key := key, data := data);
      if queues[k].length < 1 {
        queues[k] := queues[k].(head := x);
      } else {
        nodes[queues[k].tail] := nodes[queues[k].tail].(next := x);
      }
      nodes[x] := nodes[x].(next := NULL, prev := queues[k].tail);
      queues[k] := queues[k].(tail := x);
      queues[k] := queues[k].(length := queues[k].length + 1);
      assert nodes[..] == LinkNode(ns, x, n);
      assert queues[..] == qs[k := h];
      LinkLast(ns, qs, avail, pool, chains, owner, k, x, n, h);
      chains, owner := chains[k := c + [x as nat]], owner[x := k];
    }

    method Insert(k: nat, data: nat, key: nat) returns (status: Status)
      requires Valid() && k < queues.Length
      modifies this, nodes, queues
      ensures Valid()
      ensures (Abs(), status) == InsertTo(old(Abs()), k, Entry(data, key))
    {
      var x;
      status, x := QnodeAlloc();
      if status != Success {
        return;
      }
      ghost var cmp, items := queues[k].compare, Abs().all[k].items;
      assert QueueOk(nodes[..], owner, queues[..], chains, k);
      var curr := NULL;
      ghost var p := |items|;
      if queues[k].compare != NoCompare {
        curr, p := FindPlace(k, key);
      }
      PlaceAt(items, cmp, key, p);
      LinkBefore(k, x, data, key, curr, p);
    }

    /** The first node of a self-ordering queue with a greater key, or NULL. */
    method FindPlace(k: nat, key: nat) returns (curr: int, ghost p: nat)
      requires Valid() && k < queues.Length
      ensures p <= |chains[k]| && curr == At(chains[k], p)
      ensures var items := Abs().all[k].items;
              (forall j :: 0 <= j < p ==> items[j].key <= key) && (p < |items| ==> items[p].key > key)
    {
      ghost var ns, c := nodes[..], chains[k];
      assert QueueOk(ns, owner, queues[..], chains, k);
      curr, p := queues[k].head, 0;
      assert c != [] ==> Linked(ns, c, 0);
      while curr != NULL && nodes[curr].key <= key
        invariant 0 <= p <= |c| && curr == At(c, p)
        invariant p < |c| ==> Linked(ns, c, p)
        invariant forall j :: 0 <= j < p ==> ItemsOf(ns, c)[j].key <= key
        decreases |c| - p
      {
        curr := nodes[curr].next;
        p := p + 1;
        assert p < |c| ==> Linked(ns, c, p);
      }
    }

    /** Links held node `x` in front of `curr`, or at the end of the queue if `curr` is NULL. */
    method LinkBefore(k: nat, x: int, data: nat, key: nat, curr: int, ghost p: nat)
      requires Valid() && k < queues.Length && 0 <= x < nodes.Length && owner[x] == HELD
      requires p <= |chains[k]| && curr == At(chains[k], p)
      modifies `chains, `owner, nodes, queues
      ensures Valid()
      ensures var s, e := old(Abs()), Entry(data, key);
              Abs() == s.(all := s.all[k := s.all[k].(items := InsertAt(s.all[k].items, p, e))])
    {
      ghost var ns, qs, c := nodes[..], queues[..], chains[k];
      assert QueueOk(ns, owner, qs, chains, k);
      NeighboursOf(ns, owner, c, k, p);
      ghost var n := Node(key, data, At(c, p - 1), At(c, p));
      WriteLinks(k, x, data, key, curr, n);
      HeaderAfterLink(qs[k], c, p, x, queues[k]);
      LinkOne(ns, qs, avail, pool, chains, owner, k, p, x, n, queues[k]);
      chains, owner := chains[k := c[..p] + [x as nat] + c[p..]], owner[x := k];
    }

    /** The stores that link node `x` in. */
    method WriteLinks(k: nat, x: int, data: nat, key: nat, curr: int, ghost n: Node)
      requires k < queues.Length && 0 <= x < nodes.Length
      requires n.key == key && n.data == data && n.next == curr && -1 <= curr < nodes.Length && curr != x
      requires curr != NULL ==> n.prev == nodes[curr].prev && queues[k].length >= 1
      requires curr == NULL ==> n.prev == queues[k].tail
      requires queues[k].length < 1 ==> n.prev == NULL
      requires curr == NULL && queues[k].length >= 1 ==> n.prev != NULL
      requires -1 <= n.prev < nodes.Length && n.prev != x && (n.prev == curr ==> curr == NULL)
      modifies nodes, queues
      ensures nodes[..] == LinkNode(old(nodes[..]), x, n)
      ensures var h := old(queues[k]);
              queues[..] == old(queues[..])[k := Header(h.compare, h.remover,
                                                        if h.length < 1 then 1 else h.length + 1,
                                                        if n.prev == NULL then x else h.head,
                                                        if n.next == NULL then x else h.tail)]
    {
      nodes[x] := Node(key, data, NULL, NULL);
      if queues[k].length < 1 {
        queues[k] := queues[k].(head := x, tail := x, length := 1);
      } else if curr == NULL {
        nodes[queues[k].tail] := nodes[queues[k].tail].(next := x);
        nodes[x] := nodes[x].(prev := queues[k].tail);
        queues[k] := queues[k].(tail := x, length := queues[k].length + 1);
      } else {
        nodes[x] := nodes[x].(next := curr);
        if nodes[curr].prev == NULL {
          queues[k] := queues[k].(head := x);
        } else {
          nodes[nodes[curr].prev] := nodes[nodes[curr].prev].(next := x);
          nodes[x] := nodes[x].(prev := nodes[curr].prev);
        }
        nodes[curr] := nodes[curr].(prev := x);
        queues[k] := queues[k].(length := queues[k].length + 1);
      }
    }

    /** Takes the first entry. */
    method Remove(k: nat) returns (status: Status, data: nat)
      requires Valid() && k < queues.Length
      modifies this, nodes, queues
      ensures Valid()
      ensures Abs() == RemoveFrom(old(Abs()), k).0 && status == RemoveFrom(old(Abs()), k).1
      ensures status == Success ==> data == RemoveFrom(old(Abs()), k).2
    {
      ghost var ns, qs, c := nodes[..], queues[..], chains[k];
      assert QueueOk(ns, owner, qs, chains, k);
      if queues[k].length < 1 {
        return Empty, 0;
      }
      Neighbours(ns, owner, c, k, 0);
      var x := queues[k].head;
      queues[k] := queues[k].(length := queues[k].length - 1);
      queues[k] := queues[k].(head := nodes[x].next);
      if queues[k].head == NULL {
        queues[k] := queues[k].(tail := NULL);
      } else {
        nodes[queues[k].head] := nodes[queues[k].head].(prev := NULL);
      }
      assert nodes[..] == UnlinkNode(ns, x);
      assert queues[..] == qs[k := queues[k]] && HeaderOf(queues[k], c[..0] + c[1..]);
      UnlinkOne(ns, qs, avail, pool, chains, owner, k, 0, queues[k]);
      chains, owner := chains[k := c[..0] + c[1..]], owner[x := HELD];
      data := nodes[x].data;
      QnodeFree(x);
      status := Success;
    }

    /** Takes the first entry the queue's removal routine accepts. */
    method RemoveKeyed(k: nat, key: nat) returns (status: Status, data: nat)
      requires Valid() && k < queues.Length
      modifies this, nodes, queues
      ensures Valid()
      ensures Abs() == RemoveByKey(old(Abs()), k, key).0 && status == RemoveByKey(old(Abs()), k, key).1
      ensures status == Success ==> data == RemoveByKey(old(Abs()), k, key).2
    {
      ghost var ns, qs, c := nodes[..], queues[..], chains[k];
      ghost var items := ItemsOf(ns, c);
      assert QueueOk(ns, owner, qs, chains, k);
      if queues[k].length < 1 {
        return Empty, 0;
      }
      if queues[k].remover == NoRemover {
        FindAt(items, NoRemover, key, 0);
        status, data := Remove(k);
        return;
      }
      var x := queues[k].head;
      ghost var p := 0;
      Neighbours(ns, owner, c, k, 0);
      while x != NULL && !Matches(queues[k].remover, nodes[x].key, key)
        invariant 0 <= p <= |c| && x == At(c, p)
        invariant p < |c| ==> Linked(ns, c, p)
        invariant forall j :: 0 <= j < p ==> !Matches(queues[k].remover, items[j].key, key)
        decreases |c| - p
      {
        x := nodes[x].next;
        p := p + 1;
        assert p < |c| ==> Linked(ns, c, p);
      }
      FindAt(items, queues[k].remover, key, p);
      if x == NULL {
        return NotFound, 0;
      }
      data := nodes[x].data;
      Unlink(k, x, p);
      QnodeFree(x);
      status := Success;
    }

    /** Takes node `x`, number `p` of its chain, out of queue `k`. */
    method Unlink(k: nat, x: int, ghost p: nat)
      requires Valid() && k < queues.Length
      requires p < |chains[k]| && x == chains[k][p]
      modifies `chains, `owner, nodes, queues
      ensures Valid() && x < nodes.Length && owner[x] == HELD
      ensures var s := old(Abs());
              Abs() == s.(all := s.all[k := s.all[k].(items := RemoveAt(s.all[k].items, p))])
    {
      ghost var ns, qs, c := nodes[..], queues[..], chains[k];
      assert QueueOk(ns, owner, qs, chains, k);
      Neighbours(ns, owner, c, k, p);
      if nodes[x].prev != NULL {
        nodes[nodes[x].prev] := nodes[nodes[x].prev].(next := nodes[x].next);
      } else {
        queues[k] := queues[k].(head := nodes[x].next);
      }
      if nodes[x].next != NULL {
        nodes[nodes[x].next] := nodes[nodes[x].next].(prev := nodes[x].prev);
      } else {
        queues[k] := queues[k].(tail := nodes[x].prev);
      }
      queues[k] := queues[k].(length := queues[k].length - 1);
      ghost var c' := c[..p] + c[p + 1..];
      assert nodes[..] == UnlinkNode(ns, x);
      assert queues[..] == qs[k := queues[k]] && HeaderOf(queues[k], c');
      UnlinkOne(ns, qs, avail, pool, chains, owner, k, p, queues[k]);
      chains, owner := chains[k := c'], owner[x := HELD];
    }
  }

  /** The nodes on either side of place `p`, and the last one. */
  lemma NeighboursOf(ns: seq<Node>, owner: seq<int>, c: seq<nat>, k: int, p: nat)
    requires Chain(ns, owner, c, k) && p <= |c| && |owner| == |ns|
    ensures c != [] ==> Linked(ns, c, |c| - 1) && OwnedBy(owner, c, |c| - 1, k)
    ensures p > 0 ==> Linked(ns, c, p - 1) && OwnedBy(owner, c, p - 1, k)
    ensures p < |c| ==> Linked(ns, c, p) && OwnedBy(owner, c, p, k)
    ensures 0 < p < |c| ==> c[p - 1] != c[p]
  {
    assert 0 < p < |c| ==> Differ(c, p - 1, p);
  }

  lemma HeaderAfterLink(h: Header, c: seq<nat>, p: nat, x: nat, h': Header)
    requires HeaderOf(h, c) && p <= |c| && h'.length == |c| + 1
    requires h'.head == (if p == 0 then x else h.head) && h'.tail == (if p == |c| then x else h.tail)
    ensures HeaderOf(h', c[..p] + [x] + c[p..])
  {}

  lemma AppendIsInsertAt(items: seq<Entry>, e: Entry)
    ensures InsertAt(items, |items|, e) == items + [e]
  {}

  lemma FindAt(items: seq<Entry>, r: Remover, key: nat, i: nat)
    requires i <= |items| && (i < |items| ==> Matches(r, items[i].key, key))
    requires forall j :: 0 <= j < i ==> !Matches(r, items[j].key, key)
    ensures Find(items, r, key) == i
  {}

  lemma PlaceAt(items: seq<Entry>, c: Compare, key: nat, i: nat)
    requires i <= |items| && (c == NoCompare ==> i == |items|)
    requires c == UintAsc ==> (i < |items| ==> items[i].key > key) && forall j :: 0 <= j < i ==> items[j].key <= key
    ensures Place(items, c, key) == i
  {}

  lemma DropFirst(ns: seq<Node>, qs: seq<Header>, pool: seq<nat>, chains: seq<seq<nat>>, owner: seq<int>)
    requires pool != [] && Rep(ns, qs, pool[0], pool, chains, owner)
    ensures pool[0] < |ns| == |owner|
    ensures Rep(ns, qs, ns[pool[0]].next, pool[1..], chains, owner[pool[0] := HELD])
  {
    var x := pool[0];
    assert PoolLinked(ns, pool, 0) && OwnedBy(owner, pool, 0, POOL);
    var rest, owner' := pool[1..], owner[x := HELD];
    forall i | 0 <= i < |rest| ensures PoolLinked(ns, rest, i) && OwnedBy(owner', rest, i, POOL) {
      assert PoolLinked(ns, pool, i + 1) && OwnedBy(owner, pool, i + 1, POOL) && Differ(pool, 0, i + 1);
    }
    forall i, j | 0 <= i < j < |rest| ensures Differ(rest, i, j) {
      assert Differ(pool, i + 1, j + 1);
    }
    forall k | 0 <= k < |qs| ensures QueueOk(ns, owner', qs, chains, k) {
      assert QueueOk(ns, owner, qs, chains, k);
      ChainKept(ns, ns, owner, owner', chains[k], k, POOL, x);
    }
  }

  lemma AddFirst(ns: seq<Node>, qs: seq<Header>, avail: int, pool: seq<nat>, chains: seq<seq<nat>>, owner: seq<int>,
                 x: nat)
    requires Rep(ns, qs, avail, pool, chains, owner) && x < |ns| && owner[x] == HELD
    ensures var ns' := ns[x := ns[x].(next := avail)];
            && Rep(ns', qs, x, [x] + pool, chains, owner[x := POOL])
            && forall k :: 0 <= k < |chains| ==> ItemsOf(ns', chains[k]) == ItemsOf(ns, chains[k])
  {
    var ns' := ns[x := ns[x].(next := avail)];
    var all, owner' := [x] + pool, owner[x := POOL];
    forall i | 0 <= i < |all| ensures PoolLinked(ns', all, i) && OwnedBy(owner', all, i, POOL) {
      assert i > 0 ==> PoolLinked(ns, pool, i - 1) && OwnedBy(owner, pool, i - 1, POOL);
    }
    forall i, j | 0 <= i < j < |all| ensures Differ(all, i, j) {
      assert i > 0 ==> Differ(pool, i - 1, j - 1);
      assert OwnedBy(owner, pool, j - 1, POOL);
    }
    forall k | 0 <= k < |qs|
      ensures QueueOk(ns', owner', qs, chains, k) && ItemsOf(ns', chains[k]) == ItemsOf(ns, chains[k])
    {
      assert QueueOk(ns, owner, qs, chains, k);
      ChainKept(ns, ns', owner, owner', chains[k], k, POOL, x);
    }
  }
}
