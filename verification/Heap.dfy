/**
 The kernel heap (src/kernel/kheap.c): a first-fit allocator over an address-ordered free list
 that splits a block from its tail and merges a freed block with both neighbours.

 Addresses and lengths are in words. A block at `addr` of length `len` owns the header word
 `addr` and the `len` usable words after it.
 */
module HeapSpec {
  import opened Common

  const HEADER: nat := 1       // words in a header: the length field
  const BLOCKINFO: nat := 2    // words in a blockinfo_t: length and next

  datatype Block = Block(addr: nat, len: nat) {
    /** The first word after the block. */
    function End(): nat {
      addr + HEADER + len
    }
  }

  /** The request in words: the byte count rounded up, in 32-bit arithmetic. */
  function WordsFor(bytes: nat): nat {
    ((bytes + 3) % U32) / 4
  }

  predicate Owns(b: Block, w: nat) {
    b.addr <= w < b.End()
  }

  function Words(b: Block): (ws: set<nat>)
    ensures forall w: nat :: w in ws <==> Owns(b, w)
  {
    set w: nat | b.addr <= w < b.End() && Owns(b, w)
  }

  function WordsOf(bs: seq<Block>): set<nat> {
    set i: nat, w: nat | i < |bs| && w in Words(bs[i]) :: w
  }

  /** Address-ordered, every block can hold a next pointer, and no two blocks touch. */
  ghost predicate Canonical(fl: seq<Block>) {
    && (forall i :: 0 <= i < |fl| ==> 1 <= fl[i].addr && 1 <= fl[i].len)
    && (forall i, j :: 0 <= i < j < |fl| ==> Gap(fl, i, j))
  }

  /** At least one word lies between the two blocks. */
  ghost predicate Gap(fl: seq<Block>, i: nat, j: nat)
    requires i < j < |fl|
  {
    fl[i].End() < fl[j].addr
  }

  // ---------- the two operations ----------

  function FirstFit(fl: seq<Block>, n: nat): (i: nat)
    ensures i <= |fl|
    ensures forall j :: 0 <= j < i ==> fl[j].len < n
    ensures i < |fl| ==> fl[i].len >= n
  {
    if fl == [] then 0
    else if fl[0].len >= n then 0
    else 1 + FirstFit(fl[1..], n)
  }

  function Alloc(fl: seq<Block>, n: nat): (seq<Block>, Option<Block>) {
    var i := FirstFit(fl, n);
    if i == |fl| then
      (fl, None)
    else if fl[i].len > n + BLOCKINFO then
      (fl[i := Block(fl[i].addr, fl[i].len - (HEADER + n))], Some(Block(fl[i].End() - (HEADER + n), n)))
    else
      (fl[..i] + fl[i + 1..], Some(fl[i]))
  }

  /** How many blocks lie before address `a`. */
  function Position(fl: seq<Block>, a: nat): (i: nat)
    ensures i <= |fl|
    ensures forall j :: 0 <= j < i ==> fl[j].addr < a
    ensures i < |fl| ==> fl[i].addr >= a
  {
    if fl == [] then 0
    else if fl[0].addr >= a then 0
    else 1 + Position(fl[1..], a)
  }

  /** Does the freed block start where its predecessor ends? */
  predicate JoinsLeft(fl: seq<Block>, b: Block) {
    var i := Position(fl, b.addr);
    i > 0 && fl[i - 1].End() == b.addr
  }

  /** The blocks up to and including the freed one, once merged with its predecessor. */
  function Lower(fl: seq<Block>, b: Block): seq<Block> {
    var i := Position(fl, b.addr);
    if JoinsLeft(fl, b) then
      fl[..i - 1] + [Block(fl[i - 1].addr, fl[i - 1].len + HEADER + b.len)]
    else
      fl[..i] + [b]
  }

  /** Joining two lists, merging the blocks that meet if they touch. */
  function Join(lower: seq<Block>, upper: seq<Block>): seq<Block>
    requires lower != []
  {
    var used := lower[|lower| - 1];
    if upper != [] && used.End() == upper[0].addr then
      lower[..|lower| - 1] + [Block(used.addr, used.len + HEADER + upper[0].len)] + upper[1..]
    else
      lower + upper
  }

  function Release(fl: seq<Block>, b: Block): seq<Block> {
    Join(Lower(fl, b), fl[Position(fl, b.addr)..])
  }

  // ---------- canonical form determines the list ----------

  lemma WordsOfTail(fl: seq<Block>)
    requires Canonical(fl) && fl != []
    ensures Canonical(fl[1..])
    ensures WordsOf(fl[1..]) == WordsOf(fl) - Words(fl[0])
  {
    var t := fl[1..];
    forall i, j | 0 <= i < j < |t| ensures Gap(t, i, j) {
      assert Gap(fl, i + 1, j + 1);
    }
    forall w ensures w in WordsOf(t) <==> w in WordsOf(fl) && w !in Words(fl[0]) {
      if w in WordsOf(t) {
        var i :| 0 <= i < |t| && w in Words(t[i]);
        assert w in Words(fl[i + 1]);
        assert Gap(fl, 0, i + 1);
      }
      if w in WordsOf(fl) && w !in Words(fl[0]) {
        var i :| 0 <= i < |fl| && w in Words(fl[i]);
        assert w in Words(t[i - 1]);
      }
    }
  }

  lemma FirstWord(fl: seq<Block>, w: nat)
    requires Canonical(fl) && w in WordsOf(fl)
    ensures fl != [] && fl[0].addr <= w
    ensures w != fl[0].End()
  {
    forall i | 0 < i < |fl| ensures fl[0].End() < fl[i].addr {
      assert Gap(fl, 0, i);
    }
  }

  /** The first word after a block of a canonical list is not free. */
  lemma EndNotFree(fl: seq<Block>, i: nat)
    requires Canonical(fl) && i < |fl|
    ensures fl[i].End() !in WordsOf(fl)
  {
    forall j | 0 <= j < |fl| ensures !Owns(fl[j], fl[i].End()) {
      assert j < i ==> Gap(fl, j, i);
      assert i < j ==> Gap(fl, i, j);
    }
  }

  /** History independence: the free list is a function of the set of free words alone. */
  lemma {:induction false} CanonicalUnique(a: seq<Block>, b: seq<Block>)
    requires Canonical(a) && Canonical(b)
    requires WordsOf(a) == WordsOf(b)
    ensures a == b
  {
    if a == [] || b == [] {
      if a != [] {
        assert a[0].addr in Words(a[0]);
        FirstWord(b, a[0].addr);
      }
      if b != [] {
        assert b[0].addr in Words(b[0]);
        FirstWord(a, b[0].addr);
      }
    } else {
      assert a[0].addr in Words(a[0]) && b[0].addr in Words(b[0]);
      FirstWord(b, a[0].addr);
      FirstWord(a, b[0].addr);
      if a[0].End() < b[0].End() {
        assert a[0].End() in Words(b[0]);
        FirstWord(a, a[0].End());
      } else if b[0].End() < a[0].End() {
        assert b[0].End() in Words(a[0]);
        FirstWord(b, b[0].End());
      }
      WordsOfTail(a);
      WordsOfTail(b);
      CanonicalUnique(a[1..], b[1..]);
      assert a == [a[0]] + a[1..] && b == [b[0]] + b[1..];
    }
  }

  // ---------- what each operation does to the words ----------

  lemma WordsOfConcat(a: seq<Block>, b: seq<Block>)
    ensures WordsOf(a + b) == WordsOf(a) + WordsOf(b)
  {
    var c := a + b;
    forall w ensures w in WordsOf(c) <==> w in WordsOf(a) || w in WordsOf(b) {
      if w in WordsOf(c) {
        var i :| 0 <= i < |c| && w in Words(c[i]);
        if i < |a| {
          assert w in Words(a[i]);
        } else {
          assert w in Words(b[i - |a|]);
        }
      }
      if w in WordsOf(a) {
        var i :| 0 <= i < |a| && w in Words(a[i]);
        assert w in Words(c[i]);
      }
      if w in WordsOf(b) {
        var i :| 0 <= i < |b| && w in Words(b[i]);
        assert w in Words(c[|a| + i]);
      }
    }
  }

  lemma WordsOfOne(b: Block)
    ensures WordsOf([b]) == Words(b)
  {
    assert [b][0] == b;
    forall w ensures w in WordsOf([b]) <==> w in Words(b) {
      if w in Words(b) {
        assert w in Words([b][0]);
      }
    }
  }

  /** Splitting a list at `i` and replacing that one block by `bs`. */
  lemma WordsOfReplace(fl: seq<Block>, i: nat, bs: seq<Block>)
    requires i < |fl|
    ensures WordsOf(fl) == WordsOf(fl[..i]) + Words(fl[i]) + WordsOf(fl[i + 1..])
    ensures WordsOf(fl[..i] + bs + fl[i + 1..]) == WordsOf(fl[..i]) + WordsOf(bs) + WordsOf(fl[i + 1..])
  {
    assert fl == fl[..i] + [fl[i]] + fl[i + 1..];
    WordsOfOne(fl[i]);
    WordsOfConcat(fl[..i], [fl[i]]);
    WordsOfConcat(fl[..i] + [fl[i]], fl[i + 1..]);
    WordsOfConcat(fl[..i], bs);
    WordsOfConcat(fl[..i] + bs, fl[i + 1..]);
  }

  lemma BlockApart(fl: seq<Block>, i: nat)
    requires Canonical(fl) && i < |fl|
    ensures Words(fl[i]) !! WordsOf(fl[..i]) && Words(fl[i]) !! WordsOf(fl[i + 1..])
  {
    forall j | 0 <= j < i ensures Words(fl[i]) !! Words(fl[..i][j]) {
      assert Gap(fl, j, i);
    }
    var above := fl[i + 1..];
    forall j | 0 <= j < |above| ensures Words(fl[i]) !! Words(above[j]) {
      assert Gap(fl, i, i + 1 + j);
    }
  }

  /** Cutting the request off the end of block `i`. */
  lemma SplitConserves(fl: seq<Block>, i: nat, n: nat)
    requires Canonical(fl) && i < |fl| && fl[i].len > n + BLOCKINFO
    ensures var rest, taken := Block(fl[i].addr, fl[i].len - (HEADER + n)), Block(fl[i].End() - (HEADER + n), n);
            && Canonical(fl[i := rest]) && Words(taken) !! WordsOf(fl[i := rest])
            && WordsOf(fl) == WordsOf(fl[i := rest]) + Words(taken)
  {
    var rest, taken := Block(fl[i].addr, fl[i].len - (HEADER + n)), Block(fl[i].End() - (HEADER + n), n);
    BlockApart(fl, i);
    assert fl[i := rest] == fl[..i] + [rest] + fl[i + 1..];
    WordsOfReplace(fl, i, [rest]);
    WordsOfOne(rest);
    var shrunk := fl[i := rest];
    forall a, b | 0 <= a < b < |fl| ensures Gap(shrunk, a, b) {
      assert Gap(fl, a, b);
    }
    assert Words(fl[i]) == Words(rest) + Words(taken);
    assert Words(rest) !! Words(taken);
  }

  /** Allocation keeps the canonical form and moves exactly one block's words out of the free list. */
  lemma AllocConserves(fl: seq<Block>, n: nat)
    requires Canonical(fl)
    ensures var (fl', r) := Alloc(fl, n);
            && Canonical(fl')
            && (r.None? ==> fl' == fl)
            && (r.Some? ==>
                  && 1 <= r.value.addr
                  && Words(r.value) !! WordsOf(fl')
                  && WordsOf(fl) == WordsOf(fl') + Words(r.value))
  {
    var i := FirstFit(fl, n);
    if i < |fl| {
      BlockApart(fl, i);
      if fl[i].len > n + BLOCKINFO {
        SplitConserves(fl, i, n);
      } else {
        var left := fl[..i] + fl[i + 1..];
        assert left == fl[..i] + [] + fl[i + 1..];
        forall a, b | 0 <= a < b < |left| ensures Gap(left, a, b) {
          assert Gap(fl, if a < i then a else a + 1, if b < i then b else b + 1);
        }
        WordsOfReplace(fl, i, []);
        assert WordsOf([]) == {};
      }
    }
  }

  lemma CanonicalConcat(a: seq<Block>, b: seq<Block>)
    requires Canonical(a) && Canonical(b)
    requires a != [] && b != [] ==> a[|a| - 1].End() < b[0].addr
    ensures Canonical(a + b)
  {
    var c := a + b;
    forall i, j | 0 <= i < j < |c| ensures Gap(c, i, j) {
      if j < |a| {
        assert Gap(a, i, j);
      } else if |a| <= i {
        assert Gap(b, i - |a|, j - |a|);
      } else {
        assert i < |a| - 1 ==> Gap(a, i, |a| - 1);
        assert |a| < j ==> Gap(b, 0, j - |a|);
      }
    }
  }

  /** Two touching blocks own together what the merged block owns. */
  lemma MergedWords(x: Block, y: Block)
    requires x.End() == y.addr
    ensures WordsOf([Block(x.addr, x.len + HEADER + y.len)]) == WordsOf([x]) + WordsOf([y])
  {
    WordsOfOne(x);
    WordsOfOne(y);
    WordsOfOne(Block(x.addr, x.len + HEADER + y.len));
  }

  lemma CanonicalSlices(fl: seq<Block>, i: nat)
    requires Canonical(fl) && i <= |fl|
    ensures Canonical(fl[..i]) && Canonical(fl[i..])
  {
    forall a, b | 0 <= a < b < i ensures Gap(fl[..i], a, b) {
      assert Gap(fl, a, b);
    }
    forall a, b | 0 <= a < b < |fl| - i ensures Gap(fl[i..], a, b) {
      assert Gap(fl, i + a, i + b);
    }
  }

  lemma CanonicalAppend(fl: seq<Block>, i: nat, b: Block)
    requires Canonical(fl) && i <= |fl| && 1 <= b.addr && 1 <= b.len
    requires i > 0 ==> fl[i - 1].End() < b.addr
    ensures Canonical(fl[..i] + [b])
  {
    CanonicalSlices(fl, i);
    CanonicalConcat(fl[..i], [b]);
  }

  lemma LowerCanonical(fl: seq<Block>, b: Block)
    requires Canonical(fl) && 1 <= b.addr && 1 <= b.len
    requires var i := Position(fl, b.addr); i > 0 ==> fl[i - 1].End() <= b.addr
    ensures var lower := Lower(fl, b); Canonical(lower) && lower[|lower| - 1].End() == b.End()
  {
    var i := Position(fl, b.addr);
    if JoinsLeft(fl, b) {
      assert i > 1 ==> Gap(fl, i - 2, i - 1);
      CanonicalAppend(fl, i - 1, Block(fl[i - 1].addr, fl[i - 1].len + HEADER + b.len));
    } else {
      CanonicalAppend(fl, i, b);
    }
  }

  lemma LowerWords(fl: seq<Block>, b: Block)
    ensures WordsOf(Lower(fl, b)) == WordsOf(fl[..Position(fl, b.addr)]) + WordsOf([b])
  {
    var i := Position(fl, b.addr);
    if JoinsLeft(fl, b) {
      MergedWords(fl[i - 1], b);
      assert fl[..i] == fl[..i - 1] + [fl[i - 1]];
      WordsOfConcat(fl[..i - 1], [fl[i - 1]]);
      WordsOfConcat(fl[..i - 1], [Block(fl[i - 1].addr, fl[i - 1].len + HEADER + b.len)]);
    } else {
      WordsOfConcat(fl[..i], [b]);
    }
  }

  lemma JoinCanonical(lower: seq<Block>, upper: seq<Block>)
    requires Canonical(lower) && Canonical(upper) && lower != []
    requires upper != [] ==> lower[|lower| - 1].End() <= upper[0].addr
    ensures Canonical(Join(lower, upper))
  {
    var k := |lower| - 1;
    if upper != [] && lower[k].End() == upper[0].addr {
      var both := Block(lower[k].addr, lower[k].len + HEADER + upper[0].len);
      assert k > 0 ==> Gap(lower, k - 1, k);
      assert |upper| > 1 ==> Gap(upper, 0, 1);
      CanonicalSlices(upper, 1);
      CanonicalAppend(lower, k, both);
      CanonicalConcat(lower[..k] + [both], upper[1..]);
    } else {
      CanonicalConcat(lower, upper);
    }
  }

  lemma JoinWords(lower: seq<Block>, upper: seq<Block>)
    requires lower != []
    ensures WordsOf(Join(lower, upper)) == WordsOf(lower) + WordsOf(upper)
  {
    var k := |lower| - 1;
    if upper != [] && lower[k].End() == upper[0].addr {
      var both := Block(lower[k].addr, lower[k].len + HEADER + upper[0].len);
      MergedWords(lower[k], upper[0]);
      assert lower == lower[..k] + [lower[k]] && upper == [upper[0]] + upper[1..];
      WordsOfConcat(lower[..k], [lower[k]]);
      WordsOfConcat([upper[0]], upper[1..]);
      WordsOfConcat(lower[..k], [both]);
      WordsOfConcat(lower[..k] + [both], upper[1..]);
    } else {
      WordsOfConcat(lower, upper);
    }
  }

  lemma ReleaseCanonical(fl: seq<Block>, b: Block)
    requires Canonical(fl) && 1 <= b.addr && 1 <= b.len
    requires Words(b) !! WordsOf(fl)
    ensures Canonical(Release(fl, b))
  {
    ReleaseGap(fl, b);
    LowerCanonical(fl, b);
    CanonicalSlices(fl, Position(fl, b.addr));
    JoinCanonical(Lower(fl, b), fl[Position(fl, b.addr)..]);
  }

  lemma ReleaseWords(fl: seq<Block>, b: Block)
    ensures WordsOf(Release(fl, b)) == WordsOf(fl) + Words(b)
  {
    var i := Position(fl, b.addr);
    LowerWords(fl, b);
    WordsOfOne(b);
    JoinWords(Lower(fl, b), fl[i..]);
    assert fl == fl[..i] + fl[i..];
    WordsOfConcat(fl[..i], fl[i..]);
  }

  /** Freeing keeps the canonical form and adds exactly the freed block's words. */
  lemma ReleaseConserves(fl: seq<Block>, b: Block)
    requires Canonical(fl) && 1 <= b.addr && 1 <= b.len
    requires Words(b) !! WordsOf(fl)
    ensures Canonical(Release(fl, b))
    ensures WordsOf(Release(fl, b)) == WordsOf(fl) + Words(b)
  {
    ReleaseCanonical(fl, b);
    ReleaseWords(fl, b);
  }

  /** A block disjoint from the free words fits between its neighbours. */
  lemma ReleaseGap(fl: seq<Block>, b: Block)
    requires Canonical(fl)
    requires Words(b) !! WordsOf(fl)
    ensures var i := Position(fl, b.addr);
            && (i > 0 ==> fl[i - 1].End() <= b.addr)
            && (i < |fl| ==> b.End() <= fl[i].addr)
  {
    var i := Position(fl, b.addr);
    assert b.addr in Words(b);
    if i > 0 {
      assert b.addr !in Words(fl[i - 1]);
    }
    if i < |fl| {
      assert fl[i].addr in Words(fl[i]);
      assert fl[i].addr !in Words(b);
    }
  }

  /** Freeing what was just allocated restores the very same list. */
  lemma AllocReleaseRoundTrip(fl: seq<Block>, n: nat)
    requires Canonical(fl) && 1 <= n
    ensures var (fl', r) := Alloc(fl, n);
            r.Some? ==> r.value.len >= 1 && Release(fl', r.value) == fl
  {
    AllocConserves(fl, n);
    var (fl', r) := Alloc(fl, n);
    if r.Some? {
      ReleaseConserves(fl', r.value);
      CanonicalUnique(Release(fl', r.value), fl);
    }
  }

  // ---------- completeness ----------

  ghost predicate FreeRun(fl: seq<Block>, a: nat, k: nat) {
    forall w: nat :: a <= w < a + k ==> w in WordsOf(fl)
  }

  ghost predicate SomeFreeRun(fl: seq<Block>, k: nat) {
    exists a: nat :: FreeRun(fl, a, k)
  }

  lemma RunInOneBlock(fl: seq<Block>, a: nat, k: nat) returns (i: nat)
    requires Canonical(fl) && 1 <= k && FreeRun(fl, a, k)
    ensures i < |fl| && fl[i].addr <= a && a + k <= fl[i].End()
  {
    assert a in WordsOf(fl);
    i :| 0 <= i < |fl| && a in Words(fl[i]);
    EndNotFree(fl, i);
  }

  /** NULL is returned exactly when no contiguous run of n + 1 free words exists. */
  lemma AllocComplete(fl: seq<Block>, n: nat)
    requires Canonical(fl)
    ensures Alloc(fl, n).1.None? <==> !SomeFreeRun(fl, n + 1)
  {
    var i := FirstFit(fl, n);
    if i < |fl| {
      forall w: nat | fl[i].addr <= w < fl[i].addr + (n + 1) ensures w in WordsOf(fl) {
        assert w in Words(fl[i]);
      }
      assert FreeRun(fl, fl[i].addr, n + 1);
    } else {
      forall a: nat, k: nat | k == n + 1 && FreeRun(fl, a, k) ensures false {
        var j := RunInOneBlock(fl, a, k);
      }
    }
  }

  /**
   The block returned is the upper end of the lowest-addressed free block that is long enough, with just the
   words asked for, or the whole of it if that has at most two to spare.
   */
  lemma AllocFirstFit(fl: seq<Block>, n: nat)
    requires Canonical(fl) && Alloc(fl, n).1.Some?
    ensures var b := Alloc(fl, n).1.value;
            && n <= b.len <= n + 2
            && exists i :: 0 <= i < |fl| && fl[i].len >= n
                 && fl[i].addr <= b.addr && b.End() == fl[i].End()
                 && b.len == (if fl[i].len <= n + 2 then fl[i].len else n)
                 && forall j :: 0 <= j < |fl| && fl[j].addr < fl[i].addr ==> fl[j].len < n
  {
    var i := FirstFit(fl, n);
    forall j | 0 <= j < |fl| && fl[j].addr < fl[i].addr ensures fl[j].len < n {
      assert j != i;
      assert i < j ==> Gap(fl, i, j);
    }
  }

  /** The rounding is enough for the request exactly when the 32-bit round-up does not wrap. */
  lemma RequestHolds(bytes: nat)
    requires bytes < U32
    ensures bytes <= 4 * WordsFor(bytes) <==> bytes <= U32 - 4
    ensures bytes <= U32 - 4 ==> 4 * WordsFor(bytes) < bytes + 4
    ensures bytes > 0xFFFF_FFFC ==> WordsFor(bytes) == 0
  {
    if bytes > U32 - 4 {
      assert (bytes + 3) % U32 == bytes + 3 - U32;
    }
  }

  // ---------- runs ----------

  /** Live blocks are what the kernel's callers hold; `KfreeOp` names the block by its header. */
  datatype Op = KallocOp(bytes: nat) | KfreeOp(block: Block)
  datatype State = State(free: seq<Block>, live: set<Block>)

  predicate Allowed(s: State, op: Op) {
    match op
    case KallocOp(bytes) => bytes < U32
    case KfreeOp(b) => b in s.live && 1 <= b.len
  }

  function Step(s: State, op: Op): State
    requires Allowed(s, op)
  {
    match op
    case KallocOp(bytes) =>
      var (fl, r) := Alloc(s.free, WordsFor(bytes));
      State(fl, if r.Some? then s.live + {r.value} else s.live)
    case KfreeOp(b) => State(Release(s.free, b), s.live - {b})
  }

  predicate AllowedRun(s: State, ops: seq<Op>)
    decreases |ops|
  {
    ops == [] || (Allowed(s, ops[0]) && AllowedRun(Step(s, ops[0]), ops[1..]))
  }

  function Run(s: State, ops: seq<Op>): State
    requires AllowedRun(s, ops)
    decreases |ops|
  {
    if ops == [] then s else Run(Step(s, ops[0]), ops[1..])
  }

  function LiveWords(live: set<Block>): set<nat> {
    set b, w | b in live && w in Words(b) :: w
  }

  ghost predicate Inv(s: State, memory: set<nat>) {
    && Canonical(s.free)
    && (forall b :: b in s.live ==> 1 <= b.addr && Words(b) !! WordsOf(s.free))
    && (forall b, c :: b in s.live && c in s.live && b != c ==> Words(b) !! Words(c))
    && WordsOf(s.free) + LiveWords(s.live) == memory
  }

  lemma StepKeepsInv(s: State, op: Op, memory: set<nat>)
    requires Inv(s, memory) && Allowed(s, op)
    ensures Inv(Step(s, op), memory)
  {
    match op
    case KallocOp(bytes) =>
      AllocConserves(s.free, WordsFor(bytes));
      var (fl, r) := Alloc(s.free, WordsFor(bytes));
      if r.Some? {
        var b := r.value;
        forall c | c in s.live ensures Words(b) !! Words(c) {}
        assert LiveWords(s.live + {b}) == LiveWords(s.live) + Words(b);
      }
    case KfreeOp(b) =>
      ReleaseConserves(s.free, b);
      forall w ensures w in LiveWords(s.live - {b}) <==> w in LiveWords(s.live) && w !in Words(b) {
        if w in LiveWords(s.live) && w !in Words(b) {
          var c :| c in s.live && w in Words(c);
          assert c in s.live - {b};
        }
      }
  }

  /** Canonical form and conservation over every run of allocations and frees. */
  lemma {:induction false} RunKeepsInv(s: State, ops: seq<Op>, memory: set<nat>)
    requires Inv(s, memory) && AllowedRun(s, ops)
    ensures Inv(Run(s, ops), memory)
    decreases |ops|
  {
    if ops != [] {
      StepKeepsInv(s, ops[0], memory);
      RunKeepsInv(Step(s, ops[0]), ops[1..], memory);
    }
  }

  /** Any run that ends with everything freed, in any order, ends in the initial list. */
  lemma RunReturnsToStart(fl: seq<Block>, ops: seq<Op>)
    requires Canonical(fl)
    requires AllowedRun(State(fl, {}), ops)
    requires Run(State(fl, {}), ops).live == {}
    ensures Run(State(fl, {}), ops).free == fl
  {
    var s := State(fl, {});
    RunKeepsInv(s, ops, WordsOf(fl));
    CanonicalUnique(Run(s, ops).free, fl);
  }
}

/** The allocator itself, working in place on memory. */
module KernelHeap {
  import opened Common
  import opened HeapSpec

  const NULL: int := 0

  /** The address of block `i`, or NULL past the end of the list. */
  function AddrAt(fl: seq<Block>, i: nat): int {
    if i < |fl| then fl[i].addr else NULL
  }

  /** Block `i` of `fl` lies in `m` with its length and the address of its successor. */
  ghost predicate Node(m: seq<int>, fl: seq<Block>, i: nat)
    requires i < |fl|
  {
    && 1 <= fl[i].addr && 1 <= fl[i].len && fl[i].End() <= |m|
    && m[fl[i].addr] == fl[i].len
    && m[fl[i].addr + 1] == AddrAt(fl, i + 1)
  }

  /** `m` holds the free list `fl`, linked from `head`. */
  ghost predicate Linked(m: seq<int>, head: int, fl: seq<Block>) {
    head == AddrAt(fl, 0) && forall i :: 0 <= i < |fl| ==> Node(m, fl, i)
  }

  ghost predicate Apart(fl: seq<Block>, i: nat, j: nat)
    requires i < j < |fl|
  {
    fl[i].End() <= fl[j].addr
  }

  /** Blocks in address order that may touch but do not overlap. */
  ghost predicate Separated(fl: seq<Block>) {
    forall i, j :: 0 <= i < j < |fl| ==> Apart(fl, i, j)
  }

  /** Only words in `ws` may differ. */
  ghost predicate KeptOutside(m: seq<int>, m': seq<int>, ws: set<nat>) {
    |m| == |m'| && forall w: nat :: w < |m| && w !in ws ==> m'[w] == m[w]
  }

  // ---------- single edits of the linked list ----------

  /** Writing in the usable words of block `k`, past its next pointer, changes no list word. */
  lemma LinkedFill(m: seq<int>, head: int, fl: seq<Block>, k: nat, w: nat, v: int)
    requires Linked(m, head, fl) && Separated(fl) && k < |fl| && w < |m|
    requires fl[k].addr + 1 < w < fl[k].End()
    ensures Linked(m[w := v], head, fl)
  {
    var m' := m[w := v];
    forall i | 0 <= i < |fl| ensures Node(m', fl, i) {
      assert Node(m, fl, i);
      assert i < k ==> Apart(fl, i, k);
      assert k < i ==> Apart(fl, k, i);
    }
  }

  /** Writing a block's length word changes that block's length only. */
  lemma LinkedResize(m: seq<int>, head: int, fl: seq<Block>, k: nat, len: nat)
    requires Linked(m, head, fl) && Separated(fl) && k < |fl|
    requires 1 <= len && fl[k].addr + HEADER + len <= |m|
    ensures Node(m, fl, k)
    ensures Linked(m[fl[k].addr := len], head, fl[k := Block(fl[k].addr, len)])
  {
    assert Node(m, fl, k);
    var fl' := fl[k := Block(fl[k].addr, len)];
    var m' := m[fl[k].addr := len];
    forall i | 0 <= i < |fl| ensures Node(m', fl', i) {
      assert Node(m, fl, i);
      assert i < k ==> Apart(fl, i, k);
      assert k < i ==> Apart(fl, k, i);
    }
  }

  /** Pointing the predecessor of block `k` past it unlinks that block. */
  lemma LinkedRemove(m: seq<int>, head: int, fl: seq<Block>, k: nat)
    requires Linked(m, head, fl) && Separated(fl) && k < |fl|
    ensures Node(m, fl, k) && (k > 0 ==> Node(m, fl, k - 1))
    ensures var fl' := fl[..k] + fl[k + 1..];
            if k == 0 then Linked(m, m[fl[0].addr + 1], fl')
            else Linked(m[fl[k - 1].addr + 1 := m[fl[k].addr + 1]], head, fl')
  {
    assert Node(m, fl, k) && (k > 0 ==> Node(m, fl, k - 1));
    var fl' := fl[..k] + fl[k + 1..];
    var m' := if k == 0 then m else m[fl[k - 1].addr + 1 := m[fl[k].addr + 1]];
    forall i | 0 <= i < |fl'| ensures Node(m', fl', i) {
      var i' := if i < k then i else i + 1;
      assert Node(m, fl, i');
      assert 0 <= k - 1 < i' ==> Apart(fl, k - 1, i');
      assert i' < k - 1 ==> Apart(fl, i', k - 1);
    }
  }

  /** Linking `b` in as block `k`. */
  lemma LinkedInsert(m: seq<int>, head: int, fl: seq<Block>, k: nat, b: Block)
    requires k <= |fl|
    requires Linked(m, head, fl) && Separated(fl[..k] + [b] + fl[k..])
    requires 1 <= b.addr && 1 <= b.len && b.End() <= |m| && m[b.addr] == b.len
    ensures k > 0 ==> Node(m, fl, k - 1)
    ensures var fl' := fl[..k] + [b] + fl[k..];
            if k == 0 then Linked(m[b.addr + 1 := head], b.addr, fl')
            else Linked(m[b.addr + 1 := m[fl[k - 1].addr + 1]][fl[k - 1].addr + 1 := b.addr], head, fl')
  {
    var fl' := fl[..k] + [b] + fl[k..];
    assert fl'[k] == b;
    assert k > 0 ==> Node(m, fl, k - 1) && fl'[k - 1] == fl[k - 1] && Apart(fl', k - 1, k);
    var m' := if k == 0 then m[b.addr + 1 := head]
              else m[b.addr + 1 := m[fl[k - 1].addr + 1]][fl[k - 1].addr + 1 := b.addr];
    forall i | 0 <= i < |fl'| ensures Node(m', fl', i) {
      if i != k {
        assert Node(m, fl, if i < k then i else i - 1);
        assert i < k ==> Apart(fl', i, k);
        assert k < i ==> Apart(fl', k, i);
        assert 0 <= k - 1 < i ==> Apart(fl', k - 1, i);
        assert i < k - 1 ==> Apart(fl', i, k - 1);
      }
    }
  }

  // ---------- which words an edit may touch ----------

  lemma KeptOne(m: seq<int>, a: nat, x: int, ws: set<nat>)
    requires a < |m| && a in ws
    ensures KeptOutside(m, m[a := x], ws)
  {}

  lemma KeptTwo(m: seq<int>, a: nat, x: int, b: nat, y: int, ws: set<nat>)
    requires a < |m| && b < |m| && a in ws && b in ws
    ensures KeptOutside(m, m[a := x][b := y], ws)
  {}

  lemma OwnWord(fl: seq<Block>, i: nat, w: nat)
    requires i < |fl| && Owns(fl[i], w)
    ensures w in WordsOf(fl)
  {
    assert w in Words(fl[i]);
  }

  /** What touches only words that are free leaves every live block as it was. */
  lemma LiveKept(s: State, m: seq<int>, m': seq<int>, memory: set<nat>)
    requires Inv(s, memory) && KeptOutside(m, m', WordsOf(s.free))
    ensures forall w :: w in LiveWords(s.live) && w < |m| ==> m'[w] == m[w]
    ensures forall b :: b in s.live && b.addr < |m| ==> m'[b.addr] == m[b.addr]
  {
    forall b | b in s.live && b.addr < |m| ensures m'[b.addr] == m[b.addr] {
      assert b.addr in Words(b);
    }
  }

  // ---------- the list edits that make up an allocation or a free ----------

  lemma CanonicalSeparated(fl: seq<Block>)
    requires Canonical(fl)
    ensures Separated(fl)
  {
    forall i, j | 0 <= i < j < |fl| ensures Apart(fl, i, j) {
      assert Gap(fl, i, j);
    }
  }

  /** Allocation once the search has stopped at `i`. */
  lemma AllocAt(fl: seq<Block>, n: nat, i: nat)
    requires i <= |fl| && (forall j :: 0 <= j < i ==> fl[j].len < n) && (i < |fl| ==> fl[i].len >= n)
    ensures Alloc(fl, n) ==
            if i == |fl| then (fl, None)
            else if fl[i].len > n + BLOCKINFO then
              (fl[i := Block(fl[i].addr, fl[i].len - (HEADER + n))], Some(Block(fl[i].End() - (HEADER + n), n)))
            else
              (fl[..i] + fl[i + 1..], Some(fl[i]))
  {
    assert FirstFit(fl, n) == i;
  }

  lemma PositionAt(fl: seq<Block>, a: nat, i: nat)
    requires i <= |fl| && (forall j :: 0 <= j < i ==> fl[j].addr < a) && (i < |fl| ==> fl[i].addr >= a)
    ensures Position(fl, a) == i
  {}

  /** The lower part of a free, as an edit of the list. */
  lemma LowerAsEdit(fl: seq<Block>, b: Block, i: nat)
    requires i == Position(fl, b.addr)
    ensures Lower(fl, b) + fl[i..] ==
            if i > 0 && fl[i - 1].End() == b.addr then
              fl[i - 1 := Block(fl[i - 1].addr, fl[i - 1].len + HEADER + b.len)]
            else
              fl[..i] + [b] + fl[i..]
  {
    if i > 0 && fl[i - 1].End() == b.addr {
      var used := Block(fl[i - 1].addr, fl[i - 1].len + HEADER + b.len);
      assert fl[i - 1 := used] == fl[..i - 1] + [used] + fl[i..];
    }
  }

  lemma JoinAsEdit(lower: seq<Block>, upper: seq<Block>)
    requires lower != [] && upper != [] && lower[|lower| - 1].End() == upper[0].addr
    ensures var all, k := lower + upper, |lower| - 1;
            Join(lower, upper)
            == (all[..k + 1] + all[k + 2..])[k := Block(lower[k].addr, lower[k].len + HEADER + upper[0].len)]
  {
    var all, k := lower + upper, |lower| - 1;
    assert all[..k + 1] == lower && all[k + 2..] == upper[1..];
  }

  lemma SeparatedConcat(a: seq<Block>, b: seq<Block>)
    requires Separated(a) && Separated(b)
    requires a != [] && b != [] ==> a[|a| - 1].End() <= b[0].addr
    ensures Separated(a + b)
  {
    var c := a + b;
    forall i, j | 0 <= i < j < |c| ensures Apart(c, i, j) {
      if j < |a| {
        assert Apart(a, i, j);
      } else if |a| <= i {
        assert Apart(b, i - |a|, j - |a|);
      } else {
        assert i < |a| - 1 ==> Apart(a, i, |a| - 1);
        assert |a| < j ==> Apart(b, 0, j - |a|);
      }
    }
  }

  lemma SeparatedSlices(fl: seq<Block>, i: nat)
    requires Separated(fl) && i <= |fl|
    ensures Separated(fl[..i]) && Separated(fl[i..])
  {
    forall a, b | 0 <= a < b < i ensures Apart(fl[..i], a, b) {
      assert Apart(fl, a, b);
    }
    forall a, b | 0 <= a < b < |fl| - i ensures Apart(fl[i..], a, b) {
      assert Apart(fl, i + a, i + b);
    }
  }

  /** The lists a free passes through keep their blocks apart. */
  lemma InsertSeparated(fl: seq<Block>, b: Block)
    requires Canonical(fl) && 1 <= b.addr && 1 <= b.len && Words(b) !! WordsOf(fl)
    ensures var i := Position(fl, b.addr);
            && Separated(fl) && Separated(fl[..i] + [b] + fl[i..]) && Separated(Lower(fl, b) + fl[i..])
            && Lower(fl, b)[|Lower(fl, b)| - 1].len >= 1
  {
    var i := Position(fl, b.addr);
    ReleaseGap(fl, b);
    LowerCanonical(fl, b);
    CanonicalSeparated(fl);
    CanonicalSeparated(Lower(fl, b));
    SeparatedSlices(fl, i);
    SeparatedConcat(Lower(fl, b), fl[i..]);
    SeparatedConcat(fl[..i], [b]);
    SeparatedConcat(fl[..i] + [b], fl[i..]);
  }

  lemma LowerUpperWords(fl: seq<Block>, b: Block)
    ensures WordsOf(Lower(fl, b) + fl[Position(fl, b.addr)..]) == WordsOf(fl) + Words(b)
  {
    LowerWords(fl, b);
    WordsOfOne(b);
    UpperWords(fl, Lower(fl, b), WordsOf([b]), Position(fl, b.addr));
  }

  lemma UpperWords(fl: seq<Block>, lower: seq<Block>, ws: set<nat>, i: nat)
    requires i <= |fl| && WordsOf(lower) == WordsOf(fl[..i]) + ws
    ensures WordsOf(lower + fl[i..]) == WordsOf(fl) + ws
  {
    WordsOfConcat(fl[..i], fl[i..]);
    WordsOfConcat(lower, fl[i..]);
    assert fl == fl[..i] + fl[i..];
  }

  class Heap {
    const mem: array<int>
    var freelist: int
    ghost var free: seq<Block>
    ghost var live: set<Block>
    ghost const memory: set<nat>

    ghost predicate Valid()
      reads this, mem
    {
      && Inv(State(free, live), memory)
      && Linked(mem[..], freelist, free)
      && (forall b :: b in live ==> b.End() <= mem.Length && mem[b.addr] == b.len)
    }

    /** Starts from any well-formed list of blocks laid out in `m`. */
    constructor (m: array<int>, head: int, ghost fl: seq<Block>)
      requires Canonical(fl) && Linked(m[..], head, fl)
      ensures Valid() && mem == m && freelist == head && free == fl && live == {} && memory == WordsOf(fl)
    {
      mem, freelist, free, live, memory := m, head, fl, {}, WordsOf(fl);
    }

    method Kalloc(bytes: nat) returns (address: int)
      requires Valid() && bytes < U32
      modifies this, mem
      ensures Valid()
      ensures State(free, live) == Step(old(State(free, live)), KallocOp(bytes))
      ensures match old(Alloc(free, WordsFor(bytes))).1
              case None => address == NULL
              case Some(b) => address == b.addr + HEADER
      ensures KeptOutside(old(mem[..]), mem[..], WordsOf(old(free)))
    {
      ghost var before, m0 := State(free, live), mem[..];
      StepKeepsInv(before, KallocOp(bytes), memory);
      CanonicalSeparated(free);
      address := TakeFirstFit(((bytes + 3) % U32) / 4, free);
      LiveKept(before, m0, mem[..], memory);
      free, live := Step(before, KallocOp(bytes)).free, Step(before, KallocOp(bytes)).live;
    }

    /** The search, and the split or unlinking of the block found. */
    method TakeFirstFit(desired: nat, ghost fl: seq<Block>) returns (address: int)
      requires Linked(mem[..], freelist, fl) && Separated(fl)
      modifies `freelist, mem
      ensures Linked(mem[..], freelist, Alloc(fl, desired).0)
      ensures match Alloc(fl, desired).1
              case None => address == NULL
              case Some(b) => address == b.addr + HEADER && b.End() <= mem.Length && mem[b.addr] == b.len
      ensures KeptOutside(old(mem[..]), mem[..], WordsOf(fl))
    {
      var pointer := NULL;   // where the link to `block` is kept; NULL for the list head itself
      var block := freelist;
      ghost var i := 0;
      assert fl != [] ==> Node(mem[..], fl, 0);
      while block != NULL && mem[block] < desired
        invariant 0 <= i <= |fl| && block == AddrAt(fl, i)
        invariant i < |fl| ==> Node(mem[..], fl, i)
        invariant pointer == if i == 0 then NULL else fl[i - 1].addr + 1
        invariant forall j :: 0 <= j < i ==> fl[j].len < desired
        decreases |fl| - i
      {
        pointer := block + 1;
        block := mem[pointer];
        i := i + 1;
        assert i < |fl| ==> Node(mem[..], fl, i);
      }
      ghost var m0 := mem[..];
      AllocAt(fl, desired, i);
      if block == NULL {
        return NULL;
      }
      if mem[block] > desired + BLOCKINFO {
        var size := HEADER + desired;
        var fragment := block + HEADER + mem[block] - size;
        LinkedFill(m0, freelist, fl, i, fragment, desired);
        LinkedResize(m0[fragment := desired], freelist, fl, i, fl[i].len - size);
        mem[fragment] := desired;
        mem[block] := mem[block] - size;
        OwnWord(fl, i, fragment);
        OwnWord(fl, i, block);
        KeptTwo(m0, fragment, desired, block, fl[i].len - size, WordsOf(fl));
        assert mem[..] == m0[fragment := desired][block := fl[i].len - size];
        block := fragment;
      } else {
        LinkedRemove(m0, freelist, fl, i);
        if pointer == NULL {
          freelist := mem[block + 1];
          assert mem[..] == m0;
        } else {
          mem[pointer] := mem[block + 1];
          OwnWord(fl, i - 1, pointer);
          assert Apart(fl, i - 1, i) && Node(m0, fl, i - 1);
          KeptOne(m0, pointer, m0[block + 1], WordsOf(fl));
          assert mem[..] == m0[pointer := m0[block + 1]];
        }
      }
      address := block + HEADER;
    }

    method Kfree(address: int)
      requires Valid()
      requires address == NULL || exists b :: b in live && address == b.addr + HEADER && 1 <= b.len
      modifies this, mem
      ensures Valid()
      ensures if address == NULL then unchanged(this) && unchanged(mem) else
                exists b :: b in old(live) && address == b.addr + HEADER && 1 <= b.len
                  && State(free, live) == Step(old(State(free, live)), KfreeOp(b))
                  && KeptOutside(old(mem[..]), mem[..], WordsOf(free))
    {
      if address == NULL {
        return;
      }
      ghost var b :| b in live && address == b.addr + HEADER && 1 <= b.len;
      ghost var before, m0 := State(free, live), mem[..];
      ghost var after := Step(before, KfreeOp(b));
      StepKeepsInv(before, KfreeOp(b), memory);
      ReleaseWords(free, b);
      GiveBack(address - HEADER, free, b);
      free, live := after.free, after.live;
      LiveKept(after, m0, mem[..], memory);
    }

    /** The search for the place of the block, and the merging with either neighbour. */
    method GiveBack(header: int, ghost fl: seq<Block>, ghost b: Block)
      requires Linked(mem[..], freelist, fl) && Canonical(fl) && Words(b) !! WordsOf(fl)
      requires 1 <= b.addr == header && 1 <= b.len && b.End() <= mem.Length && mem[header] == b.len
      modifies `freelist, mem
      ensures Linked(mem[..], freelist, Release(fl, b))
      ensures KeptOutside(old(mem[..]), mem[..], WordsOf(fl) + Words(b))
    {
      InsertSeparated(fl, b);
      LowerUpperWords(fl, b);
      var block := freelist;
      var previous := NULL;
      ghost var i := 0;
      assert fl != [] ==> Node(mem[..], fl, 0);
      while block != NULL && block < header
        invariant 0 <= i <= |fl| && block == AddrAt(fl, i)
        invariant previous == if i == 0 then NULL else fl[i - 1].addr
        invariant i < |fl| ==> Node(mem[..], fl, i)
        invariant forall j :: 0 <= j < i ==> fl[j].addr < header
        decreases |fl| - i
      {
        previous := block;
        block := mem[block + 1];
        i := i + 1;
        assert i < |fl| ==> Node(mem[..], fl, i);
      }
      PositionAt(fl, b.addr, i);
      LowerAsEdit(fl, b, i);
      var used := LinkIn(header, previous, fl, i, b);
      JoinNext(used, block, Lower(fl, b), fl[i..]);
    }

    /** First half of a free: grow the predecessor, or link the block in after it. */
    method LinkIn(header: int, previous: int, ghost fl: seq<Block>, ghost i: nat, ghost b: Block) returns (used: int)
      requires i <= |fl| && previous == if i == 0 then NULL else fl[i - 1].addr
      requires Linked(mem[..], freelist, fl) && Separated(fl) && Separated(fl[..i] + [b] + fl[i..])
      requires 1 <= b.addr == header && 1 <= b.len && b.End() <= mem.Length && mem[header] == b.len
      modifies `freelist, mem
      ensures var joins := i > 0 && fl[i - 1].End() == b.addr;
              && used == (if joins then fl[i - 1].addr else b.addr)
              && Linked(mem[..], freelist,
                        if joins then fl[i - 1 := Block(fl[i - 1].addr, fl[i - 1].len + HEADER + b.len)]
                        else fl[..i] + [b] + fl[i..])
      ensures KeptOutside(old(mem[..]), mem[..], WordsOf(fl) + Words(b))
    {
      ghost var m0, ws := mem[..], WordsOf(fl) + Words(b);
      used := header;
      assert used + 1 in Words(b);
      if previous != NULL {
        assert Node(m0, fl, i - 1);
        OwnWord(fl, i - 1, previous);
        OwnWord(fl, i - 1, previous + 1);
        if previous + HEADER + mem[previous] == used {
          LinkedResize(m0, freelist, fl, i - 1, fl[i - 1].len + HEADER + b.len);
          mem[previous] := mem[previous] + HEADER + mem[used];
          used := previous;
          KeptOne(m0, previous, fl[i - 1].len + HEADER + b.len, ws);
          assert mem[..] == m0[previous := fl[i - 1].len + HEADER + b.len];
        } else {
          LinkedInsert(m0, freelist, fl, i, b);
          mem[used + 1] := mem[previous + 1];
          mem[previous + 1] := used;
          KeptTwo(m0, used + 1, m0[previous + 1], previous + 1, used, ws);
          assert mem[..] == m0[used + 1 := m0[previous + 1]][previous + 1 := used];
        }
      } else {
        LinkedInsert(m0, freelist, fl, i, b);
        mem[used + 1] := freelist;
        KeptOne(m0, used + 1, freelist, ws);
        assert mem[..] == m0[used + 1 := freelist];
        freelist := used;
      }
    }

    /** Second half of a free: absorb the next block if it starts where this one ends. */
    method JoinNext(used: int, block: int, ghost lower: seq<Block>, ghost upper: seq<Block>)
      requires lower != [] && used == lower[|lower| - 1].addr && block == AddrAt(upper, 0)
      requires Separated(lower + upper) && Linked(mem[..], freelist, lower + upper)
      modifies mem
      ensures Linked(mem[..], freelist, Join(lower, upper))
      ensures KeptOutside(old(mem[..]), mem[..], WordsOf(lower + upper))
    {
      ghost var m1, all, k := mem[..], lower + upper, |lower| - 1;
      if block != NULL {
        assert Node(m1, all, k) && Node(m1, all, k + 1);
        if used + HEADER + mem[used] == block {
          ghost var len, rest := lower[k].len + HEADER + upper[0].len, all[..k + 1] + all[k + 2..];
          OwnWord(all, k, used);
          OwnWord(all, k, used + 1);
          LinkedRemove(m1, freelist, all, k + 1);
          RestSeparated(all, k + 1);
          LinkedResize(m1[used + 1 := m1[block + 1]], freelist, rest, k, len);
          JoinAsEdit(lower, upper);
          KeptTwo(m1, used + 1, m1[block + 1], used, len, WordsOf(all));
          mem[used + 1] := mem[block + 1];
          mem[used] := mem[used] + HEADER + mem[block];
          assert mem[..] == m1[used + 1 := m1[block + 1]][used := len];
        }
      }
    }
  }

  lemma RestSeparated(fl: seq<Block>, k: nat)
    requires Separated(fl) && k < |fl|
    ensures Separated(fl[..k] + fl[k + 1..])
  {
    var rest := fl[..k] + fl[k + 1..];
    forall i, j | 0 <= i < j < |rest| ensures Apart(rest, i, j) {
      assert Apart(fl, if i < k then i else i + 1, if j < k then j else j + 1);
    }
  }
}
