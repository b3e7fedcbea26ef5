/**
 Every PCB is in exactly one place, every live process owns a stack of its own, and the node pool
 cannot run out: kept by every system call and interrupt, so queue-status panics are unreachable.
 */
module ProcessInv {
  import opened QueueSpec
  import opened ProcessSpec

  // ---------- who is where ----------

  /** How many entries of a queue carry `d`. */
  function Count(items: seq<Entry>, d: nat): nat {
    if items == [] then 0
    else Count(items[..|items| - 1], d) + if items[|items| - 1].data == d then 1 else 0
  }

  /** How many entries of the first `n` queues carry `d`. */
  function CountAll(all: seq<Queue>, n: nat, d: nat): nat
    requires n <= |all|
  {
    if n == 0 then 0 else CountAll(all, n - 1, d) + Count(all[n - 1].items, d)
  }

  function LengthAll(all: seq<Queue>, n: nat): nat
    requires n <= |all|
  {
    if n == 0 then 0 else LengthAll(all, n - 1) + |all[n - 1].items|
  }

  /** How many live processes own stack `t`. */
  function Owners(pcbs: seq<Pcb>, t: nat): nat {
    if pcbs == [] then 0
    else Owners(pcbs[..|pcbs| - 1], t)
         + if pcbs[|pcbs| - 1].state != FREE && pcbs[|pcbs| - 1].stack == t then 1 else 0
  }

  function Live(pcbs: seq<Pcb>): (n: nat)
    ensures n <= |pcbs|
  {
    if pcbs == [] then 0
    else Live(pcbs[..|pcbs| - 1]) + if pcbs[|pcbs| - 1].state != FREE then 1 else 0
  }

  // ---------- the invariant ----------

  /** The states a process on queue `k` can be in; a killed process stays where it is. */
  predicate StateOn(k: nat, st: ProcState) {
    if k < N_PRIORITIES then st == READY || st == KILLED
    else if k == SLEEP then st == SLEEPING || st == KILLED
    else if k == READING then st == RUNNING || st == KILLED
    else if k == WAITING_Q then st == WAITING || st == KILLED
    else if k == ZOMBIES then st == ZOMBIE || st == KILLED
    else st == FREE
  }

  predicate KeyedByPid(k: nat) {
    k == READING || k == WAITING_Q || k == ZOMBIES
  }

  predicate ItemOk(pcbs: seq<Pcb>, k: nat, e: Entry) {
    && e.data < |pcbs|
    && StateOn(k, pcbs[e.data].state)
    && (KeyedByPid(k) ==> e.key == pcbs[e.data].pid)
  }

  predicate ItemsOk(pcbs: seq<Pcb>, k: nat, items: seq<Entry>) {
    forall i :: 0 <= i < |items| ==> ItemOk(pcbs, k, items[i])
  }

  /** PCB `p` is on exactly one of the nine PCB queues, once, or in hand. */
  predicate OnePlace(all: seq<Queue>, hand: set<nat>, p: nat)
    requires |all| == N_QUEUES
  {
    CountAll(all, PCB_AVAIL + 1, p) + (if p in hand then 1 else 0) == 1
  }

  /** Stack `t` is free, once, or owned by exactly one live process. */
  predicate OneHolder(all: seq<Queue>, pcbs: seq<Pcb>, t: nat)
    requires |all| == N_QUEUES
  {
    Count(all[STACK_AVAIL].items, t) + Owners(pcbs, t) == 1
  }

  predicate PidOk(pcbs: seq<Pcb>, nextPid: nat, p: nat)
    requires p < |pcbs|
  {
    if pcbs[p].state == FREE then pcbs[p] == CLEARED
    else 1 <= pcbs[p].pid < nextPid && pcbs[p].stack < N_STACKS
  }

  predicate PidsDiffer(pcbs: seq<Pcb>, p: nat, r: nat)
    requires p < |pcbs| && r < |pcbs|
  {
    pcbs[p].state != FREE && pcbs[r].state != FREE ==> pcbs[p].pid != pcbs[r].pid
  }

  predicate PidsOk(pcbs: seq<Pcb>, nextPid: nat) {
    && (forall p :: 0 <= p < |pcbs| ==> PidOk(pcbs, nextPid, p))
    && (forall p, r :: 0 <= p < |pcbs| && 0 <= r < |pcbs| && p != r ==> PidsDiffer(pcbs, p, r))
  }

  predicate Kinds(all: seq<Queue>) {
    forall k :: 0 <= k < |all| ==> (all[k].compare, all[k].remover) == QueueKind(k)
  }

  /** The processes in `hand` are on no queue; every other PCB is on exactly one, exactly once. */
  ghost predicate Places(all: seq<Queue>, hand: set<nat>) {
    && |all| == N_QUEUES
    && (forall p :: p in hand ==> p < N_PCBS)
    && (forall p: nat :: p < N_PCBS ==> OnePlace(all, hand, p))
    && LengthAll(all, PCB_AVAIL + 1) + |hand| == N_PCBS
  }

  ghost predicate Stacks(all: seq<Queue>, pcbs: seq<Pcb>) {
    && |all| == N_QUEUES
    && (forall t: nat :: t < N_STACKS ==> OneHolder(all, pcbs, t))
    && (forall i :: 0 <= i < |all[STACK_AVAIL].items| ==> all[STACK_AVAIL].items[i].data < N_STACKS)
    && |all[STACK_AVAIL].items| + Live(pcbs) == N_STACKS
  }

  ghost predicate Items(all: seq<Queue>, pcbs: seq<Pcb>) {
    |all| == N_QUEUES && forall k :: 0 <= k <= PCB_AVAIL ==> ItemsOk(pcbs, k, all[k].items)
  }

  ghost predicate Inv(s: Kernel, hand: set<nat>) {
    && Shape(s)
    && Kinds(s.q.all)
    && s.q.avail + LengthAll(s.q.all, PCB_AVAIL + 1) + |s.q.all[STACK_AVAIL].items| == N_QNODES
    && Places(s.q.all, hand)
    && Stacks(s.q.all, s.pcbs)
    && Items(s.q.all, s.pcbs)
    && PidsOk(s.pcbs, s.nextPid)
  }

  /** Between system calls: the current process alone is on no queue, and is running. */
  ghost predicate Good(s: Kernel) {
    Inv(s, {s.current}) && s.pcbs[s.current].state == RUNNING
  }

  /** The pool always has nodes left for the current process and four more. */
  lemma PoolSuffices(s: Kernel, hand: set<nat>)
    requires Inv(s, hand)
    ensures s.q.avail >= 5
  {}

  // ---------- counting ----------

  lemma {:induction false} CountInsert(items: seq<Entry>, i: nat, e: Entry, d: nat)
    requires i <= |items|
    ensures Count(InsertAt(items, i, e), d) == Count(items, d) + if e.data == d then 1 else 0
    decreases |items|
  {
    var all := InsertAt(items, i, e);
    if i == |items| {
      assert all[..|all| - 1] == items;
    } else {
      assert all[..|all| - 1] == InsertAt(items[..|items| - 1], i, e);
      assert all[|all| - 1] == items[|items| - 1];
      CountInsert(items[..|items| - 1], i, e, d);
    }
  }

  lemma CountRemove(items: seq<Entry>, i: nat, d: nat)
    requires i < |items|
    ensures Count(RemoveAt(items, i), d) + (if items[i].data == d then 1 else 0) == Count(items, d)
  {
    CountInsert(RemoveAt(items, i), i, items[i], d);
    assert InsertAt(RemoveAt(items, i), i, items[i]) == items;
  }

  lemma {:induction false} Counted(items: seq<Entry>, d: nat) returns (i: nat)
    requires Count(items, d) > 0
    ensures i < |items| && items[i].data == d
  {
    var n := |items| - 1;
    if items[n].data == d {
      i := n;
    } else {
      i := Counted(items[..n], d);
    }
  }

  lemma {:induction false} CountAllUpdate(all: seq<Queue>, n: nat, d: nat, k: nat, q: Queue)
    requires n <= |all| && k < |all|
    ensures CountAll(all[k := q], n, d) + (if k < n then Count(all[k].items, d) else 0)
            == CountAll(all, n, d) + (if k < n then Count(q.items, d) else 0)
    ensures LengthAll(all[k := q], n) + (if k < n then |all[k].items| else 0)
            == LengthAll(all, n) + (if k < n then |q.items| else 0)
  {
    if n > 0 {
      CountAllUpdate(all, n - 1, d, k, q);
    }
  }

  lemma {:induction false} CountAllAtLeast(all: seq<Queue>, n: nat, d: nat, k: nat)
    requires k < n <= |all|
    ensures CountAll(all, n, d) >= Count(all[k].items, d)
  {
    if k < n - 1 {
      CountAllAtLeast(all, n - 1, d, k);
    }
  }

  /** The queue and place of something counted. */
  lemma {:induction false} Whereabouts(all: seq<Queue>, n: nat, d: nat) returns (k: nat, i: nat)
    requires n <= |all| && CountAll(all, n, d) > 0
    ensures k < n && i < |all[k].items| && all[k].items[i].data == d
  {
    if Count(all[n - 1].items, d) > 0 {
      k := n - 1;
      i := Counted(all[k].items, d);
    } else {
      k, i := Whereabouts(all, n - 1, d);
    }
  }

  lemma {:induction false} OwnersUpdate(pcbs: seq<Pcb>, p: nat, pcb: Pcb, t: nat)
    requires p < |pcbs|
    ensures Owners(pcbs[p := pcb], t) + (if pcbs[p].state != FREE && pcbs[p].stack == t then 1 else 0)
            == Owners(pcbs, t) + (if pcb.state != FREE && pcb.stack == t then 1 else 0)
    ensures Live(pcbs[p := pcb]) + (if pcbs[p].state != FREE then 1 else 0)
            == Live(pcbs) + (if pcb.state != FREE then 1 else 0)
  {
    var n := |pcbs| - 1;
    if p == n {
      assert pcbs[p := pcb][..n] == pcbs[..n];
    } else {
      assert pcbs[p := pcb][..n] == pcbs[..n][p := pcb];
      OwnersUpdate(pcbs[..n], p, pcb, t);
    }
  }

  // ---------- moving one process ----------

  lemma PlacesAdd(all: seq<Queue>, hand: set<nat>, k: nat, i: nat, e: Entry)
    requires Places(all, hand) && k <= PCB_AVAIL && i <= |all[k].items| && e.data in hand
    ensures var q := all[k].(items := InsertAt(all[k].items, i, e));
            Places(all[k := q], hand - {e.data})
            && LengthAll(all[k := q], PCB_AVAIL + 1) == LengthAll(all, PCB_AVAIL + 1) + 1
  {
    var q := all[k].(items := InsertAt(all[k].items, i, e));
    var all', hand' := all[k := q], hand - {e.data};
    CountAllUpdate(all, PCB_AVAIL + 1, 0, k, q);
    forall p: nat | p < N_PCBS ensures OnePlace(all', hand', p) {
      assert OnePlace(all, hand, p);
      CountAllUpdate(all, PCB_AVAIL + 1, p, k, q);
      CountInsert(all[k].items, i, e, p);
    }
  }

  lemma PlacesTake(all: seq<Queue>, hand: set<nat>, k: nat, i: nat)
    requires Places(all, hand) && k <= PCB_AVAIL && i < |all[k].items| && all[k].items[i].data < N_PCBS
    ensures all[k].items[i].data !in hand
    ensures var q := all[k].(items := RemoveAt(all[k].items, i));
            Places(all[k := q], hand + {all[k].items[i].data})
            && LengthAll(all[k := q], PCB_AVAIL + 1) + 1 == LengthAll(all, PCB_AVAIL + 1)
  {
    var d := all[k].items[i].data;
    var q := all[k].(items := RemoveAt(all[k].items, i));
    var all', hand' := all[k := q], hand + {d};
    OnQueueNotInHand(all, hand, k, i);
    CountAllUpdate(all, PCB_AVAIL + 1, 0, k, q);
    forall p: nat | p < N_PCBS ensures OnePlace(all', hand', p) {
      assert OnePlace(all, hand, p);
      CountAllUpdate(all, PCB_AVAIL + 1, p, k, q);
      CountRemove(all[k].items, i, p);
    }
  }

  /** A process on a queue is not in hand. */
  lemma OnQueueNotInHand(all: seq<Queue>, hand: set<nat>, k: nat, i: nat)
    requires Places(all, hand) && k <= PCB_AVAIL && i < |all[k].items| && all[k].items[i].data < N_PCBS
    ensures all[k].items[i].data !in hand
  {
    var d := all[k].items[i].data;
    assert OnePlace(all, hand, d);
    CountAllAtLeast(all, PCB_AVAIL + 1, d, k);
    CountRemove(all[k].items, i, d);
  }

  /** Taking entry `i` of queue `k` puts that process in hand. */
  lemma TakeInv(s: Kernel, hand: set<nat>, k: nat, i: nat)
    requires Inv(s, hand) && k <= PCB_AVAIL && i < |s.q.all[k].items|
    ensures var p := s.q.all[k].items[i].data;
            && p < N_PCBS && p !in hand && ItemOk(s.pcbs, k, s.q.all[k].items[i])
            && Inv(s.(q := RemoveIndex(s.q, k, i)), hand + {p})
  {
    assert ItemsOk(s.pcbs, k, s.q.all[k].items);
    PlacesTake(s.q.all, hand, k, i);
    var s' := s.(q := RemoveIndex(s.q, k, i));
    forall j | 0 <= j <= PCB_AVAIL ensures ItemsOk(s'.pcbs, j, s'.q.all[j].items) {
      assert ItemsOk(s.pcbs, j, s.q.all[j].items);
    }
    forall t: nat | t < N_STACKS ensures OneHolder(s'.q.all, s'.pcbs, t) {
      assert OneHolder(s.q.all, s.pcbs, t);
    }
  }

  /** Putting a process in hand on a queue that suits its state. */
  lemma GiveInv(s: Kernel, hand: set<nat>, k: nat, i: nat, e: Entry)
    requires Inv(s, hand) && e.data in hand && k <= PCB_AVAIL && i <= |s.q.all[k].items|
    requires ItemOk(s.pcbs, k, e)
    ensures s.q.avail >= 5
    ensures var q := s.q.all[k].(items := InsertAt(s.q.all[k].items, i, e));
            Inv(s.(q := Queues(s.q.all[k := q], s.q.avail - 1)), hand - {e.data})
  {
    PlacesAdd(s.q.all, hand, k, i, e);
    var q := s.q.all[k].(items := InsertAt(s.q.all[k].items, i, e));
    var s' := s.(q := Queues(s.q.all[k := q], s.q.avail - 1));
    forall j | 0 <= j <= PCB_AVAIL ensures ItemsOk(s'.pcbs, j, s'.q.all[j].items) {
      assert ItemsOk(s.pcbs, j, s.q.all[j].items);
    }
    forall t: nat | t < N_STACKS ensures OneHolder(s'.q.all, s'.pcbs, t) {
      assert OneHolder(s.q.all, s.pcbs, t);
    }
  }

  lemma ItemsKept(s: Kernel, hand: set<nat>, p: nat, pcb: Pcb)
    requires Inv(s, hand) && p in hand
    ensures p < N_PCBS && Items(s.q.all, s.pcbs[p := pcb])
  {
    var pcbs' := s.pcbs[p := pcb];
    forall k | 0 <= k <= PCB_AVAIL ensures ItemsOk(pcbs', k, s.q.all[k].items) {
      assert ItemsOk(s.pcbs, k, s.q.all[k].items);
      forall i | 0 <= i < |s.q.all[k].items| ensures ItemOk(pcbs', k, s.q.all[k].items[i]) {
        OnQueueNotInHand(s.q.all, hand, k, i);
      }
    }
  }

  lemma PidsKept(pcbs: seq<Pcb>, nextPid: nat, p: nat, pcb: Pcb)
    requires PidsOk(pcbs, nextPid) && p < |pcbs|
    requires pcb == CLEARED
             || (pcbs[p].state != FREE && pcb.state != FREE && pcb.pid == pcbs[p].pid && pcb.stack == pcbs[p].stack)
    ensures PidsOk(pcbs[p := pcb], nextPid)
  {
    var pcbs' := pcbs[p := pcb];
    assert PidOk(pcbs, nextPid, p);
    forall r | 0 <= r < |pcbs| ensures PidOk(pcbs', nextPid, r) {
      assert PidOk(pcbs, nextPid, r);
    }
    forall r, t | 0 <= r < |pcbs| && 0 <= t < |pcbs| && r != t ensures PidsDiffer(pcbs', r, t) {
      assert PidsDiffer(pcbs, r, t);
    }
  }

  /** A live process in hand can change state, parent and priority. */
  lemma ChangeInv(s: Kernel, hand: set<nat>, p: nat, pcb: Pcb)
    requires Inv(s, hand) && p in hand
    requires s.pcbs[p].state != FREE && pcb.state != FREE && pcb.pid == s.pcbs[p].pid && pcb.stack == s.pcbs[p].stack
    ensures Inv(SetPcb(s, p, pcb), hand)
  {
    ItemsKept(s, hand, p, pcb);
    PidsKept(s.pcbs, s.nextPid, p, pcb);
    OwnersUpdate(s.pcbs, p, pcb, 0);
    var s' := SetPcb(s, p, pcb);
    forall t: nat | t < N_STACKS ensures OneHolder(s'.q.all, s'.pcbs, t) {
      assert OneHolder(s.q.all, s.pcbs, t);
      OwnersUpdate(s.pcbs, p, pcb, t);
    }
  }

  /** The queue a process not in hand is on suits its state. */
  lemma PlaceByState(s: Kernel, hand: set<nat>, p: nat) returns (k: nat, i: nat)
    requires Inv(s, hand) && p < N_PCBS && p !in hand
    ensures k <= PCB_AVAIL && i < |s.q.all[k].items| && s.q.all[k].items[i].data == p
    ensures ItemOk(s.pcbs, k, s.q.all[k].items[i])
  {
    assert OnePlace(s.q.all, hand, p);
    k, i := Whereabouts(s.q.all, PCB_AVAIL + 1, p);
    assert ItemsOk(s.pcbs, k, s.q.all[k].items);
  }

  /** Removal by pid finds the process of that pid. */
  lemma FindByPid(s: Kernel, hand: set<nat>, k: nat, i: nat)
    requires Inv(s, hand) && (k == WAITING_Q || k == ZOMBIES) && i < |s.q.all[k].items|
    ensures var items := s.q.all[k].items;
            var j := Find(items, IfEqual, items[i].key);
            && j < |items| && items[j].data == items[i].data
            && RemoveByKey(s.q, k, items[i].key) == (RemoveIndex(s.q, k, j), Success, items[i].data)
  {
    var items := s.q.all[k].items;
    var j := Find(items, IfEqual, items[i].key);
    assert (s.q.all[k].compare, s.q.all[k].remover) == QueueKind(k);
    assert ItemsOk(s.pcbs, k, items);
    assert j < |items|;
    assert ItemOk(s.pcbs, k, items[i]) && ItemOk(s.pcbs, k, items[j]);
    assert items[j].data != items[i].data ==> PidsDiffer(s.pcbs, items[j].data, items[i].data);
  }

  /** Freeing the stack and the PCB of a process in hand. */
  lemma ReleaseInv(s: Kernel, hand: set<nat>, p: nat)
    requires Inv(s, hand) && p in hand && s.pcbs[p].state != FREE
    ensures StackFree(s, s.pcbs[p].stack).Ok?
    ensures var a := StackFree(s, s.pcbs[p].stack).value;
            var r := PcbFree(a, p);
            && r.Ok? && Inv(r.value, hand - {p})
            && r.value == s.(pcbs := s.pcbs[p := CLEARED], q := r.value.q)
            && forall k :: 0 <= k < PCB_AVAIL ==> r.value.q.all[k] == s.q.all[k]
  {
    PoolSuffices(s, hand);
    var st := s.pcbs[p].stack;
    var a := StackFree(s, st).value;
    var b := PcbFree(a, p).value;
    var e := Entry(p, 0);
    assert b.pcbs == s.pcbs[p := CLEARED];
    AppendIsInsert(s.q.all[STACK_AVAIL].items, Entry(st, 0));
    AppendIsInsert(a.q.all[PCB_AVAIL].items, e);
    assert PidOk(s.pcbs, s.nextPid, p);
    PidsKept(s.pcbs, s.nextPid, p, CLEARED);
    PlacesOfStack(s.q.all, hand, a.q.all[STACK_AVAIL]);
    PlacesAdd(a.q.all, hand, PCB_AVAIL, |a.q.all[PCB_AVAIL].items|, e);
    ItemsKept(s, hand, p, CLEARED);
    forall k | 0 <= k <= PCB_AVAIL ensures ItemsOk(b.pcbs, k, b.q.all[k].items) {
      assert ItemsOk(b.pcbs, k, s.q.all[k].items);
    }
    OwnersUpdate(s.pcbs, p, CLEARED, 0);
    forall t: nat | t < N_STACKS ensures OneHolder(b.q.all, b.pcbs, t) {
      assert OneHolder(s.q.all, s.pcbs, t);
      OwnersUpdate(s.pcbs, p, CLEARED, t);
      CountInsert(s.q.all[STACK_AVAIL].items, |s.q.all[STACK_AVAIL].items|, Entry(st, 0), t);
    }
  }

  lemma AppendIsInsert(items: seq<Entry>, e: Entry)
    ensures InsertAt(items, |items|, e) == items + [e]
  {}

  /** The stack queue is not one of the PCB queues. */
  lemma PlacesOfStack(all: seq<Queue>, hand: set<nat>, q: Queue)
    requires Places(all, hand)
    ensures Places(all[STACK_AVAIL := q], hand)
    ensures LengthAll(all[STACK_AVAIL := q], PCB_AVAIL + 1) == LengthAll(all, PCB_AVAIL + 1)
  {
    CountAllUpdate(all, PCB_AVAIL + 1, 0, STACK_AVAIL, q);
    var all' := all[STACK_AVAIL := q];
    forall p: nat | p < N_PCBS ensures OnePlace(all', hand, p) {
      assert OnePlace(all, hand, p);
      CountAllUpdate(all, PCB_AVAIL + 1, p, STACK_AVAIL, q);
    }
  }

  // ---------- the scheduler ----------

  lemma ScheduleKeeps(s: Kernel, hand: set<nat>, p: nat, prio: nat)
    requires Inv(s, hand) && p in hand && s.pcbs[p].state != FREE
    ensures var r := Schedule(s, p, prio);
            && r.Ok? && Inv(r.value, hand - {p})
            && r.value == s.(pcbs := s.pcbs[p := s.pcbs[p].(state := READY)], q := r.value.q)
  {
    var level := if prio >= N_PRIORITIES then N_PRIORITIES - 1 else prio;
    ChangeInv(s, hand, p, s.pcbs[p].(state := READY));
    var t := SetState(s, p, READY);
    GiveInv(t, hand, level, |t.q.all[level].items|, Entry(p, 0));
    AppendIsInsert(t.q.all[level].items, Entry(p, 0));
  }

  lemma InsertKeeps(s: Kernel, hand: set<nat>, k: nat, e: Entry)
    requires Inv(s, hand) && e.data in hand && k <= PCB_AVAIL && ItemOk(s.pcbs, k, e)
    ensures InsertTo(s.q, k, e).1 == Success && Inv(s.(q := InsertTo(s.q, k, e).0), hand - {e.data})
  {
    GiveInv(s, hand, k, Place(s.q.all[k].items, s.q.all[k].compare, e.key), e);
  }

  lemma TakeReadyKeeps(s: Kernel)
    requires Inv(s, {})
    ensures var r := TakeReady(s);
            if r.Ok? then
              && r.value == s.(q := r.value.q, current := r.value.current)
              && Inv(r.value, {r.value.current})
              && (r.value.pcbs[r.value.current].state == READY || r.value.pcbs[r.value.current].state == KILLED)
            else r.why == AllQueuesEmpty
  {
    var i := FirstReady(s.q.all);
    if i < N_PRIORITIES {
      TakeInv(s, {}, i, 0);
      assert {} + {s.q.all[i].items[0].data} == {s.q.all[i].items[0].data};
    }
  }

  /** The only panic left in `_zombify` is a process without a parent. */
  lemma ZombifyKeeps(s: Kernel)
    requires Inv(s, {s.current}) && (s.pcbs[s.current].state == RUNNING || s.pcbs[s.current].state == KILLED)
    ensures var r := Zombify(s, s.current);
            if r.Ok? then Inv(r.value, {}) else r.why == NoParent
  {
    var p := s.current;
    var hand := {p};
    var parent := PcbFind(s.pcbs, s.pcbs[p].ppid);
    if parent < N_PCBS {
      if s.pcbs[parent].state == WAITING
         && (s.pcbs[parent].waitFor == 0 || s.pcbs[parent].waitFor == s.pcbs[p].pid) {
        WakeParentKeeps(s, parent);
      } else {
        ChangeInv(s, hand, p, s.pcbs[p].(state := ZOMBIE));
        var t := SetState(s, p, ZOMBIE);
        InsertKeeps(t, hand, ZOMBIES, Entry(p, s.pcbs[p].pid));
        assert hand - {p} == {};
      }
    }
  }

  lemma WakeParentKeeps(s: Kernel, parent: nat)
    requires Inv(s, {s.current}) && (s.pcbs[s.current].state == RUNNING || s.pcbs[s.current].state == KILLED)
    requires parent < N_PCBS && s.pcbs[parent].state == WAITING
    ensures var r := WakeParent(s, s.current, s.pcbs[parent].pid);
            && r.Ok? && Inv(r.value, {})
            && r.value.pcbs == s.pcbs[s.current := CLEARED][parent := s.pcbs[parent].(state := READY)]
            && r.value == s.(pcbs := r.value.pcbs, q := r.value.q)
  {
    var p := s.current;
    var k, i := PlaceByState(s, {p}, parent);
    assert k == WAITING_Q;
    FindByPid(s, {p}, k, i);
    var j := Find(s.q.all[k].items, IfEqual, s.pcbs[parent].pid);
    TakeInv(s, {p}, k, j);
    var t := s.(q := RemoveIndex(s.q, k, j));
    ReleaseInv(t, {p} + {parent}, p);
    var a := StackFree(t, t.pcbs[p].stack).value;
    var b := PcbFree(a, p).value;
    assert {p} + {parent} - {p} == {parent};
    ScheduleKeeps(b, {parent}, parent, PRIO_MAXIMUM);
    assert {parent} - {parent} == {};
  }

  /** Dispatching ends with a running process in hand, or with one of two panics. */
  lemma {:induction false} DispatchKeeps(s: Kernel)
    requires Inv(s, {})
    ensures var r := Dispatch(s);
            if r.Ok? then Good(r.value) else r.why == AllQueuesEmpty || r.why == NoParent
    decreases KilledCount(s.pcbs)
  {
    TakeReadyKeeps(s);
    var r := TakeReady(s);
    if r.Ok? {
      var t := r.value;
      if t.pcbs[t.current].state == READY {
        ChangeInv(t, {t.current}, t.current, t.pcbs[t.current].(state := RUNNING));
      } else {
        ZombifyKeeps(t);
        var z := Zombify(t, t.current);
        if z.Ok? {
          ZombifyLowersKilled(t);
          DispatchKeeps(z.value);
        }
      }
    }
  }

  // ---------- every event ----------

  ghost predicate Kept(r: Outcome) {
    if r.Ok? then Good(r.value) else r.why == AllQueuesEmpty || r.why == NoParent
  }

  lemma ForkKeeps(s: Kernel)
    requires Good(s)
    ensures Fork(s).Ok? && Good(Fork(s).value)
    ensures var t, free := Fork(s).value, s.q.all[PCB_AVAIL].items;
            if free == [] then t == s
            else exists stack: nat ::
                   var parent := s.pcbs[s.current];
                   t == s.(q := t.q, nextPid := s.nextPid + 1,
                           pcbs := s.pcbs[free[0].data := Pcb(READY, s.nextPid, parent.pid, parent.prio, stack, 0)])
  {
    var hand := {s.current};
    if s.q.all[PCB_AVAIL].items != [] {
      var child := s.q.all[PCB_AVAIL].items[0].data;
      TakeInv(s, hand, PCB_AVAIL, 0);
      var a := s.(q := RemoveIndex(s.q, PCB_AVAIL, 0));
      StackForEveryPcb(s, hand);
      var parent := s.pcbs[s.current];
      var stack := a.q.all[STACK_AVAIL].items[0].data;
      var pcb := Pcb(READY, s.nextPid, parent.pid, parent.prio, stack, 0);
      assert PidOk(s.pcbs, s.nextPid, s.current);
      NewProcess(a, hand + {child}, child, pcb);
      var b := SetPcb(a.(q := RemoveIndex(a.q, STACK_AVAIL, 0), nextPid := a.nextPid + 1), child, pcb);
      assert PidOk(s.pcbs, s.nextPid, child);
      ScheduleKeeps(b, hand + {child}, child, parent.prio);
      assert hand + {child} - {child} == hand;
      assert Fork(s) == Schedule(b, child, parent.prio);
      assert Fork(s).value.pcbs == s.pcbs[child := pcb];
      var t := Fork(s).value;
      assert t == s.(q := t.q, nextPid := s.nextPid + 1,
                     pcbs := s.pcbs[child := Pcb(READY, s.nextPid, parent.pid, parent.prio, stack, 0)]);
    }
  }

  /** Free stacks and free PCBs are equally many, so a PCB never has to be given back. */
  lemma StackForEveryPcb(s: Kernel, hand: set<nat>)
    requires Inv(s, hand) && s.q.all[PCB_AVAIL].items != []
    ensures s.q.all[STACK_AVAIL].items != []
  {
    TakeInv(s, hand, PCB_AVAIL, 0);
    var free := s.q.all[PCB_AVAIL].items[0].data;
    NotAllLive(s.pcbs, free);
  }

  lemma {:induction false} NotAllLive(pcbs: seq<Pcb>, p: nat)
    requires p < |pcbs| && pcbs[p].state == FREE
    ensures Live(pcbs) < |pcbs|
  {
    var n := |pcbs| - 1;
    if p < n {
      NotAllLive(pcbs[..n], p);
    }
  }

  /** A free PCB in hand, given a fresh pid and the first free stack, comes alive. */
  lemma NewProcess(s: Kernel, hand: set<nat>, p: nat, pcb: Pcb)
    requires Inv(s, hand) && p in hand && s.pcbs[p].state == FREE && s.q.all[STACK_AVAIL].items != []
    requires pcb.state != FREE && pcb.pid == s.nextPid >= 1 && pcb.stack == s.q.all[STACK_AVAIL].items[0].data
    ensures Inv(SetPcb(s.(q := RemoveIndex(s.q, STACK_AVAIL, 0), nextPid := s.nextPid + 1), p, pcb), hand)
  {
    var s' := SetPcb(s.(q := RemoveIndex(s.q, STACK_AVAIL, 0), nextPid := s.nextPid + 1), p, pcb);
    ItemsKept(s, hand, p, pcb);
    PlacesOfStack(s.q.all, hand, s'.q.all[STACK_AVAIL]);
    OwnersUpdate(s.pcbs, p, pcb, 0);
    forall t: nat | t < N_STACKS ensures OneHolder(s'.q.all, s'.pcbs, t) {
      assert OneHolder(s.q.all, s.pcbs, t);
      OwnersUpdate(s.pcbs, p, pcb, t);
      CountRemove(s.q.all[STACK_AVAIL].items, 0, t);
    }
    forall k | 0 <= k <= PCB_AVAIL ensures ItemsOk(s'.pcbs, k, s'.q.all[k].items) {
      assert ItemsOk(s'.pcbs, k, s.q.all[k].items);
    }
    forall r | 0 <= r < |s'.pcbs| ensures PidOk(s'.pcbs, s'.nextPid, r) {
      assert PidOk(s.pcbs, s.nextPid, r);
    }
    forall r, t | 0 <= r < |s'.pcbs| && 0 <= t < |s'.pcbs| && r != t ensures PidsDiffer(s'.pcbs, r, t) {
      assert PidsDiffer(s.pcbs, r, t) && PidOk(s.pcbs, s.nextPid, r) && PidOk(s.pcbs, s.nextPid, t);
    }
  }

  /** The caller, put on a queue that suits its new state, leaves an empty hand for the dispatcher. */
  lemma BlockKeeps(s: Kernel, k: nat, pcb: Pcb, key: nat)
    requires Good(s) && k <= ZOMBIES && StateOn(k, pcb.state) && (KeyedByPid(k) ==> key == pcb.pid)
    requires pcb.pid == s.pcbs[s.current].pid && pcb.stack == s.pcbs[s.current].stack && pcb.state != FREE
    ensures InsertTo(s.q, k, Entry(s.current, key)).1 == Success
    ensures Kept(Block(s, k, pcb, key))
  {
    var hand := {s.current};
    ChangeInv(s, hand, s.current, pcb);
    var t := SetPcb(s, s.current, pcb);
    InsertKeeps(t, hand, k, Entry(s.current, key));
    assert hand - {s.current} == {};
    DispatchKeeps(t.(q := InsertTo(t.q, k, Entry(s.current, key)).0));
  }

  /** The caller, made ready again, competes with the others. */
  lemma RequeueKeeps(s: Kernel, prio: nat)
    requires Inv(s, {s.current}) && s.pcbs[s.current].state != FREE
    ensures Kept(Requeue(s, prio))
  {
    ScheduleKeeps(s, {s.current}, s.current, prio);
    assert {s.current} - {s.current} == {};
    DispatchKeeps(Schedule(s, s.current, prio).value);
  }

  lemma ExecKeeps(s: Kernel, prio: nat)
    requires Good(s)
    ensures Kept(Exec(s, prio))
  {
    var pcb := s.pcbs[s.current].(prio := prio % 256);
    ChangeInv(s, {s.current}, s.current, pcb);
    RequeueKeeps(SetPcb(s, s.current, pcb), prio % 256);
  }

  lemma SerialKeeps(s: Kernel)
    requires Good(s)
    ensures Kept(SerialInput(s))
  {
    if s.q.all[READING].items != [] {
      var p := s.q.all[READING].items[0].data;
      TakeInv(s, {s.current}, READING, 0);
      var t := s.(q := RemoveIndex(s.q, READING, 0));
      ScheduleKeeps(t, {s.current} + {p}, p, s.pcbs[p].prio);
      assert {s.current} + {p} - {p} == {s.current};
    }
  }

  lemma KillKeeps(s: Kernel, pid: nat)
    requires Good(s)
    ensures Kept(Kill(s, pid))
  {
    var p := PcbFind(s.pcbs, pid);
    if p == s.current {
      ChangeInv(s, {p}, p, s.pcbs[p].(state := KILLED));
      RequeueKeeps(SetState(s, p, KILLED), s.pcbs[p].prio);
    } else if p < N_PCBS {
      KillElsewhere(s, p);
    }
  }

  /** A process killed where it stands is still where it was. */
  lemma KillElsewhere(s: Kernel, p: nat)
    requires Good(s) && p < N_PCBS && p != s.current && s.pcbs[p].state != FREE
    ensures Good(SetState(s, p, KILLED))
  {
    var pcb := s.pcbs[p].(state := KILLED);
    var s' := SetPcb(s, p, pcb);
    PidsKept(s.pcbs, s.nextPid, p, pcb);
    OwnersUpdate(s.pcbs, p, pcb, 0);
    forall t: nat | t < N_STACKS ensures OneHolder(s'.q.all, s'.pcbs, t) {
      assert OneHolder(s.q.all, s.pcbs, t);
      OwnersUpdate(s.pcbs, p, pcb, t);
    }
    forall k | 0 <= k <= PCB_AVAIL ensures ItemsOk(s'.pcbs, k, s.q.all[k].items) {
      assert ItemsOk(s.pcbs, k, s.q.all[k].items);
    }
  }

  lemma WaitKeeps(s: Kernel, target: nat)
    requires Good(s)
    ensures Kept(Wait(s, target))
  {
    var p := if target > 0 then PcbFind(s.pcbs, target) else AnyChild(s);
    if p < N_PCBS {
      if s.pcbs[p].state == ZOMBIE {
        ReapKeeps(s, p);
      } else {
        var pcb := s.pcbs[s.current].(state := WAITING, waitFor := target);
        BlockKeeps(s, WAITING_Q, pcb, pcb.pid);
      }
    }
  }

  /** A zombie is on the zombie queue under its own pid, so reaping it cannot fail. */
  lemma ReapKeeps(s: Kernel, p: nat)
    requires Good(s) && p < N_PCBS && s.pcbs[p].state == ZOMBIE
    ensures var r := Reap(s, s.pcbs[p].pid);
            && r.Ok? && Good(r.value)
            && r.value.pcbs == s.pcbs[p := CLEARED] && r.value.current == s.current
  {
    var hand := {s.current};
    var k, i := PlaceByState(s, hand, p);
    FindByPid(s, hand, k, i);
    var j := Find(s.q.all[k].items, IfEqual, s.pcbs[p].pid);
    TakeInv(s, hand, k, j);
    ReleaseInv(s.(q := RemoveIndex(s.q, k, j)), hand + {p}, p);
    assert hand + {p} - {p} == hand;
  }

  lemma ReparentInv(s: Kernel, hand: set<nat>, pid: nat)
    requires Inv(s, hand) && pid >= 1
    ensures Inv(s.(pcbs := Reparent(s.pcbs, pid)), hand)
  {
    var pcbs' := Reparent(s.pcbs, pid);
    forall p | 0 <= p < |pcbs'| ensures PidOk(pcbs', s.nextPid, p) {
      assert PidOk(s.pcbs, s.nextPid, p);
    }
    forall p, r | 0 <= p < |pcbs'| && 0 <= r < |pcbs'| && p != r ensures PidsDiffer(pcbs', p, r) {
      assert PidsDiffer(s.pcbs, p, r);
    }
    forall k | 0 <= k <= PCB_AVAIL ensures ItemsOk(pcbs', k, s.q.all[k].items) {
      assert ItemsOk(s.pcbs, k, s.q.all[k].items);
    }
    ReparentOwners(s.pcbs, pcbs', 0);
    forall t: nat | t < N_STACKS ensures OneHolder(s.q.all, pcbs', t) {
      assert OneHolder(s.q.all, s.pcbs, t);
      ReparentOwners(s.pcbs, pcbs', t);
    }
  }

  /** States and stacks alone decide who owns what. */
  lemma {:induction false} ReparentOwners(pcbs: seq<Pcb>, pcbs': seq<Pcb>, t: nat)
    requires |pcbs| == |pcbs'|
    requires forall i :: 0 <= i < |pcbs| ==> pcbs[i].state == pcbs'[i].state && pcbs[i].stack == pcbs'[i].stack
    ensures Owners(pcbs, t) == Owners(pcbs', t) && Live(pcbs) == Live(pcbs')
  {
    if pcbs != [] {
      ReparentOwners(pcbs[..|pcbs| - 1], pcbs'[..|pcbs| - 1], t);
    }
  }

  lemma ExitKeeps(s: Kernel)
    requires Good(s)
    ensures Kept(Exit(s))
  {
    assert PidOk(s.pcbs, s.nextPid, s.current);
    ReparentInv(s, {s.current}, s.pcbs[s.current].pid);
    var t := s.(pcbs := Reparent(s.pcbs, s.pcbs[s.current].pid));
    ZombifyKeeps(t);
    var u := Zombify(t, t.current);
    if u.Ok? {
      DispatchKeeps(u.value);
    }
  }

  lemma {:induction false} WakeSleepersKeeps(s: Kernel)
    requires Good(s)
    ensures WakeSleepers(s).Ok? && Good(WakeSleepers(s).value)
    ensures WakeSleepers(s).value.current == s.current
    decreases |s.q.all[SLEEP].items|
  {
    var items := s.q.all[SLEEP].items;
    var i := Find(items, s.q.all[SLEEP].remover, s.time);
    if i < |items| {
      var p := items[i].data;
      TakeInv(s, {s.current}, SLEEP, i);
      var t := s.(q := RemoveIndex(s.q, SLEEP, i));
      ScheduleKeeps(t, {s.current} + {p}, p, PRIO_MAXIMUM);
      assert {s.current} + {p} - {p} == {s.current};
      WakeSleepersKeeps(Schedule(t, p, PRIO_MAXIMUM).value);
    }
  }

  lemma ClockInv(s: Kernel, time: nat)
    requires Good(s)
    ensures Good(s.(time := time))
  {}

  lemma SleepKeeps(s: Kernel, ticks: nat)
    requires Good(s)
    ensures Kept(Sleep(s, ticks))
  {
    var pcb, key := s.pcbs[s.current].(state := SLEEPING), Add32(s.time, ticks);
    BlockKeeps(s, SLEEP, pcb, key);
  }

  lemma ReadcKeeps(s: Kernel)
    requires Good(s)
    ensures Kept(Readc(s))
  {
    if s.input == 0 {
      BlockKeeps(s, READING, s.pcbs[s.current], s.pcbs[s.current].pid);
    }
  }

  lemma SetPrioKeeps(s: Kernel, prio: nat)
    requires Good(s)
    ensures Good(SetPcb(s, s.current, s.pcbs[s.current].(prio := prio % 256)))
  {
    ChangeInv(s, {s.current}, s.current, s.pcbs[s.current].(prio := prio % 256));
  }

  lemma TickKeeps(s: Kernel)
    requires Good(s)
    ensures Kept(Tick(s))
  {
    var t := s.(time := Add32(s.time, 1));
    ClockInv(s, t.time);
    WakeSleepersKeeps(t);
    var u := WakeSleepers(t).value;
    RequeueKeeps(u, u.pcbs[u.current].prio);
  }

  /** The step theorem: the invariant is kept, and only two of the panics can happen. */
  lemma StepKeeps(s: Kernel, e: Event)
    requires Good(s)
    ensures Kept(Step(s, e))
  {
    match e
    case ForkCall => ForkKeeps(s);
    case ExecCall(prio) => ExecKeeps(s, prio);
    case SleepCall(ticks) => SleepKeeps(s, ticks);
    case ReadcCall => ReadcKeeps(s);
    case WaitCall(target) => WaitKeeps(s, target);
    case ExitCall => ExitKeeps(s);
    case KillCall(pid) => KillKeeps(s, pid);
    case SetPrioCall(prio) => SetPrioKeeps(s, prio);
    case SetTimeCall(time) => ClockInv(s, Add32(time, 0));
    case ClockTick => TickKeeps(s);
    case SerialChar => SerialKeeps(s);
  }

  // ---------- runs from boot ----------

  lemma InitialGood()
    ensures Good(Initial())
  {
    var s := Initial();
    var all := s.q.all;
    NumberedCount(1, N_PCBS, 0);
    EmptyBelow(all, PCB_AVAIL, 0);
    assert all[PCB_AVAIL] == InitialQueue(PCB_AVAIL) && all[STACK_AVAIL] == InitialQueue(STACK_AVAIL);
    forall p: nat | p < N_PCBS ensures OnePlace(all, {s.current}, p) {
      NumberedCount(1, N_PCBS, p);
      EmptyBelow(all, PCB_AVAIL, p);
    }
    OneLive(s.pcbs, 0);
    forall t: nat | t < N_STACKS ensures OneHolder(all, s.pcbs, t) {
      NumberedCount(1, N_STACKS, t);
      OneLive(s.pcbs, t);
    }
    forall p, r | 0 <= p < |s.pcbs| && 0 <= r < |s.pcbs| && p != r ensures PidsDiffer(s.pcbs, p, r) {}
    assert |{s.current}| == 1;
  }

  lemma {:induction false} NumberedCount(lo: nat, hi: nat, d: nat)
    requires lo <= hi
    ensures Count(Numbered(lo, hi), d) == (if lo <= d < hi then 1 else 0)
    decreases hi - lo
  {
    if lo < hi {
      assert Numbered(lo, hi)[..hi - lo - 1] == Numbered(lo, hi - 1);
      NumberedCount(lo, hi - 1, d);
    }
  }

  lemma {:induction false} EmptyBelow(all: seq<Queue>, n: nat, d: nat)
    requires n <= |all| && forall k :: 0 <= k < n ==> all[k].items == []
    ensures CountAll(all, n, d) == 0 && LengthAll(all, n) == 0
  {
    if n > 0 {
      EmptyBelow(all, n - 1, d);
    }
  }

  lemma {:induction false} OneLive(pcbs: seq<Pcb>, t: nat)
    requires pcbs != [] && pcbs[0].state != FREE && pcbs[0].stack == 0
    requires forall i :: 0 < i < |pcbs| ==> pcbs[i].state == FREE
    ensures Owners(pcbs, t) == (if t == 0 then 1 else 0) && Live(pcbs) == 1
  {
    if |pcbs| > 1 {
      OneLive(pcbs[..|pcbs| - 1], t);
    }
  }

  lemma {:induction false} RunKeeps(s: Kernel, events: seq<Event>)
    requires Good(s)
    ensures Kept(Run(s, events))
    decreases |events|
  {
    if events != [] {
      StepKeeps(s, events[0]);
      var r := Step(s, events[0]);
      if r.Ok? {
        RunKeeps(r.value, events[1..]);
      }
    }
  }

  /**
   From boot, whatever the processes and devices do short of yielding: each PCB is in one place,
   stacks are not shared, the node pool has nodes to spare, and no queue operation panics.
   */
  lemma PartitionHolds(events: seq<Event>)
    ensures var r := Run(Initial(), events);
            && (r.Ok? ==> Good(r.value) && r.value.q.avail >= 5)
            && (r.Panicked? ==> r.why == AllQueuesEmpty || r.why == NoParent)
  {
    InitialGood();
    RunKeeps(Initial(), events);
  }
}
