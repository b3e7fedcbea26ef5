/**
 What each call and interrupt does to the whole kernel, in plain numbers: on which queue a process comes to
 stand and where, its priority and state, the clock and the wake-up time. Where a step ends in the dispatcher
 this is said of the kernel in which the dispatcher starts.
 */
module ProcessEffect {
  import opened Common
  import opened QueueSpec
  import opened ProcessSpec
  import opened ProcessInv
  import opened ProcessLife
  import opened ProcessOrder
  import opened ProcessFamily
  import opened ProcessTurn

  // ---------- where processes come to stand ----------

  /** Queue `k` has process `p` behind all others if it is the ready queue of this priority, and is as it was if not. */
  predicate StandsLast(s: Kernel, u: Kernel, p: nat, prio: nat, k: nat)
    requires Shape(s) && Shape(u) && k < N_QUEUES
  {
    u.q.all[k] == s.q.all[k].(items := s.q.all[k].items
                                       + if k == (if prio < 4 then prio else 3) then [Entry(p, 0)] else [])
  }

  /**
   Process `p` stands last on the ready queue of its priority, or on queue 3 if that is past 3; no other queue
   changes.
   */
  ghost predicate LastOn(s: Kernel, u: Kernel, p: nat, prio: nat)
    requires Shape(s) && Shape(u)
  {
    forall k :: 0 <= k < N_QUEUES ==> StandsLast(s, u, p, prio, k)
  }

  lemma ScheduleStands(s: Kernel, p: nat, prio: nat)
    requires Shape(s) && p < N_PCBS && Schedule(s, p, prio).Ok?
    ensures var u := Schedule(s, p, prio).value;
            LastOn(s, u, p, prio) && u == s.(pcbs := s.pcbs[p := s.pcbs[p].(state := READY)], q := u.q)
  {
    var u := Schedule(s, p, prio).value;
    forall k | 0 <= k < N_QUEUES ensures StandsLast(s, u, p, prio, k) {
      assert s.q.all[k].items + [] == s.q.all[k].items;
    }
  }

  /** The entry goes on queue `k` before the first with a greater key; no other queue changes. */
  ghost predicate FiledOn(s: Kernel, u: Kernel, k: nat, e: Entry)
    requires Shape(s) && Shape(u) && k < N_QUEUES
  {
    && (exists i :: 0 <= i <= |s.q.all[k].items| && FiledAt(s.q.all[k].items, u.q.all[k].items, i, e))
    && (forall j :: 0 <= j < N_QUEUES && j != k ==> u.q.all[j] == s.q.all[j])
  }

  predicate FiledAt(before: seq<Entry>, after: seq<Entry>, i: nat, e: Entry)
    requires i <= |before|
  {
    && after == before[..i] + [e] + before[i..]
    && (forall j :: 0 <= j < i ==> before[j].key <= e.key) && (i < |before| ==> before[i].key > e.key)
  }

  lemma EnqueuedFiled(s: Kernel, k: nat, pcb: Pcb, key: nat) returns (u: Kernel)
    requires Good(s) && SLEEP <= k <= ZOMBIES && StateOn(k, pcb.state) && (KeyedByPid(k) ==> key == pcb.pid)
    requires pcb.pid == s.pcbs[s.current].pid && pcb.stack == s.pcbs[s.current].stack && pcb.state != FREE
    ensures InsertTo(s.q, k, Entry(s.current, key)).1 == Success
    ensures Inv(u, {}) && Block(s, k, pcb, key) == Dispatch(u) && FiledOn(s, u, k, Entry(s.current, key))
    ensures u == s.(pcbs := s.pcbs[s.current := pcb], q := u.q)
  {
    EnqueuedKeeps(s, k, pcb, key);
    assert (s.q.all[k].compare, s.q.all[k].remover) == QueueKind(k);
    u := Enqueued(s, k, pcb, key).value;
    InsertFiled(s, u, k, Entry(s.current, key));
  }

  lemma InsertFiled(s: Kernel, u: Kernel, k: nat, e: Entry)
    requires Shape(s) && Shape(u) && k < N_QUEUES && s.q.all[k].compare == UintAsc
    requires InsertTo(s.q, k, e) == (u.q, Success)
    ensures FiledOn(s, u, k, e)
  {
    assert FiledAt(s.q.all[k].items, u.q.all[k].items, Place(s.q.all[k].items, UintAsc, e.key), e);
  }

  // ---------- the calls ----------

  /** Exec stores the low 8 bits of the priority and puts the caller last on the ready queue for them. */
  lemma ExecEffect(s: Kernel, prio: nat) returns (u: Kernel)
    requires Good(s)
    ensures Inv(u, {}) && Exec(s, prio) == Dispatch(u) && LastOn(s, u, s.current, prio % 256)
    ensures u == s.(pcbs := s.pcbs[s.current := s.pcbs[s.current].(prio := prio % 256, state := READY)], q := u.q)
  {
    var a := SetPcb(s, s.current, s.pcbs[s.current].(prio := prio % 256));
    ChangeInv(s, {s.current}, s.current, a.pcbs[s.current]);
    RequeuedKeeps(a, prio % 256);
    ScheduleStands(a, s.current, prio % 256);
    u := Schedule(a, s.current, prio % 256).value;
    forall k | 0 <= k < N_QUEUES ensures StandsLast(s, u, s.current, prio % 256, k) {
      assert StandsLast(a, u, s.current, prio % 256, k);
    }
  }

  /** The queues after a fork: PCB and stack are the first free ones; the child stands last at its parent's priority. */
  predicate Forked(s: Kernel, t: Kernel, child: nat, k: nat)
    requires Shape(s) && Shape(t) && k < N_QUEUES && s.q.all[PCB_AVAIL].items != [] && s.q.all[STACK_AVAIL].items != []
  {
    var items := s.q.all[k].items;
    t.q.all[k].items == if k == PCB_AVAIL || k == STACK_AVAIL then items[1..]
                        else items + if k == (if s.pcbs[s.current].prio < 4 then s.pcbs[s.current].prio else 3)
                                     then [Entry(child, 0)] else []
  }

  /** Fork makes a ready child of the caller, with the next pid and the caller's priority, or does nothing. */
  lemma ForkEffect(s: Kernel) returns (t: Kernel)
    requires Good(s)
    ensures Fork(s) == Ok(t) && Good(t)
    ensures s.q.all[PCB_AVAIL].items == [] ==> t == s
    ensures s.q.all[PCB_AVAIL].items != [] ==>
              && s.q.all[STACK_AVAIL].items != []
              && var child, stack := s.q.all[PCB_AVAIL].items[0].data, s.q.all[STACK_AVAIL].items[0].data;
                 var me := s.current;
                 && child < N_PCBS && child != me
                 && t.pcbs == s.pcbs[child := Pcb(READY, s.nextPid, s.pcbs[me].pid, s.pcbs[me].prio, stack, 0)]
                 && t.nextPid == s.nextPid + 1 && t == s.(pcbs := t.pcbs, q := t.q, nextPid := t.nextPid)
                 && forall k :: 0 <= k < N_QUEUES ==> Forked(s, t, child, k)
  {
    ForkKeeps(s);
    t := Fork(s).value;
    if s.q.all[PCB_AVAIL].items != [] {
      StackForEveryPcb(s, {s.current});
      TakeInv(s, {s.current}, PCB_AVAIL, 0);
      var child := s.q.all[PCB_AVAIL].items[0].data;
      forall k | 0 <= k < N_QUEUES ensures Forked(s, t, child, k) {
        assert s.q.all[k].items != [] ==> RemoveAt(s.q.all[k].items, 0) == s.q.all[k].items[1..];
        assert s.q.all[k].items + [] == s.q.all[k].items;
      }
    }
  }

  /** Sleep files the caller under the time it is to wake. */
  lemma SleepEffect(s: Kernel, ticks: nat) returns (u: Kernel)
    requires Good(s)
    ensures Inv(u, {}) && Sleep(s, ticks) == Dispatch(u)
    ensures FiledOn(s, u, SLEEP, Entry(s.current, (s.time + ticks) % 0x1_0000_0000))
    ensures u == s.(pcbs := s.pcbs[s.current := s.pcbs[s.current].(state := SLEEPING)], q := u.q)
  {
    Sum32(s.time, ticks);
    u := SleepFiles(s, ticks, Add32(s.time, ticks));
  }

  lemma SleepFiles(s: Kernel, ticks: nat, key: nat) returns (u: Kernel)
    requires Good(s) && key == Add32(s.time, ticks)
    ensures Inv(u, {}) && Sleep(s, ticks) == Dispatch(u) && FiledOn(s, u, SLEEP, Entry(s.current, key))
    ensures u == s.(pcbs := s.pcbs[s.current := s.pcbs[s.current].(state := SLEEPING)], q := u.q)
  {
    var pcb := s.pcbs[s.current].(state := SLEEPING);
    u := EnqueuedFiled(s, SLEEP, pcb, key);
    SleepIs(s, ticks, pcb, key);
  }

  lemma Sum32(a: nat, b: nat)
    ensures Add32(a, b) == (a + b) % 0x1_0000_0000
  {}

  lemma SleepIs(s: Kernel, ticks: nat, pcb: Pcb, key: nat)
    requires Shape(s) && key == Add32(s.time, ticks) && pcb == s.pcbs[s.current].(state := SLEEPING)
    requires InsertTo(s.q, SLEEP, Entry(s.current, key)).1 == Success
    ensures Sleep(s, ticks) == Block(s, SLEEP, pcb, key)
  {}

  /** A read takes one from the buffered characters. */
  lemma ReadcTakes(s: Kernel)
    requires Good(s) && s.input > 0
    ensures Readc(s) == Ok(s.(input := s.input - 1))
  {}

  /** With none buffered the caller, still RUNNING, waits in the order of pids. */
  lemma ReadcWaits(s: Kernel) returns (u: Kernel)
    requires Good(s) && s.input == 0
    ensures Inv(u, {}) && Readc(s) == Dispatch(u) && u == s.(q := u.q)
    ensures FiledOn(s, u, READING, Entry(s.current, s.pcbs[s.current].pid))
  {
    u := EnqueuedFiled(s, READING, s.pcbs[s.current], s.pcbs[s.current].pid);
    assert s.pcbs[s.current := s.pcbs[s.current]] == s.pcbs;
  }

  /** The queues after process `z` was reaped: its entry gone, its PCB and stack behind the free ones. */
  predicate Reaped(s: Kernel, t: Kernel, z: nat, i: nat, k: nat)
    requires Shape(s) && Shape(t) && z < N_PCBS && k < N_QUEUES && i < |s.q.all[ZOMBIES].items|
  {
    var items := s.q.all[k].items;
    t.q.all[k].items == if k == ZOMBIES then items[..i] + items[i + 1..]
                        else if k == PCB_AVAIL then items + [Entry(z, 0)]
                        else if k == STACK_AVAIL then items + [Entry(s.pcbs[z].stack, 0)]
                        else items
  }

  /** A wait for a process that is not there does nothing. */
  lemma WaitFails(s: Kernel, target: nat)
    requires Good(s) && target > 0 && forall p :: 0 <= p < N_PCBS ==> s.pcbs[p].state == FREE || s.pcbs[p].pid != target
    ensures Wait(s, target) == Ok(s)
  {}

  /** A wait that settles on a zombie takes it away. */
  lemma WaitReaps(s: Kernel, target: nat, z: nat) returns (t: Kernel, i: nat)
    requires Good(s) && z < N_PCBS && s.pcbs[z].state == ZOMBIE
    requires if target > 0 then s.pcbs[z].pid == target else AnyChild(s) == z
    ensures Wait(s, target) == Ok(t) && Good(t)
    ensures i < |s.q.all[ZOMBIES].items| && s.q.all[ZOMBIES].items[i].data == z
    ensures t == s.(pcbs := s.pcbs[z := Pcb(FREE, 0, 0, 0, 0, 0)], q := t.q)
    ensures forall k :: 0 <= k < N_QUEUES ==> Reaped(s, t, z, i, k)
  {
    if target > 0 {
      SamePid(s.pcbs, s.nextPid, PcbFind(s.pcbs, target), z);
    }
    assert WaitedFor(s, target) == z;
    t, i := ReapEffect(s, z);
  }

  lemma ReapEffect(s: Kernel, z: nat) returns (t: Kernel, i: nat)
    requires Good(s) && z < N_PCBS && s.pcbs[z].state == ZOMBIE
    ensures Reap(s, s.pcbs[z].pid) == Ok(t) && Good(t)
    ensures i < |s.q.all[ZOMBIES].items| && s.q.all[ZOMBIES].items[i].data == z
    ensures t == s.(pcbs := s.pcbs[z := Pcb(FREE, 0, 0, 0, 0, 0)], q := t.q)
    ensures forall k :: 0 <= k < N_QUEUES ==> Reaped(s, t, z, i, k)
  {
    ReapKeeps(s, z);
    t := Reap(s, s.pcbs[z].pid).value;
    var k;
    k, i := PlaceByState(s, {s.current}, z);
    FindByPid(s, {s.current}, k, i);
    i := Find(s.q.all[ZOMBIES].items, IfEqual, s.pcbs[z].pid);
    assert (s.q.all[ZOMBIES].compare, s.q.all[ZOMBIES].remover) == QueueKind(ZOMBIES);
  }

  /** Otherwise the caller waits under its own pid, and remembers for whom. */
  lemma WaitEffect(s: Kernel, target: nat, p: nat) returns (u: Kernel)
    requires Good(s) && p < N_PCBS && s.pcbs[p].state != ZOMBIE
    requires if target > 0 then s.pcbs[p].state != FREE && s.pcbs[p].pid == target else AnyChild(s) == p
    ensures Inv(u, {}) && Wait(s, target) == Dispatch(u)
    ensures FiledOn(s, u, WAITING_Q, Entry(s.current, s.pcbs[s.current].pid))
    ensures u == s.(pcbs := s.pcbs[s.current := s.pcbs[s.current].(state := WAITING, waitFor := target)], q := u.q)
  {
    if target > 0 {
      SamePid(s.pcbs, s.nextPid, PcbFind(s.pcbs, target), p);
    }
    WaitBlocks(s, target);
    var pcb := s.pcbs[s.current].(state := WAITING, waitFor := target);
    u := EnqueuedFiled(s, WAITING_Q, pcb, pcb.pid);
  }

  /** A child of the caller is handed to init, process 1. */
  function HandedOn(s: Kernel, p: nat): Pcb
    requires Shape(s) && p < N_PCBS
  {
    if s.pcbs[p].ppid == s.pcbs[s.current].pid then s.pcbs[p].(ppid := 1) else s.pcbs[p]
  }

  /** The process that is told of the caller's exit: its parent, or init for a process that is its own parent. */
  predicate IsTold(s: Kernel, w: nat)
    requires Shape(s)
  {
    w < N_PCBS && s.pcbs[w].state != FREE && s.pcbs[w].pid == HandedOn(s, s.current).ppid
  }

  predicate WaitsForCaller(s: Kernel, w: nat)
    requires Shape(s) && w < N_PCBS
  {
    s.pcbs[w].state == WAITING && (s.pcbs[w].waitFor == 0 || s.pcbs[w].waitFor == s.pcbs[s.current].pid)
  }

  /** The queues after the caller went: parent `w`, entry `i` of the waiting ones, is last on ready queue 0. */
  predicate Released(s: Kernel, u: Kernel, w: nat, i: nat, k: nat)
    requires Shape(s) && Shape(u) && k < N_QUEUES && i < |s.q.all[WAITING_Q].items|
  {
    var items := s.q.all[k].items;
    u.q.all[k].items == if k == WAITING_Q then items[..i] + items[i + 1..]
                        else if k == 0 then items + [Entry(w, 0)]
                        else if k == PCB_AVAIL then items + [Entry(s.current, 0)]
                        else if k == STACK_AVAIL then items + [Entry(s.pcbs[s.current].stack, 0)]
                        else items
  }

  /** An exit for which a parent waits frees PCB and stack and makes the parent ready, at the highest priority. */
  lemma ExitWakes(s: Kernel, w: nat) returns (u: Kernel, i: nat)
    requires Good(s) && IsTold(s, w) && WaitsForCaller(s, w)
    ensures Inv(u, {}) && Exit(s) == Dispatch(u) && u == s.(pcbs := u.pcbs, q := u.q)
    ensures forall p :: 0 <= p < N_PCBS ==>
              u.pcbs[p] == if p == s.current then Pcb(FREE, 0, 0, 0, 0, 0)
                           else if p == w then HandedOn(s, p).(state := READY) else HandedOn(s, p)
    ensures i < |s.q.all[WAITING_Q].items| && s.q.all[WAITING_Q].items[i].data == w
    ensures forall k :: 0 <= k < N_QUEUES ==> Released(s, u, w, i, k)
  {
    var t := Handing(s, w);
    assert t.pcbs[w] == HandedOn(s, w);
    u, i := ParentWoken(t, w);
    forall k | 0 <= k < N_QUEUES ensures Released(s, u, w, i, k) {
      assert Released(t, u, w, i, k);
    }
  }

  /** An exit for which nobody waits leaves a zombie, filed under its pid. */
  lemma ExitLeaves(s: Kernel, w: nat) returns (u: Kernel)
    requires Good(s) && IsTold(s, w) && !WaitsForCaller(s, w)
    ensures Inv(u, {}) && Exit(s) == Dispatch(u) && u == s.(pcbs := u.pcbs, q := u.q)
    ensures forall p :: 0 <= p < N_PCBS ==>
              u.pcbs[p] == if p == s.current then HandedOn(s, p).(state := ZOMBIE) else HandedOn(s, p)
    ensures FiledOn(s, u, ZOMBIES, Entry(s.current, s.pcbs[s.current].pid))
  {
    var t := Handing(s, w);
    u := ZombieFiled(t, w);
  }

  /** The caller's children handed on. */
  lemma Handing(s: Kernel, w: nat) returns (t: Kernel)
    requires Good(s) && IsTold(s, w)
    ensures t == s.(pcbs := t.pcbs) && Inv(t, {t.current}) && t.pcbs[t.current].state == RUNNING
    ensures forall p :: 0 <= p < N_PCBS ==> t.pcbs[p] == HandedOn(s, p)
    ensures PcbFind(t.pcbs, t.pcbs[t.current].ppid) == w
    ensures Zombify(t, t.current).Ok? ==> Exit(s) == Dispatch(Zombify(t, t.current).value)
  {
    assert PidOk(s.pcbs, s.nextPid, s.current);
    ReparentInv(s, {s.current}, s.pcbs[s.current].pid);
    t := s.(pcbs := Reparent(s.pcbs, s.pcbs[s.current].pid));
    SamePid(t.pcbs, t.nextPid, PcbFind(t.pcbs, t.pcbs[t.current].ppid), w);
    ExitIs(s, t, Zombify(t, t.current));
  }

  lemma ParentWoken(t: Kernel, w: nat) returns (u: Kernel, i: nat)
    requires Inv(t, {t.current}) && t.pcbs[t.current].state == RUNNING && w < N_PCBS && WaitsForCaller(t, w)
    requires PcbFind(t.pcbs, t.pcbs[t.current].ppid) == w
    ensures Zombify(t, t.current) == Ok(u) && Inv(u, {}) && u == t.(pcbs := u.pcbs, q := u.q)
    ensures u.pcbs == t.pcbs[t.current := Pcb(FREE, 0, 0, 0, 0, 0)][w := t.pcbs[w].(state := READY)]
    ensures i < |t.q.all[WAITING_Q].items| && t.q.all[WAITING_Q].items[i].data == w
    ensures forall k :: 0 <= k < N_QUEUES ==> Released(t, u, w, i, k)
  {
    WakeParentKeeps(t, w);
    u := WakeParent(t, t.current, t.pcbs[w].pid).value;
    var k;
    k, i := PlaceByState(t, {t.current}, w);
    FindByPid(t, {t.current}, k, i);
    i := Find(t.q.all[WAITING_Q].items, IfEqual, t.pcbs[w].pid);
    assert (t.q.all[WAITING_Q].compare, t.q.all[WAITING_Q].remover) == QueueKind(WAITING_Q);
  }

  lemma ZombieFiled(t: Kernel, w: nat) returns (u: Kernel)
    requires Inv(t, {t.current}) && t.pcbs[t.current].state == RUNNING && w < N_PCBS && !WaitsForCaller(t, w)
    requires PcbFind(t.pcbs, t.pcbs[t.current].ppid) == w
    ensures Zombify(t, t.current) == Ok(u) && Inv(u, {}) && u == t.(pcbs := u.pcbs, q := u.q)
    ensures u.pcbs == t.pcbs[t.current := t.pcbs[t.current].(state := ZOMBIE)]
    ensures FiledOn(t, u, ZOMBIES, Entry(t.current, t.pcbs[t.current].pid))
  {
    ZombifyKeeps(t);
    assert (t.q.all[ZOMBIES].compare, t.q.all[ZOMBIES].remover) == QueueKind(ZOMBIES);
    PoolSuffices(t, {t.current});
    u := Zombify(t, t.current).value;
    InsertFiled(SetState(t, t.current, ZOMBIE), u, ZOMBIES, Entry(t.current, t.pcbs[t.current].pid));
  }

  /** Kill marks its target where it stands. */
  lemma KillMarks(s: Kernel, pid: nat, p: nat)
    requires Good(s) && p < N_PCBS && p != s.current && s.pcbs[p].state != FREE && s.pcbs[p].pid == pid
    ensures Kill(s, pid) == Ok(s.(pcbs := s.pcbs[p := s.pcbs[p].(state := KILLED)]))
  {
    SamePid(s.pcbs, s.nextPid, PcbFind(s.pcbs, pid), p);
  }

  /** The caller itself, killed, stands last at its priority, READY. */
  lemma KillSelf(s: Kernel) returns (u: Kernel)
    requires Good(s)
    ensures Inv(u, {}) && Kill(s, s.pcbs[s.current].pid) == Dispatch(u)
    ensures LastOn(s, u, s.current, s.pcbs[s.current].prio)
    ensures u == s.(pcbs := s.pcbs[s.current := s.pcbs[s.current].(state := READY)], q := u.q)
  {
    SelfKillSurvives(s);
    var prio := s.pcbs[s.current].prio;
    RequeuedKeeps(s, prio);
    ScheduleStands(s, s.current, prio);
    u := Schedule(s, s.current, prio).value;
  }

  /** The clock is set modulo 2^32, and a priority modulo 2^8. */
  lemma SetEffect(s: Kernel, x: nat)
    requires Good(s)
    ensures Step(s, SetTimeCall(x)) == Ok(s.(time := x % 0x1_0000_0000))
    ensures Step(s, SetPrioCall(x)) == Ok(s.(pcbs := s.pcbs[s.current := s.pcbs[s.current].(prio := x % 256)]))
  {}

  // ---------- the interrupts ----------

  /** The queues when a tick dispatches: `n` sleepers gone to ready queue 0, then the caller at its priority. */
  predicate TickedOn(s: Kernel, u: Kernel, n: nat, k: nat)
    requires Shape(s) && Shape(u) && n <= |s.q.all[SLEEP].items| && k < N_QUEUES
  {
    var prio := s.pcbs[s.current].prio;
    u.q.all[k].items ==
      if k == SLEEP then s.q.all[SLEEP].items[n..]
      else s.q.all[k].items + (if k == 0 then Woken(s.q.all[SLEEP].items[..n]) else [])
           + if k == (if prio < 4 then prio else 3) then [Entry(s.current, 0)] else []
  }

  /** A sleeper woken, and the process that was running, are ready; all others are as they were. */
  predicate TickedPcb(s: Kernel, u: Kernel, n: nat, p: nat)
    requires Shape(s) && Shape(u) && n <= |s.q.all[SLEEP].items| && p < N_PCBS
  {
    var roused := p == s.current || Sleeps(s.q.all[SLEEP].items[..n], p);
    u.pcbs[p] == if roused then s.pcbs[p].(state := READY) else s.pcbs[p]
  }

  /** A tick advances the clock by one, wakes those due by then, and puts the current process last at its priority. */
  lemma TickEffect(s: Kernel) returns (u: Kernel, n: nat)
    requires Good(s) && Sorted(s.q.all[SLEEP].items)
    ensures Inv(u, {}) && Tick(s) == Dispatch(u) && u.time == (s.time + 1) % 0x1_0000_0000
    ensures var items := s.q.all[SLEEP].items;
            && n <= |items| && (forall i :: 0 <= i < n ==> items[i].key <= u.time)
            && (forall i :: n <= i < |items| ==> items[i].key > u.time)
    ensures forall k :: 0 <= k < N_QUEUES ==> TickedOn(s, u, n, k)
    ensures forall p :: 0 <= p < N_PCBS ==> TickedPcb(s, u, n, p)
    ensures u.input == s.input && u.current == s.current
  {
    var a, t;
    a, t, u, n := TickHalves(s);
    TickParts(s, a, t, u, n);
  }

  lemma TickHalves(s: Kernel) returns (a: Kernel, t: Kernel, u: Kernel, n: nat)
    requires Good(s) && Sorted(s.q.all[SLEEP].items)
    ensures Inv(u, {}) && Tick(s) == Dispatch(u) && Ticked(s) == Ok(u)
    ensures Halves(s, a, t, u, n)
  {
    TickedKeeps(s);
    a, t, n := TickWakes(s);
    u := Ticked(s).value;
    ScheduleStands(t, t.current, t.pcbs[t.current].prio);
  }

  /** From `s` the clock went on to `a`, the sleepers due woke in `t`, and the current process was requeued in `u`. */
  ghost predicate Halves(s: Kernel, a: Kernel, t: Kernel, u: Kernel, n: nat) {
    && Shape(s) && Shape(t) && Shape(u) && a == Later(s) && n == Place(s.q.all[SLEEP].items, UintAsc, a.time)
    && Woke(a, t) && t.current == s.current && t.pcbs[t.current] == s.pcbs[s.current]
    && LastOn(t, u, s.current, s.pcbs[s.current].prio)
    && u == t.(pcbs := t.pcbs[s.current := s.pcbs[s.current].(state := READY)], q := u.q)
  }

  lemma TickParts(s: Kernel, a: Kernel, t: Kernel, u: Kernel, n: nat)
    requires Halves(s, a, t, u, n)
    ensures u.time == (s.time + 1) % 0x1_0000_0000 && u.input == s.input && u.current == s.current
    ensures var items := s.q.all[SLEEP].items;
            && n <= |items| && (forall i :: 0 <= i < n ==> items[i].key <= u.time)
            && (forall i :: n <= i < |items| ==> items[i].key > u.time)
    ensures forall k :: 0 <= k < N_QUEUES ==> TickedOn(s, u, n, k)
    ensures forall p :: 0 <= p < N_PCBS ==> TickedPcb(s, u, n, p)
  {
    forall k | 0 <= k < N_QUEUES ensures TickedOn(s, u, n, k) {
      assert StandsLast(t, u, s.current, s.pcbs[s.current].prio, k);
      TickedQueue(s, a, t, u, n, k);
    }
    forall p | 0 <= p < N_PCBS ensures TickedPcb(s, u, n, p) {
      assert PcbWoken(a, t, n, p);
    }
  }

  /** The first half of a tick. */
  lemma TickWakes(s: Kernel) returns (a: Kernel, t: Kernel, n: nat)
    requires Good(s) && Sorted(s.q.all[SLEEP].items)
    ensures a == Later(s) && n == Place(s.q.all[SLEEP].items, UintAsc, a.time)
    ensures Good(a) && Good(t) && Woke(a, t) && t.current == s.current && t.pcbs[t.current] == s.pcbs[s.current]
    ensures Ticked(s) == Schedule(t, t.current, t.pcbs[t.current].prio)
  {
    a := Later(s);
    ClockInv(s, a.time);
    WakeSleepersExactly(a);
    WakeSleepersKeeps(a);
    t := WakeSleepers(a).value;
    n := Place(s.q.all[SLEEP].items, UintAsc, a.time);
    WokeCurrent(a, t, n);
    TickedIs(s, t);
  }

  /** One tick later. */
  function Later(s: Kernel): (a: Kernel)
    ensures a == s.(time := a.time) && a.time == (s.time + 1) % 0x1_0000_0000
  {
    s.(time := (s.time + 1) % 0x1_0000_0000)
  }

  lemma TickedIs(s: Kernel, t: Kernel)
    requires Shape(s) && WakeSleepers(Later(s)) == Ok(t)
    ensures Ticked(s) == Schedule(t, t.current, t.pcbs[t.current].prio)
  {}

  lemma TickedQueue(s: Kernel, a: Kernel, t: Kernel, u: Kernel, n: nat, k: nat)
    requires Shape(s) && a == s.(time := a.time) && Shape(t) && Shape(u) && Woke(a, t) && k < N_QUEUES
    requires n == Place(s.q.all[SLEEP].items, UintAsc, a.time) && t.current == s.current
    requires t.pcbs[t.current] == s.pcbs[s.current] && StandsLast(t, u, s.current, s.pcbs[s.current].prio, k)
    ensures TickedOn(s, u, n, k)
  {
    assert s.q.all[k].items + [] == s.q.all[k].items;
    assert s.q.all[SLEEP].items[n..] + [] == s.q.all[SLEEP].items[n..];
  }

  /** Nobody is woken that runs. */
  lemma WokeCurrent(a: Kernel, t: Kernel, n: nat)
    requires Good(a) && Good(t) && Woke(a, t) && n == Place(a.q.all[SLEEP].items, UintAsc, a.time)
    ensures t.current == a.current && t.pcbs[t.current] == a.pcbs[a.current]
  {
    assert PcbWoken(a, t, n, a.current);
  }

  /** A character wakes the first reader, who stands last at its own priority. */
  lemma SerialWakes(s: Kernel) returns (t: Kernel)
    requires Good(s) && s.q.all[READING].items != []
    ensures SerialInput(s) == Ok(t) && Good(t)
    ensures var p := s.q.all[READING].items[0].data;
            && p < N_PCBS && t == s.(pcbs := s.pcbs[p := s.pcbs[p].(state := READY)], q := t.q)
            && t.q.all[READING].items == s.q.all[READING].items[1..]
            && forall k :: 0 <= k < N_QUEUES && k != READING ==> StandsLast(s, t, p, s.pcbs[p].prio, k)
  {
    var p := s.q.all[READING].items[0].data;
    TakeInv(s, {s.current}, READING, 0);
    SerialKeeps(s);
    var a := s.(q := RemoveIndex(s.q, READING, 0));
    ScheduleKeeps(a, {s.current} + {p}, p, s.pcbs[p].prio);
    ScheduleStands(a, p, s.pcbs[p].prio);
    t := SerialInput(s).value;
    assert t == Schedule(a, p, s.pcbs[p].prio).value;
    assert StandsLast(a, t, p, s.pcbs[p].prio, READING);
    assert RemoveAt(s.q.all[READING].items, 0) + [] == s.q.all[READING].items[1..];
    forall k | 0 <= k < N_QUEUES && k != READING ensures StandsLast(s, t, p, s.pcbs[p].prio, k) {
      assert StandsLast(a, t, p, s.pcbs[p].prio, k);
    }
  }

  /** With no reader it is buffered if fewer than 2048 are, and dropped if not. */
  lemma SerialBuffers(s: Kernel)
    requires Good(s) && s.q.all[READING].items == []
    ensures SerialInput(s) == Ok(if s.input < 2048 then s.(input := s.input + 1) else s)
  {}

  // ---------- boot ----------

  /** The first fork makes process 2, a child of process 1 with its priority 0, on PCB 1 and stack 1. */
  lemma FirstFork() returns (t: Kernel)
    ensures Fork(Initial()) == Ok(t) && Good(t)
    ensures t.current == 0 && t.time == 0 && t.nextPid == 3 && t.input == 0
    ensures t.pcbs[0] == Pcb(RUNNING, 1, 1, 0, 0, 0) && t.pcbs[1] == Pcb(READY, 2, 1, 0, 1, 0)
    ensures forall p :: 2 <= p < 30 ==> t.pcbs[p] == Pcb(FREE, 0, 0, 0, 0, 0)
    ensures t.q.all[0].items == [Entry(1, 0)] && forall k :: 1 <= k < 8 ==> t.q.all[k].items == []
    ensures forall k :: 8 <= k < 10 ==> |t.q.all[k].items| == 28 && forall i :: 0 <= i < 28 ==> FreeAt(t, k, i)
  {
    InitialGood();
    t := ForkEffect(Initial());
    forall k | 0 <= k < N_QUEUES ensures Forked(Initial(), t, 1, k) {}
    forall k | 1 <= k < 8 ensures t.q.all[k].items == [] {
      assert Forked(Initial(), t, 1, k);
    }
    assert Forked(Initial(), t, 1, 0) && Forked(Initial(), t, 1, PCB_AVAIL) && Forked(Initial(), t, 1, STACK_AVAIL);
  }

  /** The free PCBs and stacks left, in order. */
  predicate FreeAt(t: Kernel, k: nat, i: nat)
    requires Shape(t) && k < N_QUEUES && i < |t.q.all[k].items|
  {
    t.q.all[k].items[i] == Entry(i + 2, 0)
  }
}
