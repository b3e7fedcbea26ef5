/**
 A run from boot that ends in the panic over a missing parent: a killed parent is cleaned up without its
 children being handed to init, so that neither its child's exit nor a kill of the child is survived.
 */
module ProcessOrphan {
  import opened QueueSpec
  import opened ProcessSpec
  import opened ProcessInv
  import opened ProcessOrder
  import opened ProcessTurn

  // ---------- the steps of the run ----------

  /** With nobody asleep a tick puts the current process last in line and dispatches. */
  lemma TickedPlain(s: Kernel) returns (u: Kernel)
    requires Good(s) && s.q.all[SLEEP].items == [] && s.pcbs[s.current].prio == 0
    ensures Inv(u, {}) && Step(s, ClockTick) == Dispatch(u) && u.nextPid == s.nextPid
    ensures u.pcbs == s.pcbs[s.current := s.pcbs[s.current].(state := READY)]
    ensures u.q.all[0].items == s.q.all[0].items + [Entry(s.current, 0)]
    ensures forall k :: 0 < k < N_QUEUES ==> u.q.all[k] == s.q.all[k]
  {
    TickedKeeps(s);
    u := Ticked(s).value;
  }

  /** With nobody asleep and a ready process first in line, a tick passes the processor on. */
  lemma TickPlain(s: Kernel) returns (t: Kernel)
    requires Good(s) && s.q.all[SLEEP].items == [] && s.q.all[0].items != [] && s.pcbs[s.current].prio == 0
    requires s.q.all[0].items[0].data < N_PCBS && s.pcbs[s.q.all[0].items[0].data].state == READY
    ensures Step(s, ClockTick) == Ok(t) && Good(t)
    ensures var c, x := s.current, s.q.all[0].items[0].data;
            && t.current == x && t.nextPid == s.nextPid
            && t.pcbs == s.pcbs[c := s.pcbs[c].(state := READY)][x := s.pcbs[x].(state := RUNNING)]
            && t.q.all[0].items == s.q.all[0].items[1..] + [Entry(c, 0)]
            && forall k :: 0 < k < N_QUEUES ==> t.q.all[k] == s.q.all[k]
  {
    var u := TickedPlain(s);
    t := Picked(u);
  }

  /** A ready process first in line is picked. */
  lemma Picked(u: Kernel) returns (t: Kernel)
    requires Inv(u, {}) && u.q.all[0].items != []
    requires u.q.all[0].items[0].data < N_PCBS && u.pcbs[u.q.all[0].items[0].data].state == READY
    ensures Dispatch(u) == Ok(t) && Good(t)
    ensures var x := u.q.all[0].items[0].data;
            && t.current == x && t.nextPid == u.nextPid && t.pcbs == u.pcbs[x := u.pcbs[x].(state := RUNNING)]
            && t.q.all[0].items == u.q.all[0].items[1..]
            && forall k :: 0 < k < N_QUEUES ==> t.q.all[k] == u.q.all[k]
  {
    TakeReadyKeeps(u);
    DispatchKeeps(u);
    t := Dispatch(u).value;
    assert RemoveAt(u.q.all[0].items, 0) == u.q.all[0].items[1..];
  }

  /** A fork with a free PCB puts the child last on ready queue 0. */
  lemma ForkPlain(s: Kernel) returns (t: Kernel)
    requires Good(s) && s.q.all[PCB_AVAIL].items != [] && s.pcbs[s.current].prio == 0
    ensures Step(s, ForkCall) == Ok(t) && Good(t)
    ensures var x, pcb := s.q.all[PCB_AVAIL].items[0].data, s.pcbs[s.current];
            && x < N_PCBS && x != s.current && t.current == s.current && t.nextPid == s.nextPid + 1
            && t.pcbs == s.pcbs[x := t.pcbs[x]] && t.pcbs[x] == Pcb(READY, s.nextPid, pcb.pid, 0, t.pcbs[x].stack, 0)
            && t.q.all[0].items == s.q.all[0].items + [Entry(x, 0)]
            && t.q.all[PCB_AVAIL].items == s.q.all[PCB_AVAIL].items[1..] && t.q.all[SLEEP] == s.q.all[SLEEP]
  {
    ForkKeeps(s);
    t := Fork(s).value;
    assert RemoveAt(s.q.all[PCB_AVAIL].items, 0) == s.q.all[PCB_AVAIL].items[1..];
    var x := s.q.all[PCB_AVAIL].items[0].data;
    TakeInv(s, {s.current}, PCB_AVAIL, 0);
  }

  lemma KillPlain(s: Kernel, pid: nat, x: nat) returns (t: Kernel)
    requires Good(s) && x < N_PCBS && x != s.current && s.pcbs[x].state != FREE && s.pcbs[x].pid == pid
    ensures Step(s, KillCall(pid)) == Ok(t) && Good(t) && t == s.(pcbs := s.pcbs[x := s.pcbs[x].(state := KILLED)])
  {
    Named(s, pid, x);
    KillKeeps(s, pid);
    t := Kill(s, pid).value;
  }

  /** Pids are unique. */
  lemma Named(s: Kernel, pid: nat, x: nat)
    requires Good(s) && x < N_PCBS && s.pcbs[x].state != FREE && s.pcbs[x].pid == pid
    ensures PcbFind(s.pcbs, pid) == x
  {
    var i := PcbFind(s.pcbs, pid);
    assert i < x ==> PidsDiffer(s.pcbs, i, x);
  }

  /** Waiting for a process that has not ended blocks the caller; the first in line is picked. */
  lemma WaitPlain(s: Kernel, pid: nat, x: nat) returns (t: Kernel)
    requires Good(s) && x < N_PCBS && s.pcbs[x].state != FREE && s.pcbs[x].state != ZOMBIE && s.pcbs[x].pid == pid
    requires pid > 0 && s.q.all[0].items != []
    requires s.q.all[0].items[0].data < N_PCBS && s.pcbs[s.q.all[0].items[0].data].state == READY
    ensures Step(s, WaitCall(pid)) == Ok(t) && Good(t)
    ensures var c, y := s.current, s.q.all[0].items[0].data;
            && t.current == y && t.nextPid == s.nextPid
            && t.pcbs == s.pcbs[c := s.pcbs[c].(state := WAITING, waitFor := pid)][y := s.pcbs[y].(state := RUNNING)]
            && t.q.all[0].items == s.q.all[0].items[1..] && t.q.all[SLEEP] == s.q.all[SLEEP]
  {
    Named(s, pid, x);
    WaitBlocks(s, pid);
    var pcb := s.pcbs[s.current].(state := WAITING, waitFor := pid);
    EnqueuedKeeps(s, WAITING_Q, pcb, pcb.pid);
    t := Picked(Enqueued(s, WAITING_Q, pcb, pcb.pid).value);
  }

  /** A tick that comes to a killed process, alone in line, whose parent waits for it. */
  lemma TickCleans(s: Kernel, x: nat, w: nat) returns (t: Kernel)
    requires Good(s) && s.q.all[SLEEP].items == [] && s.q.all[0].items == [Entry(x, 0)] && s.pcbs[s.current].prio == 0
    requires x < N_PCBS && x != s.current && s.pcbs[x].state == KILLED
    requires w < N_PCBS && s.pcbs[w].state == WAITING && s.pcbs[w].pid == s.pcbs[x].ppid
    requires s.pcbs[w].waitFor == s.pcbs[x].pid
    ensures Step(s, ClockTick) == Ok(t) && Good(t)
    ensures t.current == s.current && t.pcbs == s.pcbs[x := CLEARED][w := s.pcbs[w].(state := READY)]
    ensures t.q.all[0].items == [Entry(w, 0)] && t.q.all[SLEEP].items == []
  {
    var u := TickedPlain(s);
    var z := Cleans(u, x, w);
    assert z.q.all[0].items == [Entry(s.current, 0), Entry(w, 0)];
    t := Picked(z);
    BackAgain(s.pcbs, s.current, x, w);
  }

  /** The process that was running runs again. */
  lemma BackAgain(pcbs: seq<Pcb>, c: nat, x: nat, w: nat)
    requires c < |pcbs| && x < |pcbs| && w < |pcbs| && c != x && c != w && pcbs[c].state == RUNNING
    ensures var ready := pcbs[c := pcbs[c].(state := READY)];
            var cleaned := ready[x := CLEARED][w := pcbs[w].(state := READY)];
            cleaned[c := cleaned[c].(state := RUNNING)] == pcbs[x := CLEARED][w := pcbs[w].(state := READY)]
  {}

  lemma Cleans(u: Kernel, x: nat, w: nat) returns (z: Kernel)
    requires Inv(u, {}) && u.q.all[0].items != [] && u.q.all[0].items[0] == Entry(x, 0)
    requires x < N_PCBS && u.pcbs[x].state == KILLED
    requires w < N_PCBS && u.pcbs[w].state == WAITING && u.pcbs[w].pid == u.pcbs[x].ppid
    requires u.pcbs[w].waitFor == u.pcbs[x].pid
    ensures Inv(z, {}) && Dispatch(u) == Dispatch(z)
    ensures z.pcbs == u.pcbs[x := CLEARED][w := u.pcbs[w].(state := READY)]
    ensures z.q.all[0].items == u.q.all[0].items[1..] + [Entry(w, 0)] && z.q.all[SLEEP] == u.q.all[SLEEP]
  {
    assert Line(u.q.all)[0] == Entry(x, 0);
    var p := PcbFind(u.pcbs, u.pcbs[x].ppid);
    assert p < w ==> PidsDiffer(u.pcbs, p, w);
    assert Waiter(u.pcbs, x) == w;
    PassFate(u);
    HeadTurn(u);
    var t := TakeReady(u).value;
    ZombifyEffect(t);
    ZombifyUndisturbed(t, t.current);
    assert RemoveAt(u.q.all[0].items, 0) == u.q.all[0].items[1..];
    z := Pass(u).value;
  }

  // ---------- the run ----------

  predicate Is(pcb: Pcb, st: ProcState, pid: nat, ppid: nat) {
    pcb.state == st && pcb.pid == pid && pcb.ppid == ppid && pcb.prio == 0
  }

  /** Nobody but the first three processes is there. */
  predicate Alone(s: Kernel)
    requires Shape(s)
  {
    forall p :: 3 <= p < N_PCBS ==> s.pcbs[p].state == FREE
  }

  lemma {:induction false} RunConcat(s: Kernel, first: seq<Event>, rest: seq<Event>, t: Kernel)
    requires Shape(s) && Shape(t) && Run(s, first) == Ok(t)
    ensures Run(s, first + rest) == Run(t, rest)
    decreases |first|
  {
    if first == [] {
      assert first + rest == rest;
    } else {
      assert (first + rest)[1..] == first[1..] + rest;
      RunConcat(Step(s, first[0]).value, first[1..], rest, t);
    }
  }

  lemma RunOne(s: Kernel, e: Event)
    requires Shape(s)
    ensures Run(s, [e]) == Step(s, e)
  {
    assert [e][1..] == [];
    var r := Step(s, e);
    assert r.Ok? ==> Run(r.value, []) == r;
  }

  lemma RunTwo(s: Kernel, a: Event, t: Kernel, b: Event)
    requires Shape(s) && Shape(t) && Step(s, a) == Ok(t)
    ensures Run(s, [a, b]) == Step(t, b)
  {
    RunOne(s, a);
    RunOne(t, b);
    RunConcat(s, [a], [b], t);
    assert [a] + [b] == [a, b];
  }

  /** A process forks and the next tick takes the processor from it. */
  lemma ForkTick(s: Kernel) returns (t: Kernel)
    requires Good(s) && s.q.all[PCB_AVAIL].items != [] && s.q.all[SLEEP].items == [] && s.pcbs[s.current].prio == 0
    requires s.q.all[0].items == [] || (s.q.all[0].items[0].data < N_PCBS && s.q.all[0].items[0].data != s.current)
    requires s.q.all[0].items != [] ==>
               s.pcbs[s.q.all[0].items[0].data].state == READY
               && s.q.all[0].items[0].data != s.q.all[PCB_AVAIL].items[0].data
    ensures Run(s, [ForkCall, ClockTick]) == Ok(t) && Good(t) && t.q.all[SLEEP].items == []
    ensures var c, pcb, x := s.current, s.pcbs[s.current], s.q.all[PCB_AVAIL].items[0].data;
            var line := s.q.all[0].items + [Entry(x, 0)];
            var y := line[0].data;
            && x < N_PCBS && x != c && y < N_PCBS && t.current == y && t.nextPid == s.nextPid + 1
            && t.q.all[0].items == line[1..] + [Entry(c, 0)]
            && t.q.all[PCB_AVAIL].items == s.q.all[PCB_AVAIL].items[1..]
            && t.pcbs[x] == Pcb(if y == x then RUNNING else READY, s.nextPid, pcb.pid, 0, t.pcbs[x].stack, 0)
            && t.pcbs[c] == pcb.(state := READY)
            && forall p :: 0 <= p < N_PCBS && p != x && p != c ==>
                 t.pcbs[p] == if p == y then s.pcbs[p].(state := RUNNING) else s.pcbs[p]
  {
    var u := ForkPlain(s);
    t := TickPlain(u);
    RunTwo(s, ForkCall, u, ClockTick);
  }

  /** Init forks a process, which forks another; then it is init's turn again. */
  function Generations(): seq<Event> {
    [ForkCall, ClockTick] + [ForkCall, ClockTick]
  }

  lemma ThreeGenerations() returns (s: Kernel)
    ensures Run(Initial(), Generations()) == Ok(s) && Good(s) && s.current == 0 && s.q.all[SLEEP].items == []
    ensures s.q.all[0].items == [Entry(2, 0), Entry(1, 0)] && Alone(s)
    ensures Is(s.pcbs[0], RUNNING, 1, 1) && Is(s.pcbs[1], READY, 2, 1) && Is(s.pcbs[2], READY, 3, 2)
  {
    InitialGood();
    var s0 := Initial();
    assert s0.q.all[PCB_AVAIL].items[0] == Entry(1, 0) && s0.q.all[PCB_AVAIL].items[1] == Entry(2, 0);
    var s1 := ForkTick(s0);
    assert s1.q.all[0].items == [Entry(0, 0)];
    s := ForkTick(s1);
    RunConcat(s0, [ForkCall, ClockTick], [ForkCall, ClockTick], s1);
  }

  /** Init kills its child and waits for it; the next tick cleans the child up. */
  function Bereavement(): seq<Event> {
    [KillCall(2), WaitCall(2), ClockTick]
  }

  lemma Bereaved(g: Kernel) returns (s: Kernel)
    requires Good(g) && g.current == 0 && g.q.all[SLEEP].items == [] && Alone(g)
    requires g.q.all[0].items == [Entry(2, 0), Entry(1, 0)]
    requires Is(g.pcbs[0], RUNNING, 1, 1) && Is(g.pcbs[1], READY, 2, 1) && Is(g.pcbs[2], READY, 3, 2)
    ensures Run(g, Bereavement()) == Ok(s) && Bereft(s)
  {
    var a := KillPlain(g, 2, 1);
    var b := WaitPlain(a, 2, 1);
    s := TickCleans(b, 1, 0);
    RunTwo(a, WaitCall(2), b, ClockTick);
    assert Bereavement()[1..] == [WaitCall(2), ClockTick];
  }

  /** An orphan that is killed makes the kernel panic at its turn, here one tick later. */
  lemma KilledOrphan(s: Kernel)
    requires Good(s) && s.q.all[SLEEP].items == [] && s.q.all[0].items != [] && s.q.all[0].items[0] == Entry(2, 0)
    requires s.pcbs[s.current].prio == 0 && s.current == 0 && Alone(s) && s.pcbs[0].pid == 1 && s.pcbs[1] == CLEARED
    requires Is(s.pcbs[2], READY, 3, 2)
    ensures PcbFind(s.pcbs, 3) == 2 && Run(s, [KillCall(3), ClockTick]) == Panicked(NoParent)
  {
    Named(s, 3, 2);
    var k := KillPlain(s, 3, 2);
    RunTwo(s, KillCall(3), k, ClockTick);
    var u := TickedPlain(k);
    assert Line(u.q.all)[0] == Entry(2, 0);
    Parentless(u.pcbs);
    PassFate(u);
  }

  /** The child of the one cleaned up has no parent. */
  lemma Parentless(pcbs: seq<Pcb>)
    requires |pcbs| == N_PCBS && forall p :: 3 <= p < N_PCBS ==> pcbs[p].state == FREE
    requires pcbs[1] == CLEARED && pcbs[0].pid == 1 && pcbs[2].pid == 3 && pcbs[2].ppid == 2
    ensures ParentGone(pcbs, 2)
  {}

  /** The grandchild runs, its parent is gone, and init is next in line. */
  ghost predicate Bereft(s: Kernel) {
    && Good(s) && s.current == 2 && s.q.all[SLEEP].items == [] && s.q.all[0].items == [Entry(0, 0)] && Alone(s)
    && Is(s.pcbs[0], READY, 1, 1) && s.pcbs[1] == CLEARED && Is(s.pcbs[2], RUNNING, 3, 2)
  }

  lemma OrphanExit(s: Kernel)
    requires Bereft(s)
    ensures CallerOrphan(s) && Step(s, ExitCall) == Panicked(NoParent)
  {
    Parentless(s.pcbs);
    ExitFate(s);
  }

  lemma OrphanKill(s: Kernel) returns (t: Kernel)
    requires Bereft(s)
    ensures Step(s, ClockTick) == Ok(t) && Good(t) && PcbFind(t.pcbs, 3) < N_PCBS && PcbFind(t.pcbs, 3) != t.current
    ensures Run(t, [KillCall(3), ClockTick]) == Panicked(NoParent)
  {
    t := TickPlain(s);
    KilledOrphan(t);
  }

  /**
   The panic is reached from boot: after these seven calls and interrupts the process running is an orphan, and
   its exit panics; and if it is killed after one more tick, its turn panics.
   */
  lemma OrphanPanics() returns (s: Kernel, t: Kernel)
    ensures Run(Initial(), Generations() + Bereavement()) == Ok(s) && Good(s)
    ensures CallerOrphan(s) && Step(s, ExitCall) == Panicked(NoParent)
    ensures Step(s, ClockTick) == Ok(t) && Good(t) && PcbFind(t.pcbs, 3) < N_PCBS && PcbFind(t.pcbs, 3) != t.current
    ensures Run(t, [KillCall(3), ClockTick]) == Panicked(NoParent)
  {
    var g := ThreeGenerations();
    s := Bereaved(g);
    RunConcat(Initial(), Generations(), Bereavement(), g);
    OrphanExit(s);
    t := OrphanKill(s);
  }
}
