/**
 The process life cycle (src/kernel/syscall.c, system.c, scheduler.c, process.c, stack.c, clock.c)
 as functions on the state of the kernel: the PCB table, the ten queues, the current process, the
 clock, the next pid and the count of unread serial characters.

 A process is named by its index in the PCB table and a stack by its index in the stack table.
 */
module ProcessSpec {
  import opened Common
  import opened QueueSpec

  const N_PCBS: nat := 30
  const N_STACKS: nat := 30
  const N_QNODES: nat := N_PCBS + N_STACKS + 5
  const N_PRIORITIES: nat := 4
  const PRIO_MAXIMUM: nat := 0
  const PID_INIT: nat := 1
  const BUF_SIZE: nat := 2048

  // The queues; ready queue `i` is queue number `i`.
  const SLEEP: nat := 4
  const READING: nat := 5
  const WAITING_Q: nat := 6
  const ZOMBIES: nat := 7
  const PCB_AVAIL: nat := 8
  const STACK_AVAIL: nat := 9
  const N_QUEUES: nat := 10

  datatype ProcState = FREE | READY | RUNNING | SLEEPING | WAITING | KILLED | ZOMBIE

  /** `waitFor` is the pid in the info structure a waiting process left behind; 0 means any child. */
  datatype Pcb = Pcb(state: ProcState, pid: nat, ppid: nat, prio: nat, stack: nat, waitFor: nat)

  const CLEARED: Pcb := Pcb(FREE, 0, 0, 0, 0, 0)

  datatype Kernel = Kernel(pcbs: seq<Pcb>, q: Queues, current: nat, time: nat, nextPid: nat, input: nat)

  datatype Panic = QueueStatus | AllQueuesEmpty | NonReady | NoParent | WildPointer

  /** What a kernel routine leaves: a running kernel, or a panic. */
  datatype Outcome = Ok(value: Kernel) | Panicked(why: Panic) {
    predicate IsFailure() {
      Panicked?
    }
    function PropagateFailure(): Outcome
      requires Panicked?
    {
      this
    }
    function Extract(): Kernel
      requires Ok?
    {
      value
    }
  }

  /** Addition in 32-bit unsigned arithmetic. */
  function Add32(a: nat, b: nat): nat {
    (a + b) % U32
  }

  predicate Shape(s: Kernel) {
    |s.pcbs| == N_PCBS && |s.q.all| == N_QUEUES && s.current < N_PCBS
  }

  predicate Shaped(r: Outcome) {
    r.Ok? ==> Shape(r.value)
  }

  function SetPcb(s: Kernel, p: nat, pcb: Pcb): Kernel
    requires p < |s.pcbs|
  {
    s.(pcbs := s.pcbs[p := pcb])
  }

  function SetState(s: Kernel, p: nat, st: ProcState): Kernel
    requires p < |s.pcbs|
  {
    SetPcb(s, p, s.pcbs[p].(state := st))
  }

  /** A queue operation whose failure is a panic. */
  function Checked(s: Kernel, r: (Queues, Status)): Outcome {
    if r.1 == Success then Ok(s.(q := r.0)) else Panicked(QueueStatus)
  }

  // ---------- process.c and stack.c ----------

  /** First non-free PCB with this pid, or the table size. */
  function PcbFind(pcbs: seq<Pcb>, pid: nat): (i: nat)
    ensures i <= |pcbs|
    ensures i < |pcbs| ==> pcbs[i].state != FREE && pcbs[i].pid == pid
    ensures forall j :: 0 <= j < i ==> pcbs[j].state == FREE || pcbs[j].pid != pid
  {
    if pcbs == [] || (pcbs[0].state != FREE && pcbs[0].pid == pid) then 0 else 1 + PcbFind(pcbs[1..], pid)
  }

  function PcbFree(s: Kernel, p: nat): (r: Outcome)
    requires Shape(s) && p < N_PCBS
    ensures Shaped(r)
  {
    Checked(SetPcb(s, p, CLEARED), AppendTo(s.q, PCB_AVAIL, Entry(p, 0)))
  }

  function StackFree(s: Kernel, st: nat): (r: Outcome)
    requires Shape(s)
    ensures Shaped(r)
  {
    Checked(s, AppendTo(s.q, STACK_AVAIL, Entry(st, 0)))
  }

  // ---------- scheduler.c ----------

  function Schedule(s: Kernel, p: nat, prio: nat): (r: Outcome)
    requires Shape(s) && p < N_PCBS
    ensures Shaped(r)
  {
    var level := if prio >= N_PRIORITIES then N_PRIORITIES - 1 else prio;
    Checked(SetState(s, p, READY), AppendTo(s.q, level, Entry(p, 0)))
  }

  /** Lowest-numbered non-empty ready queue, or their number. */
  function FirstReady(all: seq<Queue>): (i: nat)
    requires |all| == N_QUEUES
    ensures i <= N_PRIORITIES
    ensures i < N_PRIORITIES ==> all[i].items != []
    ensures forall j :: 0 <= j < i ==> all[j].items == []
  {
    if all[0].items != [] then 0
    else if all[1].items != [] then 1
    else if all[2].items != [] then 2
    else if all[3].items != [] then 3
    else 4
  }

  function KilledCount(pcbs: seq<Pcb>): nat {
    if pcbs == [] then 0
    else KilledCount(pcbs[..|pcbs| - 1]) + if pcbs[|pcbs| - 1].state == KILLED then 1 else 0
  }

  lemma {:induction false} KilledUpdate(pcbs: seq<Pcb>, p: nat, pcb: Pcb)
    requires p < |pcbs|
    ensures KilledCount(pcbs[p := pcb]) + (if pcbs[p].state == KILLED then 1 else 0)
            == KilledCount(pcbs) + (if pcb.state == KILLED then 1 else 0)
  {
    var n := |pcbs| - 1;
    if p == n {
      assert pcbs[p := pcb][..n] == pcbs[..n];
    } else {
      assert pcbs[p := pcb][..n] == pcbs[..n][p := pcb];
      KilledUpdate(pcbs[..n], p, pcb);
    }
  }

  /** The head of the first ready queue becomes current. */
  function TakeReady(s: Kernel): (r: Outcome)
    requires Shape(s)
    ensures Shaped(r)
    ensures r.Ok? ==> r.value.pcbs == s.pcbs
  {
    var i := FirstReady(s.q.all);
    if i >= N_PRIORITIES then
      Panicked(AllQueuesEmpty)
    else
      var (q, status, p) := RemoveFrom(s.q, i);
      if status != Success then Panicked(QueueStatus)
      else if p >= N_PCBS then Panicked(WildPointer)
      else Ok(s.(q := q, current := p))
  }

  /** Killed processes at the head are turned into zombies until a ready one turns up. */
  function Dispatch(s: Kernel): (r: Outcome)
    requires Shape(s)
    ensures Shaped(r)
    decreases KilledCount(s.pcbs)
  {
    var t :- TakeReady(s);
    var state := t.pcbs[t.current].state;
    if state == READY then
      Ok(SetState(t, t.current, RUNNING))
    else if state == KILLED then
      var z :- Zombify(t, t.current);
      ZombifyLowersKilled(t);
      Dispatch(z)
    else
      Panicked(NonReady)
  }

  // ---------- system.c ----------

  /** Give the status to a waiting parent and clean up, or become a zombie. */
  function Zombify(s: Kernel, p: nat): (r: Outcome)
    requires Shape(s) && p < N_PCBS
    ensures Shaped(r)
  {
    var parent := PcbFind(s.pcbs, s.pcbs[p].ppid);
    if parent == N_PCBS then
      Panicked(NoParent)
    else if s.pcbs[parent].state == WAITING
            && (s.pcbs[parent].waitFor == 0 || s.pcbs[parent].waitFor == s.pcbs[s.current].pid) then
      WakeParent(s, p, s.pcbs[parent].pid)
    else
      var t := SetState(s, s.current, ZOMBIE);
      Checked(t, InsertTo(t.q, ZOMBIES, Entry(s.current, s.pcbs[s.current].pid)))
  }

  function WakeParent(s: Kernel, p: nat, parentPid: nat): (r: Outcome)
    requires Shape(s) && p < N_PCBS
    ensures Shaped(r)
  {
    var (q, status, parent) := RemoveByKey(s.q, WAITING_Q, parentPid);
    if status != Success then
      Panicked(QueueStatus)
    else if parent >= N_PCBS then
      Panicked(WildPointer)
    else
      var a :- StackFree(s.(q := q), s.pcbs[p].stack);
      var b :- PcbFree(a, p);
      Schedule(b, parent, PRIO_MAXIMUM)
  }

  /** Termination of the dispatch loop: each pass leaves one killed process fewer. */
  lemma ZombifyLowersKilled(s: Kernel)
    requires Shape(s) && s.pcbs[s.current].state == KILLED
    ensures var r := Zombify(s, s.current);
            r.Ok? ==> KilledCount(r.value.pcbs) < KilledCount(s.pcbs)
  {
    var r := Zombify(s, s.current);
    var p := s.current;
    if r.Ok? {
      KilledUpdate(s.pcbs, p, s.pcbs[p].(state := ZOMBIE));
      KilledUpdate(s.pcbs, p, CLEARED);
      var cleared := s.pcbs[p := CLEARED];
      var (q, status, parent) := RemoveByKey(s.q, WAITING_Q, s.pcbs[PcbFind(s.pcbs, s.pcbs[p].ppid)].pid);
      if parent < N_PCBS {
        KilledUpdate(cleared, parent, cleared[parent].(state := READY));
      }
    }
  }

  // ---------- syscall.c, clock.c and the serial wake-up of sio.c ----------

  /** No PCB or no stack: the caller gets -1 and, the PCB having been given back, nothing else changes. */
  function Fork(s: Kernel): (r: Outcome)
    requires Shape(s)
    ensures Shaped(r)
  {
    var (q, status, child) := RemoveFrom(s.q, PCB_AVAIL);
    if status != Success then Ok(s)
    else if child >= N_PCBS then Panicked(WildPointer)
    else
      var (q2, status2, stack) := RemoveFrom(q, STACK_AVAIL);
      if status2 != Success then PcbFree(s.(q := q), child)
      else Adopt(s.(q := q2), child, stack)
  }

  /** The child gets the next pid, its parent's pid and priority, and a stack, and is scheduled. */
  function Adopt(s: Kernel, child: nat, stack: nat): (r: Outcome)
    requires Shape(s) && child < N_PCBS
    ensures Shaped(r)
  {
    var named := s.pcbs[child].(pid := s.nextPid);
    var parent := s.pcbs[child := named][s.current];
    var pcb := named.(ppid := parent.pid, prio := parent.prio, stack := stack);
    Schedule(SetPcb(s.(nextPid := s.nextPid + 1), child, pcb), child, pcb.prio)
  }

  /** The caller goes to the end of its ready queue and the dispatcher picks again. */
  function Requeue(s: Kernel, prio: nat): (r: Outcome)
    requires Shape(s)
    ensures Shaped(r)
  {
    var t :- Schedule(s, s.current, prio);
    Dispatch(t)
  }

  /** The caller goes to queue `k` and the dispatcher picks another process. */
  function Block(s: Kernel, k: nat, pcb: Pcb, key: nat): (r: Outcome)
    requires Shape(s) && k < N_QUEUES
    ensures Shaped(r)
  {
    var t := SetPcb(s, s.current, pcb);
    var u :- Checked(t, InsertTo(t.q, k, Entry(s.current, key)));
    Dispatch(u)
  }

  function Exec(s: Kernel, prio: nat): (r: Outcome)
    requires Shape(s)
    ensures Shaped(r)
  {
    Requeue(SetPcb(s, s.current, s.pcbs[s.current].(prio := prio % 256)), prio % 256)
  }

  /** If the insertion fails the caller just returns, still running. */
  function Sleep(s: Kernel, ticks: nat): (r: Outcome)
    requires Shape(s)
    ensures Shaped(r)
  {
    var key := Add32(s.time, ticks);
    if InsertTo(s.q, SLEEP, Entry(s.current, key)).1 != Success then
      Ok(SetState(s, s.current, SLEEPING))
    else
      Block(s, SLEEP, s.pcbs[s.current].(state := SLEEPING), key)
  }

  /** A blocked reader keeps state RUNNING: the handler stores BLOCKED in the status field. */
  function Readc(s: Kernel): (r: Outcome)
    requires Shape(s)
    ensures Shaped(r)
  {
    if s.input > 0 then
      Ok(s.(input := s.input - 1))
    else
      Block(s, READING, s.pcbs[s.current], s.pcbs[s.current].pid)
  }

  /** A received character wakes the first reader, or is buffered if there is room. */
  function SerialInput(s: Kernel): (r: Outcome)
    requires Shape(s)
    ensures Shaped(r)
  {
    if s.q.all[READING].items == [] then
      Ok(if s.input < BUF_SIZE then s.(input := s.input + 1) else s)
    else
      var (q, status, p) := RemoveFrom(s.q, READING);
      if status != Success then Panicked(QueueStatus)
      else if p >= N_PCBS then Panicked(WildPointer)
      else Schedule(s.(q := q), p, s.pcbs[p].prio)
  }

  function Kill(s: Kernel, pid: nat): (r: Outcome)
    requires Shape(s)
    ensures Shaped(r)
  {
    var p := PcbFind(s.pcbs, pid);
    if p == N_PCBS then
      Ok(s)
    else
      var t := SetState(s, p, KILLED);
      if p == s.current then Requeue(t, t.pcbs[p].prio) else Ok(t)
  }

  /** First PCB that is a zombie child of `pid`, or the table size. */
  function ZombieChild(pcbs: seq<Pcb>, pid: nat): (i: nat)
    ensures i <= |pcbs|
    ensures i < |pcbs| ==> pcbs[i].ppid == pid && pcbs[i].state == ZOMBIE
    ensures forall j :: 0 <= j < i ==> !(pcbs[j].ppid == pid && pcbs[j].state == ZOMBIE)
  {
    if pcbs == [] || (pcbs[0].ppid == pid && pcbs[0].state == ZOMBIE) then 0
    else 1 + ZombieChild(pcbs[1..], pid)
  }

  /**
   The process a wait for any child settles on. With no zombie child the scan runs to the end of
   the table, and as its index never exceeds N_PCBS the last PCB is taken, child or not.
   */
  function AnyChild(s: Kernel): (i: nat)
    requires Shape(s)
    ensures i < N_PCBS
    ensures (s.pcbs[i].ppid == s.pcbs[s.current].pid && s.pcbs[i].state == ZOMBIE) || i == N_PCBS - 1
    ensures forall j :: 0 <= j < i ==> !(s.pcbs[j].ppid == s.pcbs[s.current].pid && s.pcbs[j].state == ZOMBIE)
  {
    var i := ZombieChild(s.pcbs, s.pcbs[s.current].pid);
    if i == N_PCBS then N_PCBS - 1 else i
  }

  function Wait(s: Kernel, target: nat): (r: Outcome)
    requires Shape(s)
    ensures Shaped(r)
  {
    var p := if target > 0 then PcbFind(s.pcbs, target) else AnyChild(s);
    if p == N_PCBS then
      Ok(s)
    else if s.pcbs[p].state == ZOMBIE then
      Reap(s, s.pcbs[p].pid)
    else
      Block(s, WAITING_Q, s.pcbs[s.current].(state := WAITING, waitFor := target), s.pcbs[s.current].pid)
  }

  function Reap(s: Kernel, pid: nat): (r: Outcome)
    requires Shape(s)
    ensures Shaped(r)
  {
    var (q, status, z) := RemoveByKey(s.q, ZOMBIES, pid);
    if status != Success then Panicked(QueueStatus)
    else if z >= N_PCBS then Panicked(WildPointer)
    else
      var t :- StackFree(s.(q := q), s.pcbs[z].stack);
      PcbFree(t, z)
  }

  /** Every child of `pid` becomes a child of init. */
  function Reparent(pcbs: seq<Pcb>, pid: nat): (r: seq<Pcb>)
    ensures |r| == |pcbs|
    ensures forall i :: 0 <= i < |pcbs| ==>
              r[i] == if pcbs[i].ppid == pid then pcbs[i].(ppid := PID_INIT) else pcbs[i]
  {
    seq(|pcbs|, i requires 0 <= i < |pcbs| =>
      if pcbs[i].ppid == pid then pcbs[i].(ppid := PID_INIT) else pcbs[i])
  }

  function Exit(s: Kernel): (r: Outcome)
    requires Shape(s)
    ensures Shaped(r)
  {
    var t := s.(pcbs := Reparent(s.pcbs, s.pcbs[s.current].pid));
    var u :- Zombify(t, t.current);
    Dispatch(u)
  }

  /** Every sleeper due by now goes to the first ready queue. */
  function WakeSleepers(s: Kernel): (r: Outcome)
    requires Shape(s)
    ensures Shaped(r)
    decreases |s.q.all[SLEEP].items|
  {
    var (q, status, p) := RemoveByKey(s.q, SLEEP, s.time);
    if status != Success then Ok(s)
    else if p >= N_PCBS then Panicked(WildPointer)
    else
      var t :- Schedule(s.(q := q), p, PRIO_MAXIMUM);
      WakeSleepers(t)
  }

  function Tick(s: Kernel): (r: Outcome)
    requires Shape(s)
    ensures Shaped(r)
  {
    var t :- WakeSleepers(s.(time := Add32(s.time, 1)));
    Requeue(t, t.pcbs[t.current].prio)
  }

  /** The caller is put on no queue. */
  function Yield(s: Kernel): (r: Outcome)
    requires Shape(s)
    ensures Shaped(r)
  {
    Dispatch(s)
  }

  // ---------- events and runs ----------

  datatype Event =
    | ForkCall | ExecCall(prio: nat) | SleepCall(ticks: nat) | ReadcCall | WaitCall(target: nat)
    | ExitCall | KillCall(pid: nat) | SetPrioCall(prio: nat) | SetTimeCall(time: nat)
    | ClockTick | SerialChar

  function Step(s: Kernel, e: Event): (r: Outcome)
    requires Shape(s)
    ensures Shaped(r)
  {
    match e
    case ForkCall => Fork(s)
    case ExecCall(prio) => Exec(s, prio)
    case SleepCall(ticks) => Sleep(s, ticks)
    case ReadcCall => Readc(s)
    case WaitCall(target) => Wait(s, target)
    case ExitCall => Exit(s)
    case KillCall(pid) => Kill(s, pid)
    case SetPrioCall(prio) => Ok(SetPcb(s, s.current, s.pcbs[s.current].(prio := prio % 256)))
    case SetTimeCall(time) => Ok(s.(time := Add32(time, 0)))
    case ClockTick => Tick(s)
    case SerialChar => SerialInput(s)
  }

  function Run(s: Kernel, events: seq<Event>): (r: Outcome)
    requires Shape(s)
    ensures Shaped(r)
    decreases |events|
  {
    if events == [] then Ok(s)
    else
      var t :- Step(s, events[0]);
      Run(t, events[1..])
  }

  function QueueKind(k: nat): (Compare, Remover) {
    if k == SLEEP then (UintAsc, IfLeU)
    else if k == READING || k == WAITING_Q || k == ZOMBIES then (UintAsc, IfEqual)
    else (NoCompare, NoRemover)
  }

  function Numbered(lo: nat, hi: nat): (items: seq<Entry>)
    requires lo <= hi
    ensures |items| == hi - lo
    ensures forall i :: 0 <= i < |items| ==> items[i] == Entry(lo + i, 0)
  {
    seq(hi - lo, i requires 0 <= i < hi - lo => Entry(lo + i, 0))
  }

  function InitialQueue(k: nat): Queue {
    var items := if k == PCB_AVAIL then Numbered(1, N_PCBS)
                 else if k == STACK_AVAIL then Numbered(1, N_STACKS)
                 else [];
    Queue(items, QueueKind(k).0, QueueKind(k).1)
  }

  /** The first process holds PCB 0, stack 0 and pid 1, is its own parent, and is running. */
  function Initial(): (s: Kernel)
    ensures Shape(s)
  {
    Kernel(seq(N_PCBS, i => if i == 0 then Pcb(RUNNING, PID_INIT, PID_INIT, PRIO_MAXIMUM, 0, 0) else CLEARED),
           Queues(seq(N_QUEUES, k requires 0 <= k < N_QUEUES => InitialQueue(k)), 7),
           0, 0, PID_INIT + 1, 0)
  }
}
