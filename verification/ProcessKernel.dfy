/**
 The process routines themselves, working in place on the PCB table and the shared queue module;
 each is proved to do what its function in ProcessSpec says.
 */
module ProcessKernel {
  import opened QueueSpec
  import opened KernelQueue
  import opened ProcessSpec

  /** Whether a routine returned or the kernel panicked. */
  datatype Halt = Running | Panic(why: ProcessSpec.Panic)

  function BootingQueue(k: nat, p: nat, t: nat): Queue {
    Queue(if k == PCB_AVAIL then Numbered(0, p) else if k == STACK_AVAIL then Numbered(0, t) else [],
          QueueKind(k).0, QueueKind(k).1)
  }

  /** The queues with the first `p` PCBs and `t` stacks made available. */
  function Booting(p: nat, t: nat): Queues
    requires p + t <= N_QNODES
  {
    Queues(seq(N_QUEUES, k requires 0 <= k < N_QUEUES => BootingQueue(k, p, t)), N_QNODES - p - t)
  }

  /** The ordering and removal routine of each queue. */
  function Routines(): (rs: seq<(Compare, Remover)>)
    ensures |rs| == N_QUEUES
  {
    seq(N_QUEUES, k requires 0 <= k < N_QUEUES => QueueKind(k))
  }

  lemma BootingEmpty()
    ensures Booting(0, 0) == Queues(seq(N_QUEUES, k requires 0 <= k < N_QUEUES =>
                                      Queue([], Routines()[k].0, Routines()[k].1)), N_QNODES)
  {
    assert Numbered(0, 0) == [];
  }

  lemma BootingStep(p: nat, t: nat)
    requires p + t < N_QNODES
    ensures AppendTo(Booting(p, t), PCB_AVAIL, Entry(p, 0)) == (Booting(p + 1, t), Success)
    ensures AppendTo(Booting(p, t), STACK_AVAIL, Entry(t, 0)) == (Booting(p, t + 1), Success)
  {
    assert Numbered(0, p + 1) == Numbered(0, p) + [Entry(p, 0)];
    assert Numbered(0, t + 1) == Numbered(0, t) + [Entry(t, 0)];
    var a, b := AppendTo(Booting(p, t), PCB_AVAIL, Entry(p, 0)).0, AppendTo(Booting(p, t), STACK_AVAIL, Entry(t, 0)).0;
    assert a.all == Booting(p + 1, t).all;
    assert b.all == Booting(p, t + 1).all;
  }

  lemma InitialIs(pcbs: seq<Pcb>, q: Queues)
    requires |pcbs| == N_PCBS && q == Initial().q && forall i :: 0 <= i < N_PCBS ==> pcbs[i] == CLEARED
    ensures Kernel(pcbs[0 := Pcb(RUNNING, PID_INIT, PID_INIT, PRIO_MAXIMUM, 0, 0)], q, 0, 0, PID_INIT + 1, 0)
            == Initial()
  {
    assert pcbs[0 := Pcb(RUNNING, PID_INIT, PID_INIT, PRIO_MAXIMUM, 0, 0)] == Initial().pcbs;
  }

  lemma BootingTaken()
    ensures var a := RemoveFrom(Booting(N_PCBS, N_STACKS), PCB_AVAIL);
            var b := RemoveFrom(a.0, STACK_AVAIL);
            a.1 == b.1 == Success && a.2 == b.2 == 0 && b.0 == Initial().q
  {
    assert RemoveAt(Numbered(0, N_PCBS), 0) == Numbered(1, N_PCBS);
    assert RemoveAt(Numbered(0, N_STACKS), 0) == Numbered(1, N_STACKS);
    var a := RemoveFrom(Booting(N_PCBS, N_STACKS), PCB_AVAIL);
    var b := RemoveFrom(a.0, STACK_AVAIL);
    assert b.0.all == Initial().q.all;
  }

  /** The queue module with every PCB and every stack on its free list. */
  method MakeQueues() returns (qm: QueueModule)
    ensures fresh(qm) && fresh(qm.nodes) && fresh(qm.queues)
    ensures qm.Valid() && qm.Abs() == Booting(N_PCBS, N_STACKS)
  {
    qm := new QueueModule(N_QNODES, Routines());
    BootingEmpty();
    for i := 0 to N_PCBS
      invariant qm.Valid() && qm.Abs() == Booting(i, 0)
      modifies qm, qm.nodes, qm.queues
    {
      BootingStep(i, 0);
      var status := qm.Append(PCB_AVAIL, i, 0);
    }
    for i := 0 to N_STACKS
      invariant qm.Valid() && qm.Abs() == Booting(N_PCBS, i)
      modifies qm, qm.nodes, qm.queues
    {
      BootingStep(N_PCBS, i);
      var status := qm.Append(STACK_AVAIL, i, 0);
    }
  }

  class System {
    const qm: QueueModule
    const pcbs: array<Pcb>
    var current: nat
    var time: nat
    var nextPid: nat
    var input: nat

    /** Module set-up, then the first process: PCB, stack and pid, and it is running. */
    constructor ()
      ensures Valid() && Abs() == Initial()
      ensures fresh(qm) && fresh(qm.nodes) && fresh(qm.queues) && fresh(pcbs)
    {
      var queues := MakeQueues();
      qm := queues;
      pcbs := new Pcb[N_PCBS](i => CLEARED);
      time, input := 0, 0;
      new;
      BootingTaken();
      var status, p := qm.Remove(PCB_AVAIL);
      var status2, stack := qm.Remove(STACK_AVAIL);
      InitialIs(pcbs[..], qm.Abs());
      pcbs[p] := Pcb(RUNNING, PID_INIT, PID_INIT, PRIO_MAXIMUM, stack, 0);
      nextPid := PID_INIT + 1;
      current := p;
      assert pcbs[..] == Initial().pcbs;
    }

    ghost predicate Valid()
      reads this, qm, qm.nodes, qm.queues, pcbs
    {
      qm.Valid() && pcbs.Length == N_PCBS && qm.queues.Length == N_QUEUES && current < N_PCBS
    }

    ghost function Abs(): (s: Kernel)
      reads this, qm, qm.nodes, qm.queues, pcbs
      requires Valid()
      ensures Shape(s)
    {
      Kernel(pcbs[..], qm.Abs(), current, time, nextPid, input)
    }

    /** The routine ended as the outcome says; after a panic the state no longer matters. */
    ghost predicate EndedAs(r: Halt, o: Outcome)
      reads this, qm, qm.nodes, qm.queues, pcbs
      requires Valid()
    {
      match o
      case Ok(s) => r == Running && Abs() == s
      case Panicked(why) => r == Panic(why)
    }

    // ---------- process.c and stack.c ----------

    method PcbFind(pid: nat) returns (i: nat)
      requires Valid()
      ensures i == ProcessSpec.PcbFind(pcbs[..], pid)
    {
      i := 0;
      while i < N_PCBS
        invariant i <= N_PCBS
        invariant forall j :: 0 <= j < i ==> pcbs[j].state == FREE || pcbs[j].pid != pid
      {
        if pcbs[i].state != FREE && pcbs[i].pid == pid {
          break;
        }
        i := i + 1;
      }
      PcbFindAt(pcbs[..], pid, i);
    }

    method PcbFree(p: nat) returns (r: Halt)
      requires Valid() && p < N_PCBS
      modifies this, qm, qm.nodes, qm.queues, pcbs
      ensures Valid() && EndedAs(r, ProcessSpec.PcbFree(old(Abs()), p)) && nextPid == old(nextPid)
    {
      pcbs[p] := CLEARED;
      var status := qm.Append(PCB_AVAIL, p, 0);
      return if status == Success then Running else Panic(QueueStatus);
    }

    method StackFree(st: nat) returns (r: Halt)
      requires Valid()
      modifies this, qm, qm.nodes, qm.queues
      ensures Valid() && EndedAs(r, ProcessSpec.StackFree(old(Abs()), st))
    {
      var status := qm.Append(STACK_AVAIL, st, 0);
      return if status == Success then Running else Panic(QueueStatus);
    }

    // ---------- scheduler.c ----------

    method Schedule(p: nat, prio: nat) returns (r: Halt)
      requires Valid() && p < N_PCBS
      modifies this, qm, qm.nodes, qm.queues, pcbs
      ensures Valid() && EndedAs(r, ProcessSpec.Schedule(old(Abs()), p, prio)) && nextPid == old(nextPid)
    {
      var level := if prio >= N_PRIORITIES then N_PRIORITIES - 1 else prio;
      pcbs[p] := pcbs[p].(state := READY);
      var status := qm.Append(level, p, 0);
      return if status == Success then Running else Panic(QueueStatus);
    }

    method FirstReady() returns (i: nat)
      requires Valid()
      ensures i == ProcessSpec.FirstReady(Abs().q.all)
    {
      i := 0;
      while i < N_PRIORITIES
        invariant i <= N_PRIORITIES
        invariant forall j :: 0 <= j < i ==> Abs().q.all[j].items == []
      {
        QueueLength(i);
        if qm.queues[i].length >= 1 {
          break;
        }
        i := i + 1;
      }
    }

    method TakeReady() returns (r: Halt)
      requires Valid()
      modifies this, qm, qm.nodes, qm.queues
      ensures Valid() && EndedAs(r, ProcessSpec.TakeReady(old(Abs())))
    {
      var i := FirstReady();
      if i >= N_PRIORITIES {
        return Panic(AllQueuesEmpty);
      }
      var status, p := qm.Remove(i);
      if status != Success {
        return Panic(QueueStatus);
      }
      if p >= N_PCBS {
        return Panic(WildPointer);
      }
      current := p;
      return Running;
    }

    /** A header's length is the length of its queue. */
    lemma QueueLength(k: nat)
      requires Valid() && k < N_QUEUES
      ensures qm.queues[k].length == |Abs().q.all[k].items|
    {
      assert QueueOk(qm.nodes[..], qm.owner, qm.queues[..], qm.chains, k);
    }

    method Dispatch() returns (r: Halt)
      requires Valid()
      modifies this, qm, qm.nodes, qm.queues, pcbs
      ensures Valid() && EndedAs(r, ProcessSpec.Dispatch(old(Abs())))
    {
      while true
        invariant Valid() && ProcessSpec.Dispatch(Abs()) == ProcessSpec.Dispatch(old(Abs()))
        decreases KilledCount(pcbs[..])
      {
        ghost var s := Abs();
        r := TakeReady();
        if r != Running {
          return;
        }
        ghost var t := Abs();
        if pcbs[current].state == READY {
          break;
        }
        if pcbs[current].state == KILLED {
          ZombifyLowersKilled(t);
          r := Zombify(current);
          if r != Running {
            return;
          }
        } else {
          return Panic(NonReady);
        }
      }
      pcbs[current] := pcbs[current].(state := RUNNING);
    }

    // ---------- system.c ----------

    method Zombify(p: nat) returns (r: Halt)
      requires Valid() && p < N_PCBS
      modifies this, qm, qm.nodes, qm.queues, pcbs
      ensures Valid() && EndedAs(r, ProcessSpec.Zombify(old(Abs()), p))
    {
      var parent := PcbFind(pcbs[p].ppid);
      if parent == N_PCBS {
        return Panic(NoParent);
      }
      if pcbs[parent].state == WAITING {
        var pid := pcbs[parent].waitFor;
        if pid == 0 || pid == pcbs[current].pid {
          r := WakeParent(p, pcbs[parent].pid);
          return;
        }
      }
      var key := pcbs[current].pid;
      pcbs[current] := pcbs[current].(state := ZOMBIE);
      var status := qm.Insert(ZOMBIES, current, key);
      return if status == Success then Running else Panic(QueueStatus);
    }

    method WakeParent(p: nat, key: nat) returns (r: Halt)
      requires Valid() && p < N_PCBS
      modifies this, qm, qm.nodes, qm.queues, pcbs
      ensures Valid() && EndedAs(r, ProcessSpec.WakeParent(old(Abs()), p, key))
    {
      var status, parent := qm.RemoveKeyed(WAITING_Q, key);
      if status != Success {
        return Panic(QueueStatus);
      }
      if parent >= N_PCBS {
        return Panic(WildPointer);
      }
      r := StackFree(pcbs[p].stack);
      if r != Running {
        return;
      }
      r := PcbFree(p);
      if r != Running {
        return;
      }
      r := Schedule(parent, PRIO_MAXIMUM);
    }

    // ---------- syscall.c ----------

    method Requeue(prio: nat) returns (r: Halt)
      requires Valid()
      modifies this, qm, qm.nodes, qm.queues, pcbs
      ensures Valid() && EndedAs(r, ProcessSpec.Requeue(old(Abs()), prio))
    {
      r := Schedule(current, prio);
      if r == Running {
        r := Dispatch();
      }
    }

    /** The caller gets the child's pid, or -1 if no PCB or no stack could be had. */
    method SysFork() returns (r: Halt, eax: int)
      requires Valid()
      modifies this, qm, qm.nodes, qm.queues, pcbs
      ensures Valid() && EndedAs(r, ProcessSpec.Fork(old(Abs())))
      ensures r == Running ==>
                var q := old(Abs()).q;
                eax == if q.all[PCB_AVAIL].items == [] || q.all[STACK_AVAIL].items == [] then -1 else old(nextPid)
      ensures nextPid == if eax == -1 then old(nextPid) else old(nextPid) + 1
    {
      eax := -1;
      var status, child := qm.Remove(PCB_AVAIL);
      if status != Success {
        return Running, -1;
      }
      if child >= N_PCBS {
        return Panic(WildPointer), -1;
      }
      var status2, stack := qm.Remove(STACK_AVAIL);
      if status2 != Success {
        r := PcbFree(child);
        return;
      }
      eax := nextPid;
      r := Adopt(child, stack);
    }

    method Adopt(child: nat, stack: nat) returns (r: Halt)
      requires Valid() && child < N_PCBS
      modifies this, qm, qm.nodes, qm.queues, pcbs
      ensures Valid() && EndedAs(r, ProcessSpec.Adopt(old(Abs()), child, stack))
      ensures nextPid == old(nextPid) + 1
    {
      pcbs[child] := pcbs[child].(pid := nextPid);
      nextPid := nextPid + 1;
      pcbs[child] := pcbs[child].(ppid := pcbs[current].pid);
      pcbs[child] := pcbs[child].(prio := pcbs[current].prio);
      pcbs[child] := pcbs[child].(stack := stack);
      assert pcbs[..] == old(pcbs[..])[child := pcbs[child]];
      r := Schedule(child, pcbs[child].prio);
    }

    method SysExec(prio: nat) returns (r: Halt)
      requires Valid()
      modifies this, qm, qm.nodes, qm.queues, pcbs
      ensures Valid() && EndedAs(r, ProcessSpec.Exec(old(Abs()), prio))
    {
      pcbs[current] := pcbs[current].(prio := prio % 256);
      r := Requeue(prio % 256);
    }

    method SysSleep(ticks: nat) returns (r: Halt)
      requires Valid()
      modifies this, qm, qm.nodes, qm.queues, pcbs
      ensures Valid() && EndedAs(r, ProcessSpec.Sleep(old(Abs()), ticks))
    {
      var key := Add32(time, ticks);
      pcbs[current] := pcbs[current].(state := SLEEPING);
      var status := qm.Insert(SLEEP, current, key);
      if status != Success {
        return Running;
      }
      r := Dispatch();
    }

    method SysReadc() returns (r: Halt)
      requires Valid()
      modifies this, qm, qm.nodes, qm.queues, pcbs
      ensures Valid() && EndedAs(r, ProcessSpec.Readc(old(Abs())))
    {
      if input > 0 {
        input := input - 1;
        return Running;
      }
      assert SetPcb(Abs(), current, pcbs[current]) == Abs();
      var status := qm.Insert(READING, current, pcbs[current].pid);
      if status != Success {
        return Panic(QueueStatus);
      }
      r := Dispatch();
    }

    method SerialInput() returns (r: Halt)
      requires Valid()
      modifies this, qm, qm.nodes, qm.queues, pcbs
      ensures Valid() && EndedAs(r, ProcessSpec.SerialInput(old(Abs())))
    {
      QueueLength(READING);
      if qm.queues[READING].length >= 1 {
        var status, p := qm.Remove(READING);
        if status != Success {
          return Panic(QueueStatus);
        }
        if p >= N_PCBS {
          return Panic(WildPointer);
        }
        r := Schedule(p, pcbs[p].prio);
      } else {
        if input < BUF_SIZE {
          input := input + 1;
        }
        r := Running;
      }
    }

    method SysKill(pid: nat) returns (r: Halt)
      requires Valid()
      modifies this, qm, qm.nodes, qm.queues, pcbs
      ensures Valid() && EndedAs(r, ProcessSpec.Kill(old(Abs()), pid))
    {
      var p := PcbFind(pid);
      if p == N_PCBS {
        return Running;
      }
      pcbs[p] := pcbs[p].(state := KILLED);
      r := Running;
      if p == current {
        r := Requeue(pcbs[p].prio);
      }
    }

    /** The scan for a child: its last index is never past the end, so the last PCB stands in for none. */
    method AnyChild() returns (p: nat)
      requires Valid()
      ensures p == ProcessSpec.AnyChild(Abs())
    {
      var i := 0;
      p := 0;
      while i < N_PCBS
        invariant i <= N_PCBS
        invariant i > 0 ==> p == i - 1
        invariant forall j :: 0 <= j < i ==> !(pcbs[j].ppid == pcbs[current].pid && pcbs[j].state == ZOMBIE)
      {
        p := i;
        if pcbs[i].ppid == pcbs[current].pid {
          if pcbs[i].state == ZOMBIE {
            break;
          }
        }
        i := i + 1;
      }
      ZombieChildAt(pcbs[..], pcbs[current].pid, i);
    }

    method SysWait(target: nat) returns (r: Halt)
      requires Valid()
      modifies this, qm, qm.nodes, qm.queues, pcbs
      ensures Valid() && EndedAs(r, ProcessSpec.Wait(old(Abs()), target))
    {
      var p;
      if target > 0 {
        p := PcbFind(target);
        if p == N_PCBS {
          return Running;
        }
      } else {
        p := AnyChild();
      }
      if pcbs[p].state == ZOMBIE {
        r := Reap(pcbs[p].pid);
        return;
      }
      var key := pcbs[current].pid;
      pcbs[current] := pcbs[current].(state := WAITING, waitFor := target);
      var status := qm.Insert(WAITING_Q, current, key);
      if status != Success {
        return Panic(QueueStatus);
      }
      r := Dispatch();
    }

    method Reap(key: nat) returns (r: Halt)
      requires Valid()
      modifies this, qm, qm.nodes, qm.queues, pcbs
      ensures Valid() && EndedAs(r, ProcessSpec.Reap(old(Abs()), key))
    {
      var status, z := qm.RemoveKeyed(ZOMBIES, key);
      if status != Success {
        return Panic(QueueStatus);
      }
      if z >= N_PCBS {
        return Panic(WildPointer);
      }
      r := StackFree(pcbs[z].stack);
      if r == Running {
        r := PcbFree(z);
      }
    }

    method SysExit() returns (r: Halt)
      requires Valid()
      modifies this, qm, qm.nodes, qm.queues, pcbs
      ensures Valid() && EndedAs(r, ProcessSpec.Exit(old(Abs())))
    {
      ghost var s := Abs();
      Reparent(pcbs[current].pid);
      assert Abs() == s.(pcbs := ProcessSpec.Reparent(s.pcbs, s.pcbs[s.current].pid));
      r := Zombify(current);
      if r == Running {
        r := Dispatch();
      }
    }

    method Reparent(pid: nat)
      requires Valid()
      modifies pcbs
      ensures Valid() && pcbs[..] == ProcessSpec.Reparent(old(pcbs[..]), pid)
    {
      var i := 0;
      while i < N_PCBS
        invariant i <= N_PCBS && Valid()
        invariant forall j :: 0 <= j < i ==> pcbs[j] == ProcessSpec.Reparent(old(pcbs[..]), pid)[j]
        invariant forall j :: i <= j < N_PCBS ==> pcbs[j] == old(pcbs[j])
      {
        if pcbs[i].ppid == pid {
          pcbs[i] := pcbs[i].(ppid := PID_INIT);
        }
        i := i + 1;
      }
    }

    // ---------- clock.c ----------

    method IsrClock() returns (r: Halt)
      requires Valid()
      modifies this, qm, qm.nodes, qm.queues, pcbs
      ensures Valid() && EndedAs(r, ProcessSpec.Tick(old(Abs())))
    {
      time := Add32(time, 1);
      r := WakeSleepers();
      if r == Running {
        r := Requeue(pcbs[current].prio);
      }
    }

    method WakeSleepers() returns (r: Halt)
      requires Valid()
      modifies this, qm, qm.nodes, qm.queues, pcbs
      ensures Valid() && EndedAs(r, ProcessSpec.WakeSleepers(old(Abs())))
    {
      while true
        invariant Valid() && ProcessSpec.WakeSleepers(Abs()) == ProcessSpec.WakeSleepers(old(Abs()))
        decreases |Abs().q.all[SLEEP].items|
      {
        WakeNext(Abs());
        var status, p := qm.RemoveKeyed(SLEEP, time);
        if status != Success {
          return Running;
        }
        if p >= N_PCBS {
          return Panic(WildPointer);
        }
        r := Schedule(p, PRIO_MAXIMUM);
        if r != Running {
          return;
        }
      }
    }
  }

  /** Waking goes on with one sleeper less after each that is due. */
  lemma WakeNext(s: Kernel)
    requires Shape(s)
    ensures var (q, status, p) := RemoveByKey(s.q, SLEEP, s.time);
            && (status != Success ==> ProcessSpec.WakeSleepers(s) == Ok(s))
            && (status == Success && p >= N_PCBS ==> ProcessSpec.WakeSleepers(s) == Panicked(WildPointer))
            && (status == Success && p < N_PCBS ==>
                  var t := ProcessSpec.Schedule(s.(q := q), p, PRIO_MAXIMUM);
                  && (t.Panicked? ==> ProcessSpec.WakeSleepers(s) == t)
                  && (t.Ok? ==>
                        && ProcessSpec.WakeSleepers(s) == ProcessSpec.WakeSleepers(t.value)
                        && |t.value.q.all[SLEEP].items| < |s.q.all[SLEEP].items|))
  {}

  lemma ZombieChildAt(pcbs: seq<Pcb>, pid: nat, i: nat)
    requires i <= |pcbs| && forall j :: 0 <= j < i ==> !(pcbs[j].ppid == pid && pcbs[j].state == ZOMBIE)
    requires i < |pcbs| ==> pcbs[i].ppid == pid && pcbs[i].state == ZOMBIE
    ensures ZombieChild(pcbs, pid) == i
  {}

  lemma PcbFindAt(pcbs: seq<Pcb>, pid: nat, i: nat)
    requires i <= |pcbs| && forall j :: 0 <= j < i ==> pcbs[j].state == FREE || pcbs[j].pid != pid
    requires i < |pcbs| ==> pcbs[i].state != FREE && pcbs[i].pid == pid
    ensures ProcessSpec.PcbFind(pcbs, pid) == i
  {}
}