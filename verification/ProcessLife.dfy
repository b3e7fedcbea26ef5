/**
 Who waits for whom: no process but init stays WAITING for a child that is already a zombie, whatever
 is forked, waited for, killed or ended, so no wake-up is lost.
 */
module ProcessLife {
  import opened QueueSpec
  import opened ProcessSpec
  import opened ProcessInv

  // ---------- no lost wake-up ----------

  /** Process `w`, unless its pid is `but`, is not waiting for a termination that has already happened. */
  predicate Notified(pcbs: seq<Pcb>, but: nat, w: nat, c: nat)
    requires w < |pcbs| && c < |pcbs|
  {
    pcbs[w].state == WAITING && pcbs[w].pid != but && pcbs[c].state == ZOMBIE && pcbs[c].ppid == pcbs[w].pid
    ==> pcbs[w].waitFor != 0 && pcbs[w].waitFor != pcbs[c].pid
  }

  ghost predicate NoLostWakeup(pcbs: seq<Pcb>, but: nat) {
    forall w, c :: 0 <= w < |pcbs| && 0 <= c < |pcbs| ==> Notified(pcbs, but, w, c)
  }

  /** Only a process that starts to wait, or dies, can miss or be missed. */
  lemma CalmUpdate(pcbs: seq<Pcb>, p: nat, pcb: Pcb, but: nat)
    requires NoLostWakeup(pcbs, but) && p < |pcbs| && pcb.state != WAITING && pcb.state != ZOMBIE
    ensures NoLostWakeup(pcbs[p := pcb], but)
  {
    var pcbs' := pcbs[p := pcb];
    forall w, c | 0 <= w < |pcbs| && 0 <= c < |pcbs| ensures Notified(pcbs', but, w, c) {
      assert Notified(pcbs, but, w, c);
    }
  }

  lemma SamePid(pcbs: seq<Pcb>, nextPid: nat, p: nat, r: nat)
    requires PidsOk(pcbs, nextPid) && p < |pcbs| && r < |pcbs|
    requires pcbs[p].state != FREE && pcbs[r].state != FREE && pcbs[p].pid == pcbs[r].pid
    ensures p == r
  {
    assert p != r ==> PidsDiffer(pcbs, p, r);
  }

  lemma ScheduleNotifies(s: Kernel, p: nat, prio: nat, but: nat)
    requires Shape(s) && p < N_PCBS && NoLostWakeup(s.pcbs, but)
    ensures var r := Schedule(s, p, prio); r.Ok? ==> NoLostWakeup(r.value.pcbs, but)
  {
    CalmUpdate(s.pcbs, p, s.pcbs[p].(state := READY), but);
  }

  lemma ZombifyNotifies(s: Kernel, but: nat)
    requires Inv(s, {s.current}) && NoLostWakeup(s.pcbs, but)
    requires s.pcbs[s.current].state == RUNNING || s.pcbs[s.current].state == KILLED
    ensures var r := Zombify(s, s.current); r.Ok? ==> NoLostWakeup(r.value.pcbs, but)
  {
    var p := s.current;
    var parent := PcbFind(s.pcbs, s.pcbs[p].ppid);
    if parent < N_PCBS {
      if s.pcbs[parent].state == WAITING
         && (s.pcbs[parent].waitFor == 0 || s.pcbs[parent].waitFor == s.pcbs[p].pid) {
        WakeParentKeeps(s, parent);
        CalmUpdate(s.pcbs, p, CLEARED, but);
        CalmUpdate(s.pcbs[p := CLEARED], parent, s.pcbs[parent].(state := READY), but);
      } else {
        var pcbs' := s.pcbs[p := s.pcbs[p].(state := ZOMBIE)];
        forall w, c | 0 <= w < N_PCBS && 0 <= c < N_PCBS ensures Notified(pcbs', but, w, c) {
          assert Notified(s.pcbs, but, w, c);
          if c == p && s.pcbs[w].state == WAITING && s.pcbs[w].pid == s.pcbs[p].ppid {
            SamePid(s.pcbs, s.nextPid, w, parent);
          }
        }
      }
    }
  }

  lemma {:induction false} DispatchNotifies(s: Kernel, but: nat)
    requires Inv(s, {}) && NoLostWakeup(s.pcbs, but)
    ensures var r := Dispatch(s); r.Ok? ==> NoLostWakeup(r.value.pcbs, but)
    decreases KilledCount(s.pcbs)
  {
    TakeReadyKeeps(s);
    var r := TakeReady(s);
    if r.Ok? {
      var t := r.value;
      if t.pcbs[t.current].state == READY {
        CalmUpdate(t.pcbs, t.current, t.pcbs[t.current].(state := RUNNING), but);
      } else {
        ZombifyKeeps(t);
        ZombifyNotifies(t, but);
        var z := Zombify(t, t.current);
        if z.Ok? {
          ZombifyLowersKilled(t);
          DispatchNotifies(z.value, but);
        }
      }
    }
  }

  lemma RequeueNotifies(s: Kernel, prio: nat, but: nat)
    requires Inv(s, {s.current}) && s.pcbs[s.current].state != FREE && NoLostWakeup(s.pcbs, but)
    ensures var r := Requeue(s, prio); r.Ok? ==> NoLostWakeup(r.value.pcbs, but)
  {
    ScheduleKeeps(s, {s.current}, s.current, prio);
    assert {s.current} - {s.current} == {};
    ScheduleNotifies(s, s.current, prio, but);
    DispatchNotifies(Schedule(s, s.current, prio).value, but);
  }

  lemma BlockNotifies(s: Kernel, k: nat, pcb: Pcb, key: nat, but: nat)
    requires Good(s) && k <= ZOMBIES && StateOn(k, pcb.state) && (KeyedByPid(k) ==> key == pcb.pid)
    requires pcb.pid == s.pcbs[s.current].pid && pcb.stack == s.pcbs[s.current].stack && pcb.state != FREE
    requires NoLostWakeup(s.pcbs[s.current := pcb], but)
    ensures var r := Block(s, k, pcb, key); r.Ok? ==> NoLostWakeup(r.value.pcbs, but)
  {
    var hand := {s.current};
    ChangeInv(s, hand, s.current, pcb);
    var t := SetPcb(s, s.current, pcb);
    InsertKeeps(t, hand, k, Entry(s.current, key));
    assert hand - {s.current} == {};
    DispatchNotifies(t.(q := InsertTo(t.q, k, Entry(s.current, key)).0), but);
  }

  /** A caller blocks only if what it asks for has not happened yet. */
  lemma WaitNotifies(s: Kernel, target: nat, but: nat)
    requires Good(s) && NoLostWakeup(s.pcbs, but)
    ensures var r := Wait(s, target); r.Ok? ==> NoLostWakeup(r.value.pcbs, but)
  {
    var p := if target > 0 then PcbFind(s.pcbs, target) else AnyChild(s);
    if p < N_PCBS {
      if s.pcbs[p].state == ZOMBIE {
        ReapKeeps(s, p);
        CalmUpdate(s.pcbs, p, CLEARED, but);
      } else {
        var pcb := s.pcbs[s.current].(state := WAITING, waitFor := target);
        var pcbs' := s.pcbs[s.current := pcb];
        forall w, c | 0 <= w < N_PCBS && 0 <= c < N_PCBS ensures Notified(pcbs', but, w, c) {
          assert Notified(s.pcbs, but, w, c);
          if target > 0 && s.pcbs[c].state == ZOMBIE && s.pcbs[c].pid == target {
            SamePid(s.pcbs, s.nextPid, c, p);
          }
        }
        BlockNotifies(s, WAITING_Q, pcb, pcb.pid, but);
      }
    }
  }

  lemma ReparentNotifies(pcbs: seq<Pcb>, pid: nat)
    requires NoLostWakeup(pcbs, PID_INIT)
    ensures NoLostWakeup(Reparent(pcbs, pid), PID_INIT)
  {
    var pcbs' := Reparent(pcbs, pid);
    forall w, c | 0 <= w < |pcbs'| && 0 <= c < |pcbs'| ensures Notified(pcbs', PID_INIT, w, c) {
      assert Notified(pcbs, PID_INIT, w, c);
    }
  }

  lemma ExitNotifies(s: Kernel)
    requires Good(s) && NoLostWakeup(s.pcbs, PID_INIT)
    ensures var r := Exit(s); r.Ok? ==> NoLostWakeup(r.value.pcbs, PID_INIT)
  {
    assert PidOk(s.pcbs, s.nextPid, s.current);
    var pid := s.pcbs[s.current].pid;
    ReparentInv(s, {s.current}, pid);
    ReparentNotifies(s.pcbs, pid);
    var t := s.(pcbs := Reparent(s.pcbs, pid));
    ZombifyKeeps(t);
    ZombifyNotifies(t, PID_INIT);
    var u := Zombify(t, t.current);
    if u.Ok? {
      DispatchNotifies(u.value, PID_INIT);
    }
  }

  lemma {:induction false} WakeSleepersNotifies(s: Kernel, but: nat)
    requires Shape(s) && NoLostWakeup(s.pcbs, but)
    ensures var r := WakeSleepers(s); r.Ok? ==> NoLostWakeup(r.value.pcbs, but)
    decreases |s.q.all[SLEEP].items|
  {
    var (q, status, p) := RemoveByKey(s.q, SLEEP, s.time);
    if status == Success && p < N_PCBS {
      ScheduleNotifies(s.(q := q), p, PRIO_MAXIMUM, but);
      var t := Schedule(s.(q := q), p, PRIO_MAXIMUM);
      if t.Ok? {
        WakeSleepersNotifies(t.value, but);
      }
    }
  }

  lemma TickNotifies(s: Kernel, but: nat)
    requires Good(s) && NoLostWakeup(s.pcbs, but)
    ensures var r := Tick(s); r.Ok? ==> NoLostWakeup(r.value.pcbs, but)
  {
    var t := s.(time := Add32(s.time, 1));
    ClockInv(s, t.time);
    WakeSleepersKeeps(t);
    WakeSleepersNotifies(t, but);
    var u := WakeSleepers(t).value;
    RequeueNotifies(u, u.pcbs[u.current].prio, but);
  }

  lemma ForkNotifies(s: Kernel, but: nat)
    requires Good(s) && NoLostWakeup(s.pcbs, but)
    ensures var r := Fork(s); r.Ok? ==> NoLostWakeup(r.value.pcbs, but)
  {
    if s.q.all[PCB_AVAIL].items != [] {
      var child, parent := s.q.all[PCB_AVAIL].items[0].data, s.pcbs[s.current];
      TakeInv(s, {s.current}, PCB_AVAIL, 0);
      ForkKeeps(s);
      var t := Fork(s).value;
      var stack: nat :| t == s.(q := t.q, nextPid := s.nextPid + 1,
        pcbs := s.pcbs[child := Pcb(READY, s.nextPid, parent.pid, parent.prio, stack, 0)]);
      CalmUpdate(s.pcbs, child, Pcb(READY, s.nextPid, parent.pid, parent.prio, stack, 0), but);
    }
  }

  lemma ExecNotifies(s: Kernel, prio: nat, but: nat)
    requires Good(s) && NoLostWakeup(s.pcbs, but)
    ensures var r := Exec(s, prio); r.Ok? ==> NoLostWakeup(r.value.pcbs, but)
  {
    var pcb := s.pcbs[s.current].(prio := prio % 256);
    ChangeInv(s, {s.current}, s.current, pcb);
    CalmUpdate(s.pcbs, s.current, pcb, but);
    RequeueNotifies(SetPcb(s, s.current, pcb), prio % 256, but);
  }

  lemma KillNotifies(s: Kernel, pid: nat, but: nat)
    requires Good(s) && NoLostWakeup(s.pcbs, but)
    ensures var r := Kill(s, pid); r.Ok? ==> NoLostWakeup(r.value.pcbs, but)
  {
    var p := PcbFind(s.pcbs, pid);
    if p < N_PCBS {
      CalmUpdate(s.pcbs, p, s.pcbs[p].(state := KILLED), but);
      if p == s.current {
        ChangeInv(s, {p}, p, s.pcbs[p].(state := KILLED));
        RequeueNotifies(SetState(s, p, KILLED), s.pcbs[p].prio, but);
      }
    }
  }

  lemma SleepNotifies(s: Kernel, ticks: nat, but: nat)
    requires Good(s) && NoLostWakeup(s.pcbs, but)
    ensures var r := Sleep(s, ticks); r.Ok? ==> NoLostWakeup(r.value.pcbs, but)
  {
    var pcb, key := s.pcbs[s.current].(state := SLEEPING), Add32(s.time, ticks);
    CalmUpdate(s.pcbs, s.current, pcb, but);
    BlockKeeps(s, SLEEP, pcb, key);
    BlockNotifies(s, SLEEP, pcb, key, but);
  }

  lemma ReadcNotifies(s: Kernel, but: nat)
    requires Good(s) && NoLostWakeup(s.pcbs, but)
    ensures var r := Readc(s); r.Ok? ==> NoLostWakeup(r.value.pcbs, but)
  {
    if s.input == 0 {
      CalmUpdate(s.pcbs, s.current, s.pcbs[s.current], but);
      BlockNotifies(s, READING, s.pcbs[s.current], s.pcbs[s.current].pid, but);
    }
  }

  lemma SerialNotifies(s: Kernel, but: nat)
    requires Good(s) && NoLostWakeup(s.pcbs, but)
    ensures var r := SerialInput(s); r.Ok? ==> NoLostWakeup(r.value.pcbs, but)
  {
    if s.q.all[READING].items != [] {
      var (q, status, p) := RemoveFrom(s.q, READING);
      if p < N_PCBS {
        ScheduleNotifies(s.(q := q), p, s.pcbs[p].prio, but);
      }
    }
  }

  /** No step loses a wake-up; with init exempt not even an exit, which can hand it zombies (`but` 0 exempts nobody). */
  lemma StepNotifies(s: Kernel, e: Event, but: nat)
    requires Good(s) && NoLostWakeup(s.pcbs, but) && (e.ExitCall? ==> but == PID_INIT)
    ensures var r := Step(s, e); r.Ok? ==> NoLostWakeup(r.value.pcbs, but)
  {
    match e
    case ForkCall => ForkNotifies(s, but);
    case ExecCall(prio) => ExecNotifies(s, prio, but);
    case SleepCall(ticks) => SleepNotifies(s, ticks, but);
    case ReadcCall => ReadcNotifies(s, but);
    case WaitCall(target) => WaitNotifies(s, target, but);
    case ExitCall => ExitNotifies(s);
    case KillCall(pid) => KillNotifies(s, pid, but);
    case SetPrioCall(prio) => CalmUpdate(s.pcbs, s.current, s.pcbs[s.current].(prio := prio % 256), but);
    case SetTimeCall(time) =>
    case ClockTick => TickNotifies(s, but);
    case SerialChar => SerialNotifies(s, but);
  }

  lemma {:induction false} RunNotifies(s: Kernel, events: seq<Event>)
    requires Good(s) && NoLostWakeup(s.pcbs, PID_INIT)
    ensures var r := Run(s, events); r.Ok? ==> NoLostWakeup(r.value.pcbs, PID_INIT)
    decreases |events|
  {
    if events != [] {
      StepKeeps(s, events[0]);
      StepNotifies(s, events[0], PID_INIT);
      var r := Step(s, events[0]);
      if r.Ok? {
        RunNotifies(r.value, events[1..]);
      }
    }
  }

  /** From boot, in every reachable state, no process but init waits for a zombie child it could have reaped. */
  lemma NoWakeupLost(events: seq<Event>)
    ensures var r := Run(Initial(), events); r.Ok? ==> NoLostWakeup(r.value.pcbs, PID_INIT)
  {
    InitialGood();
    var pcbs := Initial().pcbs;
    forall w, c | 0 <= w < |pcbs| && 0 <= c < |pcbs| ensures Notified(pcbs, PID_INIT, w, c) {}
    RunNotifies(Initial(), events);
  }
}
