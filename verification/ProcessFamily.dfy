/**
 While nothing is killed and init does not exit, every process has a living parent, so the
 "no process parent" panic cannot be reached.
 */
module ProcessFamily {
  import opened QueueSpec
  import opened ProcessSpec
  import opened ProcessInv
  import opened ProcessLife
  import opened ProcessOrder

  predicate Living(st: ProcState) {
    st != FREE && st != ZOMBIE
  }

  predicate LivingAs(pcbs: seq<Pcb>, r: nat, pid: nat) {
    r < |pcbs| && Living(pcbs[r].state) && pcbs[r].pid == pid
  }

  ghost predicate SomeLiving(pcbs: seq<Pcb>, pid: nat) {
    exists r: nat :: LivingAs(pcbs, r, pid)
  }

  ghost predicate Parented(pcbs: seq<Pcb>, p: nat)
    requires p < |pcbs|
  {
    pcbs[p].state != FREE ==> SomeLiving(pcbs, pcbs[p].ppid)
  }

  predicate NoneKilled(pcbs: seq<Pcb>) {
    forall p :: 0 <= p < |pcbs| ==> pcbs[p].state != KILLED
  }

  ghost predicate Family(pcbs: seq<Pcb>) {
    && NoneKilled(pcbs)
    && SomeLiving(pcbs, PID_INIT)
    && (forall p :: 0 <= p < |pcbs| ==> Parented(pcbs, p))
  }

  lemma StillLiving(pcbs: seq<Pcb>, p: nat, pcb: Pcb, pid: nat)
    requires p < |pcbs| && SomeLiving(pcbs, pid)
    requires pcbs[p].pid == pid && Living(pcbs[p].state) ==> Living(pcb.state) && pcb.pid == pid
    ensures SomeLiving(pcbs[p := pcb], pid)
  {
    var r: nat :| LivingAs(pcbs, r, pid);
    assert LivingAs(pcbs[p := pcb], r, pid);
  }

  /** A process that stays alive under its own pid, and under its parent's, changes nothing. */
  lemma AliveUpdate(pcbs: seq<Pcb>, p: nat, pcb: Pcb)
    requires Family(pcbs) && p < |pcbs| && Living(pcb.state) && pcb.state != KILLED
    requires Living(pcbs[p].state) ==> pcb.pid == pcbs[p].pid
    requires SomeLiving(pcbs, pcb.ppid)
    ensures Family(pcbs[p := pcb])
  {
    var pcbs' := pcbs[p := pcb];
    StillLiving(pcbs, p, pcb, PID_INIT);
    StillLiving(pcbs, p, pcb, pcb.ppid);
    forall c | 0 <= c < |pcbs| ensures Parented(pcbs', c) {
      assert Parented(pcbs, c);
      if c != p && pcbs[c].state != FREE {
        StillLiving(pcbs, p, pcb, pcbs[c].ppid);
      }
    }
  }

  /** The death, or the removal, of a process nobody has as parent. */
  lemma DeadUpdate(pcbs: seq<Pcb>, p: nat, pcb: Pcb)
    requires Family(pcbs) && p < |pcbs|
    requires pcb == CLEARED || (pcb == pcbs[p].(state := ZOMBIE) && pcbs[p].state != FREE)
    requires Living(pcbs[p].state) ==>
               pcbs[p].pid != PID_INIT
               && forall c :: 0 <= c < |pcbs| && pcbs[c].state != FREE ==> pcbs[c].ppid != pcbs[p].pid
    ensures Family(pcbs[p := pcb])
  {
    var pcbs' := pcbs[p := pcb];
    StillLiving(pcbs, p, pcb, PID_INIT);
    forall c | 0 <= c < |pcbs| ensures Parented(pcbs', c) {
      assert Parented(pcbs, c);
      if pcbs[c].state != FREE {
        StillLiving(pcbs, p, pcb, pcbs[c].ppid);
      }
    }
  }

  lemma FindLiving(pcbs: seq<Pcb>, pid: nat)
    requires SomeLiving(pcbs, pid)
    ensures PcbFind(pcbs, pid) < |pcbs|
  {
    var r: nat :| LivingAs(pcbs, r, pid);
    assert r < |pcbs| && pcbs[r].state != FREE && pcbs[r].pid == pid;
  }

  // ---------- the parts of a step ----------

  ghost predicate FamilyKept(r: Outcome) {
    if r.Ok? then Good(r.value) && Family(r.value.pcbs) else r.why == AllQueuesEmpty
  }

  /** With nobody killed the dispatcher takes the head it finds. */
  lemma DispatchFamily(s: Kernel)
    requires Inv(s, {}) && Family(s.pcbs)
    ensures FamilyKept(Dispatch(s))
  {
    DispatchKeeps(s);
    TakeReadyKeeps(s);
    var r := TakeReady(s);
    if r.Ok? {
      var t := r.value;
      var pcb := t.pcbs[t.current];
      assert pcb.state != KILLED;
      assert Parented(t.pcbs, t.current);
      AliveUpdate(t.pcbs, t.current, pcb.(state := RUNNING));
    }
  }

  lemma ScheduleFamily(s: Kernel, hand: set<nat>, p: nat, prio: nat)
    requires Inv(s, hand) && p in hand && Living(s.pcbs[p].state) && Family(s.pcbs)
    ensures Schedule(s, p, prio).Ok? && Family(Schedule(s, p, prio).value.pcbs)
  {
    ScheduleKeeps(s, hand, p, prio);
    assert Parented(s.pcbs, p);
    AliveUpdate(s.pcbs, p, s.pcbs[p].(state := READY));
  }

  lemma RequeueFamily(s: Kernel, prio: nat)
    requires Inv(s, {s.current}) && Living(s.pcbs[s.current].state) && Family(s.pcbs)
    ensures FamilyKept(Requeue(s, prio))
  {
    ScheduleKeeps(s, {s.current}, s.current, prio);
    assert {s.current} - {s.current} == {};
    ScheduleFamily(s, {s.current}, s.current, prio);
    DispatchFamily(Schedule(s, s.current, prio).value);
  }

  lemma BlockFamily(s: Kernel, k: nat, pcb: Pcb, key: nat)
    requires Good(s) && Family(s.pcbs) && k <= WAITING_Q && StateOn(k, pcb.state) && (KeyedByPid(k) ==> key == pcb.pid)
    requires pcb.pid == s.pcbs[s.current].pid && pcb.ppid == s.pcbs[s.current].ppid
    requires pcb.stack == s.pcbs[s.current].stack && pcb.state != KILLED
    ensures FamilyKept(Block(s, k, pcb, key))
  {
    var hand := {s.current};
    assert Parented(s.pcbs, s.current);
    AliveUpdate(s.pcbs, s.current, pcb);
    ChangeInv(s, hand, s.current, pcb);
    var t := SetPcb(s, s.current, pcb);
    InsertKeeps(t, hand, k, Entry(s.current, key));
    assert hand - {s.current} == {};
    DispatchFamily(t.(q := InsertTo(t.q, k, Entry(s.current, key)).0));
  }

  lemma ReparentFamily(pcbs: seq<Pcb>, pid: nat)
    requires Family(pcbs) && pid != PID_INIT
    ensures Family(Reparent(pcbs, pid))
    ensures forall c :: 0 <= c < |pcbs| ==> Reparent(pcbs, pid)[c].ppid != pid
  {
    var pcbs' := Reparent(pcbs, pid);
    forall want | SomeLiving(pcbs, want) ensures SomeLiving(pcbs', want) {
      var r: nat :| LivingAs(pcbs, r, want);
      assert LivingAs(pcbs', r, want);
    }
    forall c | 0 <= c < |pcbs'| ensures Parented(pcbs', c) {
      assert Parented(pcbs, c);
    }
  }

  /** An exiting process has handed its children over, so its death orphans nobody. */
  lemma ExitFamily(s: Kernel)
    requires Good(s) && Family(s.pcbs) && s.pcbs[s.current].pid != PID_INIT
    ensures FamilyKept(Exit(s))
  {
    var p, pid := s.current, s.pcbs[s.current].pid;
    assert PidOk(s.pcbs, s.nextPid, p);
    ReparentInv(s, {p}, pid);
    ReparentFamily(s.pcbs, pid);
    var t := s.(pcbs := Reparent(s.pcbs, pid));
    ZombifyFamily(t);
    DispatchFamily(Zombify(t, p).value);
  }

  lemma ZombifyFamily(t: Kernel)
    requires Inv(t, {t.current}) && t.pcbs[t.current].state == RUNNING && Family(t.pcbs)
    requires t.pcbs[t.current].pid != PID_INIT
    requires forall c :: 0 <= c < N_PCBS ==> t.pcbs[c].ppid != t.pcbs[t.current].pid
    ensures Zombify(t, t.current).Ok? && Inv(Zombify(t, t.current).value, {})
    ensures Family(Zombify(t, t.current).value.pcbs)
  {
    var p := t.current;
    ZombifyKeeps(t);
    assert Parented(t.pcbs, p);
    FindLiving(t.pcbs, t.pcbs[p].ppid);
    var parent := PcbFind(t.pcbs, t.pcbs[p].ppid);
    DeadUpdate(t.pcbs, p, t.pcbs[p].(state := ZOMBIE));
    if t.pcbs[parent].state == WAITING
       && (t.pcbs[parent].waitFor == 0 || t.pcbs[parent].waitFor == t.pcbs[p].pid) {
      WakeParentKeeps(t, parent);
      DeadUpdate(t.pcbs, p, CLEARED);
      var cleared := t.pcbs[p := CLEARED];
      assert Parented(cleared, parent);
      AliveUpdate(cleared, parent, cleared[parent].(state := READY));
    }
  }

  lemma WaitFamily(s: Kernel, target: nat)
    requires Good(s) && Family(s.pcbs)
    ensures FamilyKept(Wait(s, target))
  {
    var p := if target > 0 then PcbFind(s.pcbs, target) else AnyChild(s);
    if p < N_PCBS {
      if s.pcbs[p].state == ZOMBIE {
        ReapKeeps(s, p);
        DeadUpdate(s.pcbs, p, CLEARED);
      } else {
        BlockFamily(s, WAITING_Q, s.pcbs[s.current].(state := WAITING, waitFor := target), s.pcbs[s.current].pid);
      }
    }
  }

  lemma {:induction false} WakeSleepersFamily(s: Kernel)
    requires Good(s) && Family(s.pcbs)
    ensures WakeSleepers(s).Ok? && Family(WakeSleepers(s).value.pcbs)
    decreases |s.q.all[SLEEP].items|
  {
    WakeSleepersKeeps(s);
    var items := s.q.all[SLEEP].items;
    var i := Find(items, s.q.all[SLEEP].remover, s.time);
    if i < |items| {
      var p := items[i].data;
      TakeInv(s, {s.current}, SLEEP, i);
      var t := s.(q := RemoveIndex(s.q, SLEEP, i));
      ScheduleKeeps(t, {s.current} + {p}, p, PRIO_MAXIMUM);
      ScheduleFamily(t, {s.current} + {p}, p, PRIO_MAXIMUM);
      assert {s.current} + {p} - {p} == {s.current};
      WakeSleepersFamily(Schedule(t, p, PRIO_MAXIMUM).value);
    }
  }

  lemma TickFamily(s: Kernel)
    requires Good(s) && Family(s.pcbs)
    ensures FamilyKept(Tick(s))
  {
    var t := s.(time := Add32(s.time, 1));
    ClockInv(s, t.time);
    WakeSleepersKeeps(t);
    WakeSleepersFamily(t);
    var u := WakeSleepers(t).value;
    RequeueFamily(u, u.pcbs[u.current].prio);
  }

  lemma ForkFamily(s: Kernel)
    requires Good(s) && Family(s.pcbs)
    ensures FamilyKept(Fork(s))
  {
    ForkKeeps(s);
    if s.q.all[PCB_AVAIL].items != [] {
      var child, parent := s.q.all[PCB_AVAIL].items[0].data, s.pcbs[s.current];
      TakeInv(s, {s.current}, PCB_AVAIL, 0);
      var t := Fork(s).value;
      var stack: nat :| t == s.(q := t.q, nextPid := s.nextPid + 1,
        pcbs := s.pcbs[child := Pcb(READY, s.nextPid, parent.pid, parent.prio, stack, 0)]);
      assert LivingAs(s.pcbs, s.current, parent.pid);
      AliveUpdate(s.pcbs, child, Pcb(READY, s.nextPid, parent.pid, parent.prio, stack, 0));
    }
  }

  lemma SerialFamily(s: Kernel)
    requires Good(s) && Family(s.pcbs)
    ensures FamilyKept(SerialInput(s))
  {
    SerialKeeps(s);
    if s.q.all[READING].items != [] {
      var p := s.q.all[READING].items[0].data;
      TakeInv(s, {s.current}, READING, 0);
      ScheduleFamily(s.(q := RemoveIndex(s.q, READING, 0)), {s.current} + {p}, p, s.pcbs[p].prio);
    }
  }

  lemma PrioFamily(s: Kernel, prio: nat)
    requires Good(s) && Family(s.pcbs)
    ensures var t := SetPcb(s, s.current, s.pcbs[s.current].(prio := prio % 256)); Good(t) && Family(t.pcbs)
  {
    SetPrioKeeps(s, prio);
    assert Parented(s.pcbs, s.current);
    AliveUpdate(s.pcbs, s.current, s.pcbs[s.current].(prio := prio % 256));
  }

  lemma ExecFamily(s: Kernel, prio: nat)
    requires Good(s) && Family(s.pcbs)
    ensures FamilyKept(Exec(s, prio))
  {
    PrioFamily(s, prio);
    RequeueFamily(SetPcb(s, s.current, s.pcbs[s.current].(prio := prio % 256)), prio % 256);
  }

  lemma SleepFamily(s: Kernel, ticks: nat)
    requires Good(s) && Family(s.pcbs)
    ensures FamilyKept(Sleep(s, ticks))
  {
    var pcb, key := s.pcbs[s.current].(state := SLEEPING), Add32(s.time, ticks);
    BlockKeeps(s, SLEEP, pcb, key);
    BlockFamily(s, SLEEP, pcb, key);
  }

  lemma ReadcFamily(s: Kernel)
    requires Good(s) && Family(s.pcbs)
    ensures FamilyKept(Readc(s))
  {
    if s.input == 0 {
      BlockFamily(s, READING, s.pcbs[s.current], s.pcbs[s.current].pid);
    }
  }

  /** Steps that kill nobody, and in which init does not exit. */
  predicate Peaceful(s: Kernel, e: Event)
    requires Shape(s)
  {
    !e.KillCall? && (e.ExitCall? ==> s.pcbs[s.current].pid != PID_INIT)
  }

  lemma StepFamily(s: Kernel, e: Event)
    requires Good(s) && Family(s.pcbs) && Peaceful(s, e)
    ensures FamilyKept(Step(s, e))
  {
    match e
    case ForkCall => ForkFamily(s);
    case ExecCall(prio) => ExecFamily(s, prio);
    case SleepCall(ticks) => SleepFamily(s, ticks);
    case ReadcCall => ReadcFamily(s);
    case WaitCall(target) => WaitFamily(s, target);
    case ExitCall => ExitFamily(s);
    case SetPrioCall(prio) => PrioFamily(s, prio);
    case SetTimeCall(time) => ClockInv(s, Add32(time, 0));
    case ClockTick => TickFamily(s);
    case SerialChar => SerialFamily(s);
  }

  predicate PeacefulRun(s: Kernel, events: seq<Event>)
    requires Shape(s)
    decreases |events|
  {
    events == [] || (Peaceful(s, events[0])
                     && var r := Step(s, events[0]); r.Ok? ==> PeacefulRun(r.value, events[1..]))
  }

  lemma {:induction false} RunFamily(s: Kernel, events: seq<Event>)
    requires Good(s) && Family(s.pcbs) && PeacefulRun(s, events)
    ensures FamilyKept(Run(s, events))
    decreases |events|
  {
    if events != [] {
      StepFamily(s, events[0]);
      var r := Step(s, events[0]);
      if r.Ok? {
        RunFamily(r.value, events[1..]);
      }
    }
  }

  /** From boot every process has a living parent, and the only panic left is an empty ready list. */
  lemma ParentsLive(events: seq<Event>)
    requires PeacefulRun(Initial(), events)
    ensures var r := Run(Initial(), events);
            if r.Ok? then Family(r.value.pcbs) else r.why == AllQueuesEmpty
  {
    var pcbs := Initial().pcbs;
    InitialGood();
    assert LivingAs(pcbs, 0, PID_INIT);
    forall p | 0 <= p < |pcbs| ensures Parented(pcbs, p) {}
    RunFamily(Initial(), events);
  }

  // ---------- the one process that can miss a zombie ----------

  /** Process `w` would be told of the end of process `x`. */
  predicate Awaits(pcbs: seq<Pcb>, w: nat, x: nat)
    requires w < |pcbs| && x < |pcbs|
  {
    pcbs[x].ppid == pcbs[w].pid && (pcbs[w].waitFor == 0 || pcbs[w].waitFor == pcbs[x].pid)
  }

  predicate NoneAwaited(pcbs: seq<Pcb>, w: nat, line: seq<Entry>)
    requires w < |pcbs|
  {
    forall j :: 0 <= j < |line| && line[j].data < |pcbs| ==> !Awaits(pcbs, w, line[j].data)
  }

  /** Cleaning up a killed process wakes exactly the process waiting for it, and makes nobody miss a zombie. */
  lemma CleanedPair(pcbs: seq<Pcb>, nextPid: nat, x: nat, w: nat, c: nat)
    requires PidsOk(pcbs, nextPid) && x < |pcbs| && pcbs[x].state == KILLED && w < |pcbs| && c < |pcbs|
    ensures var pcbs' := Cleaned(pcbs, x);
            && (pcbs[w].state == WAITING ==>
                  if Awaits(pcbs, w, x) then pcbs'[w].state == READY else pcbs'[w] == pcbs[w])
            && (pcbs[c].state == ZOMBIE ==> pcbs'[c] == pcbs[c])
            && (Notified(pcbs, 0, w, c) ==> Notified(pcbs', 0, w, c))
            && (pcbs'[c].state == KILLED ==> pcbs'[c] == pcbs[c])
  {
    var p := PcbFind(pcbs, pcbs[x].ppid);
    if p < |pcbs| && pcbs[w].state == WAITING && pcbs[w].pid == pcbs[x].ppid {
      SamePid(pcbs, nextPid, p, w);
    }
  }

  /**
   What dispatching does to processes `w` and `c` when it cleans up those of `line`: `w`, if it waits, goes on
   waiting if and only if it awaits none of them; zombie `c` stays; and `w` misses `c` afterwards if and only if
   it did before and goes on waiting.
   */
  predicate PairKept(pcbs: seq<Pcb>, line: seq<Entry>, pcbs': seq<Pcb>, w: nat, c: nat)
    requires w < |pcbs| == |pcbs'| && c < |pcbs|
  {
    && (pcbs[w].state == WAITING ==> (pcbs'[w].state == WAITING <==> NoneAwaited(pcbs, w, line)))
    && (pcbs[c].state == ZOMBIE ==> pcbs'[c] == pcbs[c])
    && (!Notified(pcbs', 0, w, c) <==> !Notified(pcbs, 0, w, c) && NoneAwaited(pcbs, w, line))
  }

  lemma AwaitedSame(pcbs: seq<Pcb>, nextPid: nat, line: seq<Entry>, w: nat)
    requires PidsOk(pcbs, nextPid) && w < |pcbs| && line != [] && line[0].data < |pcbs|
    requires pcbs[line[0].data].state == KILLED && pcbs[w].state == WAITING && !Awaits(pcbs, w, line[0].data)
    requires forall j :: 0 <= j < |line[1..]| ==>
               line[1..][j].data < |pcbs| && Cleaned(pcbs, line[0].data)[line[1..][j].data].state == KILLED
    ensures NoneAwaited(pcbs, w, line) <==> NoneAwaited(Cleaned(pcbs, line[0].data), w, line[1..])
  {
    var x := line[0].data;
    var pcbs' := Cleaned(pcbs, x);
    CleanedPair(pcbs, nextPid, x, w, w);
    forall j | 0 <= j < |line[1..]|
      ensures Awaits(pcbs, w, line[j + 1].data) == Awaits(pcbs', w, line[1..][j].data)
    {
      CleanedPair(pcbs, nextPid, x, w, line[1..][j].data);
    }
    if NoneAwaited(pcbs', w, line[1..]) {
      forall j | 0 <= j < |line| && line[j].data < |pcbs| ensures !Awaits(pcbs, w, line[j].data) {
        assert j > 0 ==> line[j] == line[1..][j - 1];
      }
    }
  }

  /** One killed process more at the head of those cleaned up. */
  lemma PairStep(pcbs: seq<Pcb>, nextPid: nat, line: seq<Entry>, pcbs': seq<Pcb>, w: nat, c: nat)
    requires PidsOk(pcbs, nextPid) && w < |pcbs| == |pcbs'| && c < |pcbs| && line != [] && line[0].data < |pcbs|
    requires pcbs[line[0].data].state == KILLED
    requires forall j :: 0 <= j < |line[1..]| ==>
               line[1..][j].data < |pcbs| && Cleaned(pcbs, line[0].data)[line[1..][j].data].state == KILLED
    requires PairKept(Cleaned(pcbs, line[0].data), line[1..], pcbs', w, c)
    requires Cleaned(pcbs, line[0].data)[w].state != WAITING ==> pcbs'[w].state != WAITING
    ensures PairKept(pcbs, line, pcbs', w, c)
  {
    CleanedPair(pcbs, nextPid, line[0].data, w, c);
    if pcbs[w].state == WAITING && !Awaits(pcbs, w, line[0].data) {
      AwaitedSame(pcbs, nextPid, line, w);
    }
  }

  predicate PairsKept(pcbs: seq<Pcb>, line: seq<Entry>, pcbs': seq<Pcb>) {
    && |pcbs| == |pcbs'|
    && (forall w, c :: 0 <= w < |pcbs| && 0 <= c < |pcbs| ==> PairKept(pcbs, line, pcbs', w, c))
    && (forall w :: 0 <= w < |pcbs| && pcbs[w].state != WAITING ==> pcbs'[w].state != WAITING)
  }

  lemma PairsStep(pcbs: seq<Pcb>, nextPid: nat, line: seq<Entry>, pcbs': seq<Pcb>)
    requires PidsOk(pcbs, nextPid) && line != [] && line[0].data < |pcbs| && pcbs[line[0].data].state == KILLED
    requires forall j :: 0 <= j < |line[1..]| ==>
               line[1..][j].data < |pcbs| && Cleaned(pcbs, line[0].data)[line[1..][j].data].state == KILLED
    requires PairsKept(Cleaned(pcbs, line[0].data), line[1..], pcbs')
    ensures PairsKept(pcbs, line, pcbs')
  {
    forall w, c | 0 <= w < |pcbs| && 0 <= c < |pcbs| ensures PairKept(pcbs, line, pcbs', w, c) {
      PairStep(pcbs, nextPid, line, pcbs', w, c);
    }
  }

  /** With a ready process at the head nothing but its state changes. */
  lemma PairsPicked(pcbs: seq<Pcb>, p: nat)
    requires p < |pcbs| && pcbs[p].state == READY
    ensures PairsKept(pcbs, [], pcbs[p := pcbs[p].(state := RUNNING)])
  {
    var pcbs' := pcbs[p := pcbs[p].(state := RUNNING)];
    forall w, c | 0 <= w < |pcbs| && 0 <= c < |pcbs| ensures PairKept(pcbs, [], pcbs', w, c) {}
  }

  /** Dispatching wakes the waiting processes that await one of those it cleans up, and nobody else. */
  lemma {:induction false} DispatchPairs(s: Kernel) returns (n: nat)
    requires Inv(s, {}) && Dispatch(s).Ok?
    ensures Dispatched(s, n, Dispatch(s).value)
    ensures PairsKept(s.pcbs, Line(s.q.all)[..n], Dispatch(s).value.pcbs)
    decreases KilledCount(s.pcbs)
  {
    HeadCases(s);
    var t, line := Dispatch(s).value, Line(s.q.all);
    if s.pcbs[line[0].data].state == READY {
      n := 0;
      ReadyDispatched(s, t);
      PairsPicked(s.pcbs, line[0].data);
      assert line[..0] == [];
    } else {
      var z := DispatchPass(s);
      n := DispatchPairs(z);
      PassDispatched(s, z, n, t);
      n := n + 1;
      assert line[..n][0] == line[0];
      PairsStep(s.pcbs, s.nextPid, line[..n], t.pcbs);
    }
  }

  /** The table in which an exiting process has handed its children over. */
  function Orphaned(s: Kernel): seq<Pcb>
    requires Shape(s)
  {
    Reparent(s.pcbs, s.pcbs[s.current].pid)
  }

  /** Kernel `z` is where an exit has come when the dispatcher starts: children handed over, parent told or not. */
  predicate ExitedTo(s: Kernel, z: Kernel)
    requires Shape(s)
  {
    Zombify(s.(pcbs := Orphaned(s)), s.current) == Ok(z)
  }

  lemma ExitStart(s: Kernel) returns (z: Kernel)
    requires Good(s) && Exit(s).Ok?
    ensures ExitedTo(s, z) && Inv(z, {}) && z.pcbs == Cleaned(Orphaned(s), s.current) && Exit(s) == Dispatch(z)
  {
    assert PidOk(s.pcbs, s.nextPid, s.current);
    ReparentInv(s, {s.current}, s.pcbs[s.current].pid);
    var u := s.(pcbs := Orphaned(s));
    ZombifyKeeps(u);
    ZombifyEffect(u);
    z := Zombify(u, u.current).value;
  }

  /** The exiting process is, or by handing itself over becomes, a child of init. */
  predicate InitsChild(s: Kernel)
    requires Shape(s)
  {
    s.pcbs[s.current].ppid == PID_INIT || s.pcbs[s.current].ppid == s.pcbs[s.current].pid
  }

  /**
   Init, process `i`, waits for zombie `c` of the caller, for any child or for it by pid, and an exit does
   not wake it.
   */
  predicate Misses(s: Kernel, i: nat, c: nat)
    requires Shape(s) && i < N_PCBS && c < N_PCBS
  {
    && s.pcbs[i].pid == PID_INIT && s.pcbs[i].state == WAITING
    && s.pcbs[c].state == ZOMBIE && s.pcbs[c].ppid == s.pcbs[s.current].pid
    && (s.pcbs[i].waitFor == 0 || s.pcbs[i].waitFor == s.pcbs[c].pid)
    && !(s.pcbs[i].waitFor == 0 && InitsChild(s))
  }

  /** The waiter an exit wakes has the pid of the parent, of which there is one. */
  lemma WaiterIs(s: Kernel, w: nat)
    requires Good(s) && w < N_PCBS && s.pcbs[w].state == WAITING
    ensures var u, p := Orphaned(s), s.current; Waiter(u, p) == w <==> Awaits(u, w, p)
  {
    var u, p := Orphaned(s), s.current;
    ReparentInv(s, {p}, s.pcbs[p].pid) by {
      assert PidOk(s.pcbs, s.nextPid, p);
    }
    var x := PcbFind(u, u[p].ppid);
    if x < N_PCBS && u[w].pid == u[p].ppid {
      SamePid(u, s.nextPid, w, x);
    }
  }

  /**
   Init, waiting beside a zombie child `c` of the caller, when the dispatcher starts: it has been woken if and
   only if the caller is its child and it waits for any child or for the caller.
   */
  lemma InitBeside(s: Kernel, i: nat, c: nat)
    requires Good(s) && i < N_PCBS && c < N_PCBS
    requires s.pcbs[i].pid == PID_INIT && s.pcbs[i].state == WAITING
    requires s.pcbs[c].state == ZOMBIE && s.pcbs[c].ppid == s.pcbs[s.current].pid
    ensures var pcbs := Cleaned(Orphaned(s), s.current);
            && pcbs[c].state == ZOMBIE && pcbs[c].ppid == PID_INIT
            && (pcbs[i].state == WAITING
                <==> !(InitsChild(s) && (s.pcbs[i].waitFor == 0 || s.pcbs[i].waitFor == s.pcbs[s.current].pid)))
            && (!Notified(pcbs, 0, i, c) <==> Misses(s, i, c))
  {
    assert c != s.current && PidsDiffer(s.pcbs, s.current, c) && PidOk(s.pcbs, s.nextPid, c);
    WaiterIs(s, i);
  }

  /** Before the dispatcher starts, the zombies missed are those handed to an init that is not woken. */
  lemma ExitMisses(s: Kernel, w: nat, c: nat)
    requires Good(s) && w < N_PCBS && c < N_PCBS
    ensures var pcbs := Cleaned(Orphaned(s), s.current);
            && (Misses(s, w, c) ==> !Notified(pcbs, 0, w, c))
            && (!Notified(pcbs, 0, w, c) && Notified(s.pcbs, 0, w, c) ==> Misses(s, w, c))
  {
    assert c != s.current ==> PidsDiffer(s.pcbs, s.current, c);
    assert PidOk(s.pcbs, s.nextPid, c) && PidOk(s.pcbs, s.nextPid, s.current);
    if s.pcbs[w].state == WAITING {
      WaiterIs(s, w);
    }
  }

  /**
   Init, whatever it waits for, beside a zombie child `c` of the process that exits: the zombie becomes init's.
   Init goes on waiting unless the exiting process is its own child and it waits for any child or for that, or
   the dispatcher wakes it when it cleans up the first `n` of the line, which are killed. So init then waits for
   a zombie that is its own if and only if it waits for `c` by pid, or for any child while the exiting process
   is somebody else's; and it awaits none of those `n`.
   */
  lemma InitMissesZombie(s: Kernel, i: nat, c: nat) returns (z: Kernel, n: nat)
    requires Good(s) && i < N_PCBS && c < N_PCBS && Exit(s).Ok?
    requires s.pcbs[i].pid == PID_INIT && s.pcbs[i].state == WAITING
    requires s.pcbs[c].state == ZOMBIE && s.pcbs[c].ppid == s.pcbs[s.current].pid
    ensures Shape(z) && ExitedTo(s, z) && Dispatched(z, n, Exit(s).value)
    ensures var t := Exit(s).value;
            && t.pcbs[c].state == ZOMBIE && t.pcbs[c].ppid == PID_INIT
            && (t.pcbs[i].state == WAITING
                <==> && !(InitsChild(s) && (s.pcbs[i].waitFor == 0 || s.pcbs[i].waitFor == s.pcbs[s.current].pid))
                     && NoneAwaited(z.pcbs, i, Line(z.q.all)[..n]))
            && (!Notified(t.pcbs, 0, i, c) <==> Misses(s, i, c) && NoneAwaited(z.pcbs, i, Line(z.q.all)[..n]))
  {
    z := ExitStart(s);
    n := DispatchPairs(z);
    InitBeside(s, i, c);
    assert PairKept(z.pcbs, Line(z.q.all)[..n], Exit(s).value.pcbs, i, c);
  }

  /** An exit after which some process misses a zombie: init, which the dispatcher does not wake either. */
  predicate ExitLoses(s: Kernel, z: Kernel, n: nat)
    requires Shape(s) && Shape(z) && n <= |Line(z.q.all)|
  {
    exists i: nat, c: nat :: i < N_PCBS && c < N_PCBS && Misses(s, i, c) && NoneAwaited(z.pcbs, i, Line(z.q.all)[..n])
  }

  /**
   With nobody exempt, the only step that loses a wake-up is the exit of a process one of whose zombies init
   misses, unless init awaits one of the `n` killed processes that are then cleaned up.
   */
  lemma StepNotifiesAll(s: Kernel, e: Event) returns (z: Kernel, n: nat)
    requires Good(s) && NoLostWakeup(s.pcbs, 0) && Step(s, e).Ok?
    ensures Shape(z) && n <= |Line(z.q.all)|
    ensures e.ExitCall? ==> ExitedTo(s, z) && Dispatched(z, n, Step(s, e).value)
    ensures NoLostWakeup(Step(s, e).value.pcbs, 0) <==> !(e.ExitCall? && ExitLoses(s, z, n))
  {
    z, n := s, 0;
    if !e.ExitCall? {
      StepNotifies(s, e, 0);
    } else {
      z := ExitStart(s);
      n := DispatchPairs(z);
      var t, line := Exit(s).value, Line(z.q.all)[..n];
      forall w, c | 0 <= w < N_PCBS && 0 <= c < N_PCBS
        ensures !Notified(t.pcbs, 0, w, c) <==> Misses(s, w, c) && NoneAwaited(z.pcbs, w, line)
      {
        ExitMisses(s, w, c);
        assert PairKept(z.pcbs, line, t.pcbs, w, c) && Notified(s.pcbs, 0, w, c);
      }
    }
  }
}
