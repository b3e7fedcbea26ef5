/**
 What becomes of a killed process. The kill marks it where it stands, and the queue it stands on decides:
 on a ready queue it is ended when its turn comes, or the kernel panics if its parent is gone by then; a
 sleeper or reader is revived by its wake-up, and on the waiting and zombie queues it stays for good.
 */
module ProcessKill {
  import opened Common
  import opened QueueSpec
  import opened ProcessSpec
  import opened ProcessInv
  import opened ProcessOrder
  import opened ProcessTurn

  predicate Has(items: seq<Entry>, p: nat) {
    exists i :: 0 <= i < |items| && items[i].data == p
  }

  /** Process `p` stands killed on queue `k`. */
  predicate Marked(s: Kernel, p: nat, k: nat)
    requires Shape(s)
  {
    p < N_PCBS && k <= ZOMBIES && s.pcbs[p].state == KILLED && Has(s.q.all[k].items, p)
  }

  predicate Revived(st: ProcState) {
    st == READY || st == RUNNING
  }

  // ---------- queues ----------

  lemma HasInsert(items: seq<Entry>, i: nat, e: Entry, p: nat)
    requires i <= |items| && Has(items, p)
    ensures Has(InsertAt(items, i, e), p)
  {
    var j :| 0 <= j < |items| && items[j].data == p;
    assert InsertAt(items, i, e)[if j < i then j else j + 1].data == p;
  }

  lemma HasRemove(items: seq<Entry>, i: nat, p: nat)
    requires i < |items| && Has(items, p) && items[i].data != p
    ensures Has(RemoveAt(items, i), p)
  {
    var j :| 0 <= j < |items| && items[j].data == p;
    assert RemoveAt(items, i)[if j < i then j else j - 1].data == p;
  }

  /** A process is on one queue only. */
  lemma OneQueue(s: Kernel, hand: set<nat>, k: nat, i: nat, j: nat)
    requires Inv(s, hand) && k <= PCB_AVAIL && j <= PCB_AVAIL && i < |s.q.all[k].items|
    requires Has(s.q.all[j].items, s.q.all[k].items[i].data)
    ensures j == k
  {
    var p := s.q.all[k].items[i].data;
    TakeInv(s, hand, k, i);
    var x: nat :| x < |s.q.all[j].items| && s.q.all[j].items[x].data == p;
    if j != k {
      OnQueueNotInHand(RemoveIndex(s.q, k, i).all, hand + {p}, j, x);
    }
  }

  lemma NotInHand(s: Kernel, hand: set<nat>, p: nat, k: nat)
    requires Inv(s, hand) && Marked(s, p, k)
    ensures p !in hand
  {
    var i: nat :| i < |s.q.all[k].items| && s.q.all[k].items[i].data == p;
    OnQueueNotInHand(s.q.all, hand, k, i);
  }

  // ---------- the routines ----------

  lemma AppendMarked(s: Kernel, j: nat, e: Entry, p: nat, k: nat)
    requires Shape(s) && j < N_QUEUES && Marked(s, p, k)
    ensures Marked(s.(q := AppendTo(s.q, j, e).0), p, k)
  {
    AppendIsInsert(s.q.all[j].items, e);
    if j == k {
      HasInsert(s.q.all[j].items, |s.q.all[j].items|, e, p);
    }
  }

  lemma InsertMarked(s: Kernel, j: nat, e: Entry, p: nat, k: nat)
    requires Shape(s) && j < N_QUEUES && Marked(s, p, k)
    ensures Marked(s.(q := InsertTo(s.q, j, e).0), p, k)
  {
    var q := s.q.all[j];
    if j == k {
      HasInsert(q.items, Place(q.items, q.compare, e.key), e, p);
    }
  }

  lemma RemoveMarked(s: Kernel, j: nat, i: nat, p: nat, k: nat)
    requires Shape(s) && j < N_QUEUES && i < |s.q.all[j].items| && s.q.all[j].items[i].data != p && Marked(s, p, k)
    ensures Marked(s.(q := RemoveIndex(s.q, j, i)), p, k)
  {
    if j == k {
      HasRemove(s.q.all[j].items, i, p);
    }
  }

  lemma ScheduleMarked(s: Kernel, x: nat, prio: nat, p: nat, k: nat)
    requires Shape(s) && x < N_PCBS && x != p && Marked(s, p, k)
    ensures var r := Schedule(s, x, prio); r.Ok? ==> Marked(r.value, p, k)
  {
    AppendMarked(SetState(s, x, READY), if prio >= N_PRIORITIES then N_PRIORITIES - 1 else prio, Entry(x, 0), p, k);
  }

  /** Freeing the stack and the PCB of another process. */
  lemma ReleaseMarked(s: Kernel, x: nat, p: nat, k: nat)
    requires Shape(s) && x < N_PCBS && x != p && Marked(s, p, k)
    ensures var a := StackFree(s, s.pcbs[x].stack);
            a.Ok? ==> var r := PcbFree(a.value, x); r.Ok? ==> Marked(r.value, p, k)
  {
    AppendMarked(s, STACK_AVAIL, Entry(s.pcbs[x].stack, 0), p, k);
    var a := StackFree(s, s.pcbs[x].stack);
    if a.Ok? {
      AppendMarked(SetPcb(a.value, x, CLEARED), PCB_AVAIL, Entry(x, 0), p, k);
    }
  }

  lemma ZombifyMarked(s: Kernel, p: nat, k: nat)
    requires Inv(s, {s.current}) && Marked(s, p, k)
    requires s.pcbs[s.current].state == RUNNING || s.pcbs[s.current].state == KILLED
    ensures var r := Zombify(s, s.current); r.Ok? ==> Marked(r.value, p, k)
  {
    var x := s.current;
    NotInHand(s, {x}, p, k);
    var w := Waiter(s.pcbs, x);
    if w < N_PCBS {
      var j, i := PlaceByState(s, {x}, w);
      FindByPid(s, {x}, j, i);
      var y := Find(s.q.all[j].items, IfEqual, s.pcbs[w].pid);
      RemoveMarked(s, j, y, p, k);
      var t := s.(q := RemoveIndex(s.q, j, y));
      ReleaseMarked(t, x, p, k);
      var a := StackFree(t, t.pcbs[x].stack);
      if a.Ok? && PcbFree(a.value, x).Ok? {
        ScheduleMarked(PcbFree(a.value, x).value, w, PRIO_MAXIMUM, p, k);
      }
    } else {
      InsertMarked(SetState(s, x, ZOMBIE), ZOMBIES, Entry(x, s.pcbs[x].pid), p, k);
    }
  }

  lemma CleanedTouches(pcbs: seq<Pcb>, x: nat, p: nat)
    requires x < |pcbs| && pcbs[x].state == KILLED && p < |pcbs|
    requires Ended(pcbs[p].state) || pcbs[p].state == READY
    ensures Cleaned(pcbs, x)[p].state == pcbs[p].state
  {}

  /** Dispatching wakes waiting processes, ends killed ones and runs a ready one; all others stay as they are. */
  lemma {:induction false} DispatchTouches(s: Kernel, p: nat)
    requires Inv(s, {}) && p < N_PCBS && (Ended(s.pcbs[p].state) || s.pcbs[p].state == READY) && Dispatch(s).Ok?
    ensures var t := Dispatch(s).value;
            if s.pcbs[p].state == READY then Revived(t.pcbs[p].state) else t.pcbs[p].state == s.pcbs[p].state
    decreases KilledCount(s.pcbs)
  {
    HeadCases(s);
    var x := Line(s.q.all)[0].data;
    if s.pcbs[x].state == KILLED {
      var z := DispatchPass(s);
      CleanedTouches(s.pcbs, x, p);
      DispatchTouches(z, p);
    }
  }

  /** Dispatching from `s` comes to the turn of killed process `p`. */
  ghost predicate Turned(s: Kernel, p: nat) {
    exists z :: TurnFrom(s, p, z)
  }

  /** What dispatching makes of a marked process: it stands where it stood, or was ended at its turn. */
  ghost predicate StoodOrEnded(s: Kernel, r: Outcome, p: nat, k: nat)
    requires Shaped(r)
  {
    r.Ok? ==> Marked(r.value, p, k) || (p < N_PCBS && k < N_PRIORITIES && Ended(r.value.pcbs[p].state) && Turned(s, p))
  }

  lemma {:induction false} DispatchMarked(s: Kernel, p: nat, k: nat)
    requires Inv(s, {}) && Marked(s, p, k)
    ensures StoodOrEnded(s, Dispatch(s), p, k)
    decreases KilledCount(s.pcbs)
  {
    if Dispatch(s).Ok? {
      HeadCases(s);
      var x := Line(s.q.all)[0].data;
      if s.pcbs[x].state == READY {
        PickMarked(s, p, k);
      } else if x == p {
        OwnTurn(s, p, k);
      } else {
        var z := OthersTurn(s, p, k);
        DispatchMarked(z, p, k);
        LaterTurn(s, z, p);
      }
    }
  }

  lemma PickMarked(s: Kernel, p: nat, k: nat)
    requires Inv(s, {}) && Marked(s, p, k) && Dispatch(s).Ok? && Line(s.q.all) != []
    requires Line(s.q.all)[0].data < N_PCBS && s.pcbs[Line(s.q.all)[0].data].state == READY
    ensures Marked(Dispatch(s).value, p, k)
  {
    TakeReadyKeeps(s);
    LineHead(s.q.all);
    RemoveMarked(s, FirstReady(s.q.all), 0, p, k);
  }

  lemma OwnTurn(s: Kernel, p: nat, k: nat)
    requires Inv(s, {}) && Marked(s, p, k) && Dispatch(s).Ok? && HeadKilled(s) && Head(s) == p
    ensures k < N_PRIORITIES && Turned(s, p) && Ended(Dispatch(s).value.pcbs[p].state)
  {
    HeadOfQueues(s);
    LineHead(s.q.all);
    OneQueue(s, {}, FirstReady(s.q.all), 0, k);
    TurnNow(s);
    HeadEnds(s);
  }

  /** A pass over another process leaves a marked one where it stands. */
  lemma OthersTurn(s: Kernel, p: nat, k: nat) returns (z: Kernel)
    requires Inv(s, {}) && Marked(s, p, k) && HeadKilled(s) && Head(s) != p && Pass(s).Ok?
    ensures Pass(s) == Ok(z) && Inv(z, {}) && Dispatch(s) == Dispatch(z) && KilledCount(z.pcbs) < KilledCount(s.pcbs)
    ensures Marked(z, p, k)
  {
    PassFate(s);
    HeadTurn(s);
    HeadOfQueues(s);
    LineHead(s.q.all);
    RemoveMarked(s, FirstReady(s.q.all), 0, p, k);
    ZombifyMarked(TakeReady(s).value, p, k);
    z := Pass(s).value;
  }

  lemma LaterTurn(s: Kernel, z: Kernel, p: nat)
    requires Shape(s) && HeadKilled(s) && Pass(s) == Ok(z)
    ensures Turned(z, p) ==> Turned(s, p)
  {
    if y :| TurnFrom(z, p, y) {
      TurnLater(s, z, p, y);
    }
  }

  /**
   The turn of a killed process at the head of the line ends it, unless its parent is gone: then the kernel
   panics.
   */
  lemma HeadEnds(s: Kernel)
    requires Inv(s, {}) && HeadKilled(s)
    ensures var p := Head(s);
            if ParentGone(s.pcbs, p) then Dispatch(s) == Panicked(NoParent)
            else
              && Pass(s).Ok? && Dispatch(s) == Dispatch(Pass(s).value) && Ended(Pass(s).value.pcbs[p].state)
              && (Dispatch(s).Ok? ==> Ended(Dispatch(s).value.pcbs[p].state))
  {
    PassFate(s);
    if Dispatch(s).Ok? {
      DispatchTouches(Pass(s).value, Head(s));
    }
  }

  // ---------- every event ----------

  lemma ForkMarked(s: Kernel, p: nat, k: nat)
    requires Good(s) && Marked(s, p, k)
    ensures var r := Fork(s); r.Ok? ==> Marked(r.value, p, k)
  {
    if s.q.all[PCB_AVAIL].items != [] {
      var child := s.q.all[PCB_AVAIL].items[0].data;
      TakeInv(s, {s.current}, PCB_AVAIL, 0);
      RemoveMarked(s, PCB_AVAIL, 0, p, k);
      var a := s.(q := RemoveIndex(s.q, PCB_AVAIL, 0));
      StackForEveryPcb(s, {s.current});
      var stack := a.q.all[STACK_AVAIL].items[0].data;
      var b := a.(q := RemoveIndex(a.q, STACK_AVAIL, 0));
      assert Marked(b, p, k);
      assert Fork(s) == Adopt(b, child, stack);
      AdoptMarked(b, child, stack, p, k);
    }
  }

  lemma AdoptMarked(s: Kernel, child: nat, stack: nat, p: nat, k: nat)
    requires Shape(s) && child < N_PCBS && child != p && Marked(s, p, k)
    ensures var r := Adopt(s, child, stack); r.Ok? ==> Marked(r.value, p, k)
  {
    var named := s.pcbs[child].(pid := s.nextPid);
    var parent := s.pcbs[child := named][s.current];
    var pcb := named.(ppid := parent.pid, prio := parent.prio, stack := stack);
    ScheduleMarked(SetPcb(s.(nextPid := s.nextPid + 1), child, pcb), child, pcb.prio, p, k);
  }

  lemma ReapMarked(s: Kernel, z: nat, p: nat, k: nat)
    requires Good(s) && z < N_PCBS && s.pcbs[z].state == ZOMBIE && Marked(s, p, k)
    ensures var r := Reap(s, s.pcbs[z].pid); r.Ok? ==> Marked(r.value, p, k)
  {
    var j, i := PlaceByState(s, {s.current}, z);
    FindByPid(s, {s.current}, j, i);
    var y := Find(s.q.all[j].items, IfEqual, s.pcbs[z].pid);
    RemoveMarked(s, j, y, p, k);
    ReleaseMarked(s.(q := RemoveIndex(s.q, j, y)), z, p, k);
  }

  /** Waking the sleepers revives a marked one that is due, and leaves all others where they stand. */
  lemma {:induction false} WakeSleepersMarked(s: Kernel, p: nat, k: nat)
    requires Good(s) && p < N_PCBS && (Marked(s, p, k) || (k == SLEEP && s.pcbs[p].state == READY))
    ensures WakeSleepers(s).Ok?
    ensures var t := WakeSleepers(s).value; Marked(t, p, k) || (k == SLEEP && t.pcbs[p].state == READY)
    decreases |s.q.all[SLEEP].items|
  {
    WakeSleepersKeeps(s);
    var items := s.q.all[SLEEP].items;
    var i := Find(items, s.q.all[SLEEP].remover, s.time);
    if i < |items| {
      var x := items[i].data;
      TakeInv(s, {s.current}, SLEEP, i);
      var a := s.(q := RemoveIndex(s.q, SLEEP, i));
      ScheduleKeeps(a, {s.current} + {x}, x, PRIO_MAXIMUM);
      assert {s.current} + {x} - {x} == {s.current};
      if Marked(s, p, k) {
        if x != p {
          RemoveMarked(s, SLEEP, i, p, k);
          ScheduleMarked(a, x, PRIO_MAXIMUM, p, k);
        } else {
          OneQueue(s, {s.current}, SLEEP, i, k);
        }
      }
      WakeSleepersMarked(Schedule(a, x, PRIO_MAXIMUM).value, p, k);
    }
  }

  lemma TickMarked(s: Kernel, p: nat, k: nat)
    requires Good(s) && Marked(s, p, k) && Ticked(s).Ok?
    ensures StoodOrWoken(Ticked(s).value, p, k)
  {
    var a := s.(time := Add32(s.time, 1));
    ClockInv(s, a.time);
    WakeSleepersKeeps(a);
    WakeSleepersMarked(a, p, k);
    var u := WakeSleepers(a).value;
    if Marked(u, p, k) {
      NotInHand(u, {u.current}, p, k);
      ScheduleMarked(u, u.current, u.pcbs[u.current].prio, p, k);
    }
  }

  /** When the dispatcher starts a marked process stands where it stood, or is a sleeper just woken. */
  predicate StoodOrWoken(u: Kernel, p: nat, k: nat)
    requires Shape(u)
  {
    Marked(u, p, k) || (p < N_PCBS && k == SLEEP && u.pcbs[p].state == READY)
  }

  lemma EnqueuedMarked(s: Kernel, j: nat, pcb: Pcb, key: nat, p: nat, k: nat)
    requires Good(s) && Marked(s, p, k) && j < N_QUEUES && Enqueued(s, j, pcb, key).Ok?
    ensures Marked(Enqueued(s, j, pcb, key).value, p, k)
  {
    NotInHand(s, {s.current}, p, k);
    InsertMarked(SetPcb(s, s.current, pcb), j, Entry(s.current, key), p, k);
  }

  lemma ExitMarked(s: Kernel, p: nat, k: nat)
    requires Good(s) && Marked(s, p, k) && Handed(s, ExitCall).Some?
    ensures Marked(Handed(s, ExitCall).value, p, k)
  {
    OrphanedInv(s);
    ZombifyMarked(s.(pcbs := Reparent(s.pcbs, s.pcbs[s.current].pid)), p, k);
  }

  lemma HandedMarked(s: Kernel, e: Event, p: nat, k: nat)
    requires Good(s) && Marked(s, p, k) && Handed(s, e).Some?
    ensures StoodOrWoken(Handed(s, e).value, p, k)
  {
    var pcb := s.pcbs[s.current];
    NotInHand(s, {s.current}, p, k);
    match e
    case ExecCall(prio) =>
      ScheduleMarked(SetPcb(s, s.current, pcb.(prio := prio % 256)), s.current, prio % 256, p, k);
    case SleepCall(ticks) => EnqueuedMarked(s, SLEEP, pcb.(state := SLEEPING), Add32(s.time, ticks), p, k);
    case ReadcCall => EnqueuedMarked(s, READING, pcb, pcb.pid, p, k);
    case WaitCall(target) => EnqueuedMarked(s, WAITING_Q, pcb.(state := WAITING, waitFor := target), pcb.pid, p, k);
    case ExitCall => ExitMarked(s, p, k);
    case KillCall(pid) => ScheduleMarked(SetState(s, s.current, KILLED), s.current, pcb.prio, p, k);
    case ClockTick => TickMarked(s, p, k);
    case _ =>
  }

  lemma SerialMarked(s: Kernel, p: nat, k: nat)
    requires Good(s) && Marked(s, p, k)
    ensures var r := SerialInput(s);
            r.Ok? ==> Marked(r.value, p, k) || (k == READING && r.value.pcbs[p].state == READY)
  {
    if s.q.all[READING].items != [] {
      var x := s.q.all[READING].items[0].data;
      TakeInv(s, {s.current}, READING, 0);
      if x != p {
        RemoveMarked(s, READING, 0, p, k);
        ScheduleMarked(s.(q := RemoveIndex(s.q, READING, 0)), x, s.pcbs[x].prio, p, k);
      } else {
        OneQueue(s, {s.current}, READING, 0, k);
      }
    }
  }

  /** A step without a dispatch leaves a marked process where it stands, or revives the first reader. */
  lemma QuietMarked(s: Kernel, e: Event, p: nat, k: nat)
    requires Good(s) && Marked(s, p, k) && Handed(s, e).None? && Step(s, e).Ok?
    ensures var t := Step(s, e).value; Marked(t, p, k) || (k == READING && t.pcbs[p].state == READY)
  {
    HandedStep(s, e);
    NotInHand(s, {s.current}, p, k);
    match e
    case ForkCall => ForkMarked(s, p, k);
    case SleepCall(ticks) => SleepHanded(s, ticks);
    case WaitCall(target) =>
      var x := WaitedFor(s, target);
      if x < N_PCBS {
        ReapMarked(s, x, p, k);
      }
    case SerialChar => SerialMarked(s, p, k);
    case _ =>
  }

  /** What becomes of process `p`, standing marked on queue `k`, in a step after which it stands there no more. */
  ghost predicate Fate(s: Kernel, e: Event, r: Outcome, p: nat, k: nat)
    requires Shape(s) && Shaped(r) && p < N_PCBS
  {
    && (r.Ok? ==>
          && k != WAITING_Q && k != ZOMBIES
          && (Ended(r.value.pcbs[p].state) <==> k < N_PRIORITIES)
          && (Revived(r.value.pcbs[p].state) <==> k == SLEEP || k == READING)
          && (k < N_PRIORITIES <==> exists z :: Turn(s, e, p, z)))
    && (forall z :: Turn(s, e, p, z) ==> k < N_PRIORITIES && TurnTaken(r, p, z))
  }

  /** In any step a marked process stands where it stood, or meets its fate. */
  lemma StepMarked(s: Kernel, e: Event, p: nat, k: nat)
    requires Good(s) && Marked(s, p, k)
    ensures (Step(s, e).Ok? && Marked(Step(s, e).value, p, k)) || Fate(s, e, Step(s, e), p, k)
  {
    TurnsTaken(s, e, p, k);
    if Step(s, e).Ok? && !Marked(Step(s, e).value, p, k) {
      StepLeaves(s, e, p, k);
    }
    FateFrom(s, e, Step(s, e), p, k);
  }

  /** How process `p` leaves queue `k`, if it ever does. */
  ghost predicate Leaves(s: Kernel, e: Event, t: Kernel, p: nat, k: nat)
    requires Shape(s) && Shape(t) && p < N_PCBS
  {
    if k < N_PRIORITIES then Ended(t.pcbs[p].state) && exists z :: Turn(s, e, p, z)
    else (k == SLEEP || k == READING) && Revived(t.pcbs[p].state)
  }

  lemma FateFrom(s: Kernel, e: Event, r: Outcome, p: nat, k: nat)
    requires Shape(s) && Shaped(r) && p < N_PCBS
    requires r.Ok? && !Marked(r.value, p, k) ==> Leaves(s, e, r.value, p, k)
    requires forall z :: Turn(s, e, p, z) ==> k < N_PRIORITIES && TurnTaken(r, p, z)
    ensures (r.Ok? && Marked(r.value, p, k)) || Fate(s, e, r, p, k)
  {}

  lemma TurnsTaken(s: Kernel, e: Event, p: nat, k: nat)
    requires Good(s) && Marked(s, p, k)
    ensures forall z :: Turn(s, e, p, z) ==> k < N_PRIORITIES && TurnTaken(Step(s, e), p, z)
  {
    forall z | Turn(s, e, p, z) ensures k < N_PRIORITIES && TurnTaken(Step(s, e), p, z) {
      TurnFate(s, e, p, z);
      TurnQueue(s, e, p, z, k);
    }
  }

  lemma StepLeaves(s: Kernel, e: Event, p: nat, k: nat)
    requires Good(s) && Marked(s, p, k) && Step(s, e).Ok? && !Marked(Step(s, e).value, p, k)
    ensures Leaves(s, e, Step(s, e).value, p, k)
  {
    HandedStep(s, e);
    if Handed(s, e).None? {
      QuietMarked(s, e, p, k);
    } else {
      var u := Handed(s, e).value;
      HandedMarked(s, e, p, k);
      if Marked(u, p, k) {
        DispatchMarked(u, p, k);
        var z :| TurnFrom(u, p, z);
        assert Turn(s, e, p, z);
      } else {
        DispatchTouches(u, p);
      }
    }
  }

  /** Only a process marked on a ready queue gets a turn. */
  lemma TurnQueue(s: Kernel, e: Event, p: nat, z: Kernel, k: nat)
    requires Good(s) && Marked(s, p, k) && Turn(s, e, p, z)
    ensures k < N_PRIORITIES
  {
    HandedStep(s, e);
    HandedMarked(s, e, p, k);
    TurnFromQueue(Handed(s, e).value, p, z, k);
  }

  lemma TurnFromQueue(u: Kernel, p: nat, z: Kernel, k: nat)
    requires Inv(u, {}) && StoodOrWoken(u, p, k) && TurnFrom(u, p, z)
    ensures k < N_PRIORITIES
  {
    var path :| Passes(path, u, z);
    if k >= N_PRIORITIES {
      PathMarked(path, u, z, |path| - 1, p, k);
      PathInv(path, u, z, |path| - 1);
      HeadReady(z, p, k);
      assert false;
    }
  }

  /** At the head of the line a killed process stands on a ready queue. */
  lemma HeadReady(z: Kernel, p: nat, k: nat)
    requires Inv(z, {}) && HeadKilled(z) && Head(z) == p && StoodOrWoken(z, p, k)
    ensures k < N_PRIORITIES
  {
    HeadOfQueues(z);
    LineHead(z.q.all);
    OneQueue(z, {}, FirstReady(z.q.all), 0, k);
  }

  lemma {:induction false} PathMarked(path: seq<Kernel>, s: Kernel, z: Kernel, i: nat, p: nat, k: nat)
    requires Inv(s, {}) && Passes(path, s, z) && i < |path| && k >= N_PRIORITIES && StoodOrWoken(s, p, k)
    ensures Shape(path[i]) && StoodOrWoken(path[i], p, k)
    decreases i
  {
    if i > 0 {
      PathMarked(path, s, z, i - 1, p, k);
      PathHanded(path, s, z, i - 1, p, k);
    }
  }

  lemma PathHanded(path: seq<Kernel>, s: Kernel, z: Kernel, i: nat, p: nat, k: nat)
    requires Inv(s, {}) && Passes(path, s, z) && i + 1 < |path| && k >= N_PRIORITIES
    requires Shape(path[i]) && StoodOrWoken(path[i], p, k)
    ensures Shape(path[i + 1]) && StoodOrWoken(path[i + 1], p, k)
  {
    PathInv(path, s, z, i);
    assert PassAt(path, i);
    PassHanded(path[i], path[i + 1], p, k);
  }

  lemma PassHanded(s: Kernel, t: Kernel, p: nat, k: nat)
    requires Inv(s, {}) && HeadKilled(s) && Pass(s) == Ok(t) && k >= N_PRIORITIES && StoodOrWoken(s, p, k)
    ensures Shape(t) && StoodOrWoken(t, p, k)
  {
    PassFate(s);
    if Marked(s, p, k) {
      if Head(s) == p {
        HeadReady(s, p, k);
      }
      var z := OthersTurn(s, p, k);
    } else {
      CleanedTouches(s.pcbs, Head(s), p);
    }
  }

  // ---------- what a kill does ----------

  /** Through the whole run process `p` stands marked on queue `k`. */
  predicate Stays(s: Kernel, events: seq<Event>, p: nat, k: nat)
    requires Shape(s)
    decreases |events|
  {
    Marked(s, p, k) && (events != [] ==> Step(s, events[0]).Ok? && Stays(Step(s, events[0]).value, events[1..], p, k))
  }

  /** In event number `m` of a run process `p` meets its fate. */
  ghost predicate FateAt(s: Kernel, events: seq<Event>, p: nat, k: nat, m: nat)
    requires Shape(s) && m < |events| && p < N_PCBS
  {
    var before := Run(s, events[..m]); before.Ok? && Fate(before.value, events[m], Step(before.value, events[m]), p, k)
  }

  lemma PrefixStep(s: Kernel, events: seq<Event>, m: nat)
    requires Shape(s) && m < |events| && Step(s, events[0]).Ok?
    ensures var t := Step(s, events[0]).value;
            && events[..m + 1][0] == events[0] && events[..m + 1][1..] == events[1..][..m]
            && Run(s, events[..m + 1]) == Run(t, events[1..][..m])
  {
    assert events[..m + 1][1..] == events[1..][..m];
  }

  /**
   Over a whole run a marked process stands where it is for `m` events, and then, if there are more, meets
   its fate.
   */
  lemma {:induction false} RunMarked(s: Kernel, events: seq<Event>, p: nat, k: nat) returns (m: nat)
    requires Good(s) && Marked(s, p, k)
    ensures m <= |events| && Stays(s, events[..m], p, k) && (m < |events| ==> FateAt(s, events, p, k, m))
    decreases |events|
  {
    m := 0;
    assert events[..0] == [];
    if events != [] {
      var r := Step(s, events[0]);
      if r.Ok? && Marked(r.value, p, k) {
        StepKeeps(s, events[0]);
        m := RunMarked(r.value, events[1..], p, k);
        PrefixStep(s, events, m);
        if m < |events| - 1 {
          assert events[m + 1] == events[1..][m];
        }
        m := m + 1;
      } else {
        StepMarked(s, events[0], p, k);
      }
    }
  }

  /** The queue a process is on. */
  lemma QueueOf(s: Kernel, p: nat) returns (k: nat)
    requires Good(s) && p < N_PCBS && p != s.current && s.pcbs[p].state != FREE
    ensures k <= ZOMBIES && Has(s.q.all[k].items, p) && StateOn(k, s.pcbs[p].state)
  {
    var i;
    k, i := PlaceByState(s, {s.current}, p);
  }

  /**
   What a kill does to a process other than the caller depends on the queue `k` the process is on. Whatever
   happens after it, the process stands there for `m` events, and in the next it meets its fate. If the kernel
   outlives that event the process is ended if and only if `k` is a ready queue, at its turn, and goes on
   living if and only if `k` is the queue of sleepers or of readers; from the other two it never leaves. And
   if its turn comes the kernel panics if and only if the PCB of its parent is gone by then.
   */
  lemma KillFate(s: Kernel, pid: nat, events: seq<Event>) returns (k: nat, m: nat)
    requires Good(s) && PcbFind(s.pcbs, pid) < N_PCBS && PcbFind(s.pcbs, pid) != s.current
    ensures Kill(s, pid).Ok?
    ensures var t, p := Kill(s, pid).value, PcbFind(s.pcbs, pid);
            && k <= ZOMBIES && Has(s.q.all[k].items, p) && StateOn(k, s.pcbs[p].state)
            && m <= |events| && Stays(t, events[..m], p, k)
            && (m < |events| ==> FateAt(t, events, p, k, m))
  {
    var p := PcbFind(s.pcbs, pid);
    k := QueueOf(s, p);
    KillKeeps(s, pid);
    m := RunMarked(Kill(s, pid).value, events, p, k);
  }

  // ---------- the ways out are taken ----------

  /** A marked sleeper that is due is revived. */
  lemma {:induction false} SleeperRevived(s: Kernel, p: nat, i: nat)
    requires Good(s) && p < N_PCBS && i < |s.q.all[SLEEP].items| && s.q.all[SLEEP].items[i].data == p
    requires s.q.all[SLEEP].items[i].key <= s.time
    ensures WakeSleepers(s).Ok? && WakeSleepers(s).value.pcbs[p].state == READY
    decreases |s.q.all[SLEEP].items|
  {
    var items := s.q.all[SLEEP].items;
    assert (s.q.all[SLEEP].compare, s.q.all[SLEEP].remover) == QueueKind(SLEEP);
    var f := Find(items, IfLeU, s.time);
    assert f < |items|;
    var x := items[f].data;
    TakeInv(s, {s.current}, SLEEP, f);
    var a := s.(q := RemoveIndex(s.q, SLEEP, f));
    ScheduleKeeps(a, {s.current} + {x}, x, PRIO_MAXIMUM);
    assert {s.current} + {x} - {x} == {s.current};
    var t := Schedule(a, x, PRIO_MAXIMUM).value;
    if x == p {
      StaysReady(t, p);
    } else {
      SleeperRevived(t, p, if i < f then i else i - 1);
    }
  }

  lemma {:induction false} StaysReady(s: Kernel, p: nat)
    requires Good(s) && p < N_PCBS && s.pcbs[p].state == READY
    ensures WakeSleepers(s).Ok? && WakeSleepers(s).value.pcbs[p].state == READY
    decreases |s.q.all[SLEEP].items|
  {
    WakeSleepersKeeps(s);
    var items := s.q.all[SLEEP].items;
    var i := Find(items, s.q.all[SLEEP].remover, s.time);
    if i < |items| {
      var x := items[i].data;
      TakeInv(s, {s.current}, SLEEP, i);
      var a := s.(q := RemoveIndex(s.q, SLEEP, i));
      ScheduleKeeps(a, {s.current} + {x}, x, PRIO_MAXIMUM);
      assert {s.current} + {x} - {x} == {s.current};
      StaysReady(Schedule(a, x, PRIO_MAXIMUM).value, p);
    }
  }

  lemma RunOn(s: Kernel, e: Event, t: Kernel, events: seq<Event>)
    requires Shape(s) && Shape(t) && Step(s, e) == Ok(t)
    ensures Run(s, [e] + events) == Run(t, events)
  {
    assert ([e] + events)[1..] == events;
  }

  /** A character makes the first reader ready; the others move up. */
  lemma ReaderTaken(s: Kernel) returns (t: Kernel)
    requires Good(s) && s.q.all[READING].items != []
    ensures Step(s, SerialChar) == Ok(t) && Good(t)
    ensures t.q.all[READING].items == s.q.all[READING].items[1..]
    ensures s.q.all[READING].items[0].data < N_PCBS && t.pcbs[s.q.all[READING].items[0].data].state == READY
  {
    var x := s.q.all[READING].items[0].data;
    TakeInv(s, {s.current}, READING, 0);
    SerialKeeps(s);
    var a := s.(q := RemoveIndex(s.q, READING, 0));
    ScheduleKeeps(a, {s.current} + {x}, x, s.pcbs[x].prio);
    t := SerialInput(s).value;
  }

  /** So many characters coming in, one after another. */
  function Characters(n: nat): seq<Event> {
    if n == 0 then [] else [SerialChar] + Characters(n - 1)
  }

  /** A marked reader is revived once as many characters have come in as readers are ahead of it, and one more. */
  lemma {:induction false} ReaderRevived(s: Kernel, p: nat, i: nat)
    requires Good(s) && p < N_PCBS && i < |s.q.all[READING].items| && s.q.all[READING].items[i].data == p
    ensures var r := Run(s, Characters(i + 1)); r.Ok? && r.value.pcbs[p].state == READY
    decreases i
  {
    var t := ReaderTaken(s);
    RunOn(s, SerialChar, t, Characters(i));
    if i > 0 {
      ReaderRevived(t, p, i - 1);
    }
  }
}
