/**
 The turns of killed processes: how the dispatcher comes to them pass by pass, what each turn does, and
 exactly which steps end in the panic over a missing parent.
 */
module ProcessTurn {
  import opened Common
  import opened QueueSpec
  import opened ProcessSpec
  import opened ProcessInv
  import opened ProcessOrder

  // ---------- one pass ----------

  /** No process has the pid process `p` has for its parent. */
  predicate ParentGone(pcbs: seq<Pcb>, p: nat)
    requires p < |pcbs|
  {
    PcbFind(pcbs, pcbs[p].ppid) == |pcbs|
  }

  /** The first of the line is killed. */
  predicate HeadKilled(s: Kernel)
    requires Shape(s)
  {
    Line(s.q.all) != [] && Line(s.q.all)[0].data < N_PCBS && s.pcbs[Line(s.q.all)[0].data].state == KILLED
  }

  function Head(s: Kernel): nat
    requires Shape(s) && HeadKilled(s)
  {
    Line(s.q.all)[0].data
  }

  /** One pass of the dispatch loop over a killed process. */
  function Pass(s: Kernel): (r: Outcome)
    requires Shape(s)
    ensures Shaped(r)
  {
    var t :- TakeReady(s);
    Zombify(t, t.current)
  }

  predicate Ended(st: ProcState) {
    st == ZOMBIE || st == FREE
  }

  /**
   The turn of a killed process: if its parent's PCB is gone the kernel panics, else it is ended, and
   dispatching goes on from there.
   */
  lemma PassFate(s: Kernel)
    requires Inv(s, {}) && HeadKilled(s)
    ensures if ParentGone(s.pcbs, Head(s)) then Pass(s) == Panicked(NoParent) && Dispatch(s) == Panicked(NoParent)
            else
              && Pass(s).Ok?
              && var z := Pass(s).value;
                 && Inv(z, {}) && Dispatch(s) == Dispatch(z) && KilledCount(z.pcbs) < KilledCount(s.pcbs)
                 && z.pcbs == Cleaned(s.pcbs, Head(s)) && Ended(z.pcbs[Head(s)].state)
  {
    HeadTurn(s);
    var t := TakeReady(s).value;
    ZombifyKeeps(t);
    if !ParentGone(s.pcbs, Head(s)) {
      PassEffect(s);
      ZombifyLowersKilled(t);
    }
  }

  lemma HeadTurn(s: Kernel)
    requires Inv(s, {}) && HeadKilled(s)
    ensures TakeReady(s).Ok?
    ensures var t := TakeReady(s).value;
            Inv(t, {t.current}) && t.pcbs == s.pcbs && t.current == Head(s) && t.pcbs[t.current].state == KILLED
  {
    TakeReadyKeeps(s);
    HeadOfQueues(s);
    LineHead(s.q.all);
  }

  lemma HeadOfQueues(s: Kernel)
    requires Shape(s) && Line(s.q.all) != []
    ensures FirstReady(s.q.all) < N_PRIORITIES
  {}

  // ---------- the turns of one dispatch ----------

  /** One pass leads from kernel `i` of the path to the next. */
  predicate PassAt(path: seq<Kernel>, i: nat)
    requires i + 1 < |path|
  {
    Shape(path[i]) && HeadKilled(path[i]) && Pass(path[i]).Ok? && path[i + 1] == Pass(path[i]).value
  }

  /** The kernels the dispatcher goes through from `s` to `z`, one pass over a killed process after the other. */
  ghost predicate Passes(path: seq<Kernel>, s: Kernel, z: Kernel) {
    && path != [] && path[0] == s && path[|path| - 1] == z
    && forall i: nat :: i + 1 < |path| ==> PassAt(path, i)
  }

  lemma PassOn(path: seq<Kernel>, i: nat)
    requires i + 1 < |path| && PassAt(path, i) && Inv(path[i], {})
    ensures Inv(path[i + 1], {}) && Dispatch(path[i + 1]) == Dispatch(path[i])
  {
    PassFate(path[i]);
  }

  lemma {:induction false} PathInv(path: seq<Kernel>, s: Kernel, z: Kernel, i: nat)
    requires Inv(s, {}) && Passes(path, s, z) && i < |path|
    ensures Inv(path[i], {})
    decreases i
  {
    if i > 0 {
      PathInv(path, s, z, i - 1);
      PassOn(path, i - 1);
    }
  }

  predicate SameNext(rs: seq<Outcome>, i: nat)
    requires i + 1 < |rs|
  {
    rs[i + 1] == rs[i]
  }

  lemma {:induction false} AllSame(rs: seq<Outcome>, i: nat)
    requires i < |rs| && forall j: nat :: j + 1 < |rs| ==> SameNext(rs, j)
    ensures rs[i] == rs[0]
    decreases i
  {
    if i > 0 {
      AllSame(rs, i - 1);
      assert SameNext(rs, i - 1);
    }
  }

  /** The outcome of dispatching from each of these kernels. */
  function Outcomes(path: seq<Kernel>): (rs: seq<Outcome>)
    requires forall i :: 0 <= i < |path| ==> Shape(path[i])
    ensures |rs| == |path|
  {
    seq(|path|, i requires 0 <= i < |path| => Dispatch(path[i]))
  }

  lemma OutcomesNext(path: seq<Kernel>, s: Kernel, z: Kernel, i: nat)
    requires Inv(s, {}) && Passes(path, s, z) && i + 1 < |path| && forall j :: 0 <= j < |path| ==> Shape(path[j])
    ensures SameNext(Outcomes(path), i)
  {
    PathInv(path, s, z, i);
    PassOn(path, i);
  }

  /** Dispatching from `s` goes on as from any kernel it comes to. */
  lemma ComesOn(path: seq<Kernel>, s: Kernel, z: Kernel)
    requires Inv(s, {}) && Passes(path, s, z)
    ensures Inv(z, {}) && Dispatch(z) == Dispatch(s)
  {
    forall j | 0 <= j < |path| ensures Shape(path[j]) {
      PathInv(path, s, z, j);
    }
    var rs := Outcomes(path);
    forall i: nat | i + 1 < |rs| ensures SameNext(rs, i) {
      OutcomesNext(path, s, z, i);
    }
    AllSame(rs, |rs| - 1);
    PathInv(path, s, z, |path| - 1);
    assert rs[0] == Dispatch(s) && rs[|rs| - 1] == Dispatch(z);
  }

  /** In kernel `z`, which dispatching from `s` comes to, it is the turn of killed process `p`. */
  ghost predicate TurnFrom(s: Kernel, p: nat, z: Kernel) {
    Shape(z) && HeadKilled(z) && Head(z) == p && exists path :: Passes(path, s, z)
  }

  lemma TurnLater(s: Kernel, t: Kernel, p: nat, z: Kernel)
    requires Shape(s) && HeadKilled(s) && Pass(s) == Ok(t) && TurnFrom(t, p, z)
    ensures TurnFrom(s, p, z)
  {
    var path :| Passes(path, t, z);
    var longer := [s] + path;
    forall i: nat | i + 1 < |longer| ensures PassAt(longer, i) {
      assert i > 0 ==> PassAt(path, i - 1);
    }
    assert Passes(longer, s, z);
  }

  lemma TurnNow(s: Kernel)
    requires Shape(s) && HeadKilled(s)
    ensures TurnFrom(s, Head(s), s)
  {
    assert Passes([s], s, s);
  }

  /**
   What a turn of process `p` in kernel `z` makes of the outcome: the panic if its parent is gone, else the
   process is ended and dispatching goes on.
   */
  predicate TurnTaken(r: Outcome, p: nat, z: Kernel)
    requires Shape(z) && p < N_PCBS
  {
    if ParentGone(z.pcbs, p) then Pass(z) == Panicked(NoParent) && r == Panicked(NoParent)
    else Pass(z).Ok? && Ended(Pass(z).value.pcbs[p].state) && r == Dispatch(Pass(z).value)
  }

  lemma DispatchTurn(s: Kernel, p: nat, z: Kernel)
    requires Inv(s, {}) && TurnFrom(s, p, z)
    ensures Inv(z, {}) && p < N_PCBS && TurnTaken(Dispatch(s), p, z)
  {
    var path :| Passes(path, s, z);
    ComesOn(path, s, z);
    PassFate(z);
  }

  /** Dispatching panics over a missing parent if and only if it comes to a killed process whose parent is gone. */
  lemma {:induction false} DispatchOrphan(s: Kernel) returns (p: nat, z: Kernel)
    requires Inv(s, {})
    ensures Dispatch(s) == Panicked(NoParent) ==> TurnFrom(s, p, z) && ParentGone(z.pcbs, p)
    decreases KilledCount(s.pcbs)
  {
    p, z := 0, s;
    TakeReadyKeeps(s);
    if Dispatch(s) == Panicked(NoParent) {
      LineHead(s.q.all);
      p := Head(s);
      TurnNow(s);
      PassFate(s);
      if !ParentGone(s.pcbs, p) {
        p, z := DispatchOrphan(Pass(s).value);
        TurnLater(s, Pass(s).value, p, z);
      }
    }
  }

  // ---------- the dispatch of a step ----------

  function Given(r: Outcome): Option<Kernel> {
    if r.Ok? then Some(r.value) else None
  }

  /** The caller put on queue `k`. */
  function Enqueued(s: Kernel, k: nat, pcb: Pcb, key: nat): (r: Outcome)
    requires Shape(s) && k < N_QUEUES
    ensures Shaped(r)
  {
    var t := SetPcb(s, s.current, pcb);
    Checked(t, InsertTo(t.q, k, Entry(s.current, key)))
  }

  function WaitedFor(s: Kernel, target: nat): (p: nat)
    requires Shape(s)
    ensures p <= N_PCBS
  {
    if target > 0 then PcbFind(s.pcbs, target) else AnyChild(s)
  }

  /** The kernel in which the dispatcher starts, if a step comes to that. */
  function Handed(s: Kernel, e: Event): (u: Option<Kernel>)
    requires Shape(s)
    ensures u.Some? ==> Shape(u.value)
  {
    var pcb := s.pcbs[s.current];
    match e
    case ExecCall(prio) => Given(Schedule(SetPcb(s, s.current, pcb.(prio := prio % 256)), s.current, prio % 256))
    case SleepCall(ticks) => Given(Enqueued(s, SLEEP, pcb.(state := SLEEPING), Add32(s.time, ticks)))
    case ReadcCall => if s.input > 0 then None else Given(Enqueued(s, READING, pcb, pcb.pid))
    case WaitCall(target) =>
      var p := WaitedFor(s, target);
      if p == N_PCBS || s.pcbs[p].state == ZOMBIE then None
      else Given(Enqueued(s, WAITING_Q, pcb.(state := WAITING, waitFor := target), pcb.pid))
    case ExitCall => Given(Zombify(s.(pcbs := Reparent(s.pcbs, pcb.pid)), s.current))
    case KillCall(pid) =>
      if PcbFind(s.pcbs, pid) == s.current then Given(Schedule(SetState(s, s.current, KILLED), s.current, pcb.prio))
      else None
    case ClockTick => Given(Ticked(s))
    case _ => None
  }

  /** After a tick: the sleepers due are awake and the process that was running is ready again. */
  function Ticked(s: Kernel): (r: Outcome)
    requires Shape(s)
    ensures Shaped(r)
  {
    var t :- WakeSleepers(s.(time := Add32(s.time, 1)));
    Schedule(t, t.current, t.pcbs[t.current].prio)
  }

  lemma EnqueuedKeeps(s: Kernel, k: nat, pcb: Pcb, key: nat)
    requires Good(s) && k <= ZOMBIES && StateOn(k, pcb.state) && (KeyedByPid(k) ==> key == pcb.pid)
    requires pcb.pid == s.pcbs[s.current].pid && pcb.stack == s.pcbs[s.current].stack && pcb.state != FREE
    ensures InsertTo(s.q, k, Entry(s.current, key)).1 == Success
    ensures var r := Enqueued(s, k, pcb, key); r.Ok? && Inv(r.value, {}) && Block(s, k, pcb, key) == Dispatch(r.value)
  {
    ChangeInv(s, {s.current}, s.current, pcb);
    InsertKeeps(SetPcb(s, s.current, pcb), {s.current}, k, Entry(s.current, key));
    assert {s.current} - {s.current} == {};
  }

  lemma RequeuedKeeps(s: Kernel, prio: nat)
    requires Inv(s, {s.current}) && s.pcbs[s.current].state != FREE
    ensures var r := Schedule(s, s.current, prio); r.Ok? && Inv(r.value, {}) && Requeue(s, prio) == Dispatch(r.value)
  {
    ScheduleKeeps(s, {s.current}, s.current, prio);
    assert {s.current} - {s.current} == {};
  }

  lemma TickedKeeps(s: Kernel)
    requires Good(s)
    ensures Ticked(s).Ok? && Inv(Ticked(s).value, {}) && Tick(s) == Dispatch(Ticked(s).value)
  {
    var t := s.(time := Add32(s.time, 1));
    ClockInv(s, t.time);
    WakeSleepersKeeps(t);
    var u := WakeSleepers(t).value;
    RequeuedKeeps(u, u.pcbs[u.current].prio);
  }

  /** The caller's parent, or init if the caller is its own, is gone. */
  predicate CallerOrphan(s: Kernel)
    requires Shape(s)
  {
    var pcb := s.pcbs[s.current];
    PcbFind(s.pcbs, if pcb.ppid == pcb.pid then PID_INIT else pcb.ppid) == N_PCBS
  }

  lemma ReparentFinds(pcbs: seq<Pcb>, pid: nat, x: nat)
    ensures PcbFind(Reparent(pcbs, pid), x) == PcbFind(pcbs, x)
  {
    forall i | 0 <= i < |pcbs|
      ensures Reparent(pcbs, pid)[i].pid == pcbs[i].pid && Reparent(pcbs, pid)[i].state == pcbs[i].state
    {}
  }

  /** Ending the process in hand fails if and only if its parent is gone. */
  lemma ZombifyFate(t: Kernel)
    requires Inv(t, {t.current}) && (t.pcbs[t.current].state == RUNNING || t.pcbs[t.current].state == KILLED)
    ensures if ParentGone(t.pcbs, t.current) then Zombify(t, t.current) == Panicked(NoParent)
            else
              && Zombify(t, t.current).Ok?
              && var z := Zombify(t, t.current).value;
                 Inv(z, {}) && z.pcbs == Cleaned(t.pcbs, t.current) && Ended(z.pcbs[t.current].state)
  {
    ZombifyKeeps(t);
    if !ParentGone(t.pcbs, t.current) {
      ZombifyEffect(t);
    }
  }

  lemma OrphanedInv(s: Kernel)
    requires Good(s)
    ensures var t := s.(pcbs := Reparent(s.pcbs, s.pcbs[s.current].pid));
            && Inv(t, {t.current}) && t.pcbs[t.current].state == RUNNING
            && (ParentGone(t.pcbs, t.current) <==> CallerOrphan(s))
  {
    var pid := s.pcbs[s.current].pid;
    assert PidOk(s.pcbs, s.nextPid, s.current);
    ReparentInv(s, {s.current}, pid);
    ReparentFinds(s.pcbs, pid, Reparent(s.pcbs, pid)[s.current].ppid);
  }

  /** The turn of a process that exits is like that of a killed one: without a parent the kernel panics. */
  lemma ExitFate(s: Kernel)
    requires Good(s)
    ensures if CallerOrphan(s) then Exit(s) == Panicked(NoParent) && Handed(s, ExitCall).None?
            else
              && Handed(s, ExitCall).Some?
              && var z := Handed(s, ExitCall).value;
                 Inv(z, {}) && Exit(s) == Dispatch(z) && Ended(z.pcbs[s.current].state)
  {
    var t := s.(pcbs := Reparent(s.pcbs, s.pcbs[s.current].pid));
    OrphanedInv(s);
    ZombifyFate(t);
    ExitIs(s, t, Zombify(t, t.current));
  }

  lemma ExitIs(s: Kernel, t: Kernel, u: Outcome)
    requires Shape(s) && t == s.(pcbs := Reparent(s.pcbs, s.pcbs[s.current].pid)) && u == Zombify(t, t.current)
    ensures Exit(s) == if u.Ok? then Dispatch(u.value) else u
    ensures Handed(s, ExitCall) == Given(u)
  {}

  /** A step either ends in a dispatch, or panics in an orphan's exit, or dispatches nobody and cannot panic. */
  predicate HandedOn(s: Kernel, e: Event)
    requires Shape(s)
  {
    var u := Handed(s, e);
    if u.Some? then Step(s, e) == Dispatch(u.value)
    else if e.ExitCall? then CallerOrphan(s) && Step(s, e) == Panicked(NoParent)
    else Step(s, e).Ok?
  }

  lemma HandedStep(s: Kernel, e: Event)
    requires Good(s)
    ensures HandedOn(s, e) && (Handed(s, e).Some? ==> Inv(Handed(s, e).value, {}))
    ensures e.ExitCall? && CallerOrphan(s) ==> Handed(s, e) == None
  {
    match e
    case ForkCall => ForkKeeps(s);
    case ExecCall(prio) => ExecHanded(s, prio);
    case SleepCall(ticks) => SleepHanded(s, ticks);
    case ReadcCall => ReadcHanded(s);
    case WaitCall(target) => WaitHanded(s, target);
    case ExitCall => ExitFate(s);
    case KillCall(pid) => KillHanded(s, pid);
    case SetPrioCall(prio) =>
    case SetTimeCall(time) =>
    case ClockTick => TickedKeeps(s);
    case SerialChar => SerialTotal(s);
  }

  lemma ExecHanded(s: Kernel, prio: nat)
    requires Good(s)
    ensures HandedOn(s, ExecCall(prio))
    ensures Handed(s, ExecCall(prio)).Some? && Inv(Handed(s, ExecCall(prio)).value, {})
  {
    var pcb := s.pcbs[s.current].(prio := prio % 256);
    ChangeInv(s, {s.current}, s.current, pcb);
    RequeuedKeeps(SetPcb(s, s.current, pcb), prio % 256);
  }

  lemma SleepHanded(s: Kernel, ticks: nat)
    requires Good(s)
    ensures HandedOn(s, SleepCall(ticks))
    ensures Handed(s, SleepCall(ticks)).Some? && Inv(Handed(s, SleepCall(ticks)).value, {})
  {
    EnqueuedKeeps(s, SLEEP, s.pcbs[s.current].(state := SLEEPING), Add32(s.time, ticks));
  }

  lemma ReadcHanded(s: Kernel)
    requires Good(s)
    ensures HandedOn(s, ReadcCall)
    ensures Handed(s, ReadcCall).Some? ==> Inv(Handed(s, ReadcCall).value, {})
  {
    if s.input == 0 {
      EnqueuedKeeps(s, READING, s.pcbs[s.current], s.pcbs[s.current].pid);
    }
  }

  lemma WaitHanded(s: Kernel, target: nat)
    requires Good(s)
    ensures HandedOn(s, WaitCall(target))
    ensures Handed(s, WaitCall(target)).Some? ==> Inv(Handed(s, WaitCall(target)).value, {})
  {
    var p := WaitedFor(s, target);
    if p < N_PCBS && s.pcbs[p].state == ZOMBIE {
      ReapKeeps(s, p);
    } else if p < N_PCBS {
      var pcb := s.pcbs[s.current].(state := WAITING, waitFor := target);
      EnqueuedKeeps(s, WAITING_Q, pcb, pcb.pid);
      WaitBlocks(s, target);
    }
  }

  lemma WaitBlocks(s: Kernel, target: nat)
    requires Shape(s) && WaitedFor(s, target) < N_PCBS && s.pcbs[WaitedFor(s, target)].state != ZOMBIE
    ensures var pcb := s.pcbs[s.current].(state := WAITING, waitFor := target);
            && Wait(s, target) == Block(s, WAITING_Q, pcb, pcb.pid)
            && Handed(s, WaitCall(target)) == Given(Enqueued(s, WAITING_Q, pcb, pcb.pid))
  {}

  predicate ZombieChildAt(s: Kernel, c: nat)
    requires Shape(s) && c < N_PCBS
  {
    s.pcbs[c].ppid == s.pcbs[s.current].pid && s.pcbs[c].state == ZOMBIE
  }

  /**
   A wait for any child settles on a child if and only if some child is a zombie or the last PCB is a child.
   It takes a zombie away at once if and only if some child is one or the last PCB is, be it a stranger's;
   else it blocks, child or not.
   */
  lemma WaitAny(s: Kernel)
    requires Good(s)
    ensures var p, last := AnyChild(s), s.pcbs[N_PCBS - 1];
            && (s.pcbs[p].ppid == s.pcbs[s.current].pid
                <==> (exists c: nat :: c < N_PCBS && ZombieChildAt(s, c)) || last.ppid == s.pcbs[s.current].pid)
            && (s.pcbs[p].state == ZOMBIE
                <==> (exists c: nat :: c < N_PCBS && ZombieChildAt(s, c)) || last.state == ZOMBIE)
            && if s.pcbs[p].state == ZOMBIE then
                 var r := Wait(s, 0);
                 r.Ok? && Good(r.value) && r.value.pcbs == s.pcbs[p := CLEARED] && r.value.current == s.current
               else
                 var pcb := s.pcbs[s.current].(state := WAITING, waitFor := 0);
                 Wait(s, 0) == Block(s, WAITING_Q, pcb, pcb.pid)
  {
    var p := AnyChild(s);
    assert p < N_PCBS - 1 ==> ZombieChildAt(s, p);
    if c: nat :| c < N_PCBS && ZombieChildAt(s, c) {
      assert !(c < p);
      assert ZombieChildAt(s, p);
    }
    if s.pcbs[p].state == ZOMBIE {
      ReapKeeps(s, p);
    } else {
      WaitBlocks(s, 0);
    }
  }

  lemma KillHanded(s: Kernel, pid: nat)
    requires Good(s)
    ensures HandedOn(s, KillCall(pid))
    ensures Handed(s, KillCall(pid)).Some? ==> Inv(Handed(s, KillCall(pid)).value, {})
  {
    if PcbFind(s.pcbs, pid) == s.current {
      ChangeInv(s, {s.current}, s.current, s.pcbs[s.current].(state := KILLED));
      RequeuedKeeps(SetState(s, s.current, KILLED), s.pcbs[s.current].prio);
    }
  }

  lemma SerialTotal(s: Kernel)
    requires Good(s)
    ensures SerialInput(s).Ok?
  {
    if s.q.all[READING].items != [] {
      var p := s.q.all[READING].items[0].data;
      TakeInv(s, {s.current}, READING, 0);
      ScheduleKeeps(s.(q := RemoveIndex(s.q, READING, 0)), {s.current} + {p}, p, s.pcbs[p].prio);
    }
  }

  /** In kernel `z`, which step `e` comes to, it is the turn of killed process `p`. */
  ghost predicate Turn(s: Kernel, e: Event, p: nat, z: Kernel)
    requires Shape(s)
  {
    Handed(s, e).Some? && TurnFrom(Handed(s, e).value, p, z)
  }

  lemma TurnFate(s: Kernel, e: Event, p: nat, z: Kernel)
    requires Good(s) && Turn(s, e, p, z)
    ensures Inv(z, {}) && p < N_PCBS && TurnTaken(Step(s, e), p, z)
  {
    HandedStep(s, e);
    DispatchTurn(Handed(s, e).value, p, z);
  }

  /**
   The panic over a missing parent: a step ends in it if and only if it is the exit of a process whose parent
   is gone, or the dispatcher comes to a killed process whose parent is gone.
   */
  lemma NoParentExact(s: Kernel, e: Event)
    requires Good(s)
    ensures Step(s, e) == Panicked(NoParent)
            <==> || (e.ExitCall? && CallerOrphan(s))
                 || exists p: nat, z :: Turn(s, e, p, z) && ParentGone(z.pcbs, p)
  {
    HandedStep(s, e);
    if Handed(s, e).Some? {
      var p, z := DispatchOrphan(Handed(s, e).value);
      assert Step(s, e) == Panicked(NoParent) ==> Turn(s, e, p, z) && ParentGone(z.pcbs, p);
    }
    forall p: nat, z | Turn(s, e, p, z) && ParentGone(z.pcbs, p) ensures Step(s, e) == Panicked(NoParent) {
      TurnFate(s, e, p, z);
    }
  }
}
