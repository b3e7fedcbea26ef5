/**
 What the effects of single steps come to: who runs next, how long a sleeper sleeps, what the clock shows and
 where the characters received are.
 */
module ProcessLaws {
  import opened QueueSpec
  import opened ProcessSpec
  import opened ProcessInv
  import opened ProcessOrder
  import opened ProcessFamily
  import opened ProcessTurn
  import opened ProcessEffect

  // ---------- who runs next ----------

  /** The lowest-numbered ready queue that is not empty. */
  ghost predicate Lowest(u: Kernel, j: nat)
    requires Shape(u)
  {
    j < 4 && u.q.all[j].items != [] && forall i :: 0 <= i < j ==> u.q.all[i].items == []
  }

  /** With nobody killed the dispatcher takes the head of the lowest-numbered ready queue that is not empty. */
  lemma PlainDispatch(u: Kernel, j: nat) returns (t: Kernel)
    requires Inv(u, {}) && NoneKilled(u.pcbs) && Lowest(u, j)
    ensures Dispatch(u) == Ok(t) && Good(t)
    ensures var p := u.q.all[j].items[0].data;
            && p < N_PCBS && u.pcbs[p].state == READY && t.current == p
            && t == u.(pcbs := u.pcbs[p := u.pcbs[p].(state := RUNNING)], q := t.q, current := p)
            && forall k :: 0 <= k < N_QUEUES ==>
                 t.q.all[k].items == if k == j then u.q.all[j].items[1..] else u.q.all[k].items
  {
    TakeReadyKeeps(u);
    DispatchKeeps(u);
    t := Dispatch(u).value;
    assert RemoveAt(u.q.all[j].items, 0) == u.q.all[j].items[1..];
  }

  lemma SomeLowest(u: Kernel, k: nat) returns (j: nat)
    requires Shape(u) && k < 4 && u.q.all[k].items != []
    ensures Lowest(u, j) && j <= k
  {
    j := FirstReady(u.q.all);
  }

  /** The ready queue for a priority. */
  function ReadyQueue(prio: nat): (k: nat)
    ensures prio < 4 ==> k == prio
    ensures prio >= 4 ==> k == 3
  {
    if prio < 4 then prio else 3
  }

  /** Nobody stands on the ready queues up to number `k`. */
  ghost predicate NobodyUpTo(s: Kernel, k: nat)
    requires Shape(s)
  {
    forall j :: 0 <= j <= k && j < 4 ==> s.q.all[j].items == []
  }

  /** Nobody stands before the last of ready queue `k`. */
  ghost predicate Alone(u: Kernel, k: nat, before: seq<Entry>)
    requires Shape(u) && k < 4
  {
    before == [] && forall j :: 0 <= j < k ==> u.q.all[j].items == []
  }

  /** The caller, last on its queue, runs again if and only if nobody is before it. */
  lemma LastRuns(u: Kernel, c: nat, k: nat, before: seq<Entry>) returns (t: Kernel)
    requires Inv(u, {}) && NoneKilled(u.pcbs) && k < 4 && u.q.all[k].items == before + [Entry(c, 0)]
    ensures Dispatch(u) == Ok(t) && Good(t)
    ensures t.current == c <==> Alone(u, k, before)
  {
    var j := SomeLowest(u, k);
    t := PlainDispatch(u, j);
    var p := u.q.all[j].items[0].data;
    if p == c && (j < k || before != []) {
      TwicePlaced(u, j, k, |before|);
    }
  }

  /** Nobody stands in two places. */
  lemma TwicePlaced(u: Kernel, j: nat, k: nat, i: nat)
    requires Inv(u, {}) && j <= k < 4 && u.q.all[j].items != [] && i < |u.q.all[k].items| && (j < k || i > 0)
    ensures u.q.all[j].items[0].data != u.q.all[k].items[i].data
  {
    var p := u.q.all[j].items[0].data;
    TakeInv(u, {}, j, 0);
    var q := RemoveIndex(u.q, j, 0).all;
    if u.q.all[k].items[i].data == p {
      OnQueueNotInHand(q, {p}, k, if j == k then i - 1 else i);
    }
  }

  lemma LineBefore(s: Kernel, u: Kernel, c: nat, prio: nat)
    requires Shape(s) && Shape(u) && LastOn(s, u, c, prio)
    ensures var k := ReadyQueue(prio);
            && u.q.all[k].items == s.q.all[k].items + [Entry(c, 0)]
            && (Alone(u, k, s.q.all[k].items) <==> NobodyUpTo(s, k))
  {
    var k := ReadyQueue(prio);
    assert StandsLast(s, u, c, prio, k);
    forall j | 0 <= j < k ensures u.q.all[j].items == s.q.all[j].items {
      assert StandsLast(s, u, c, prio, j);
      assert s.q.all[j].items + [] == s.q.all[j].items;
    }
  }

  /**
   With nobody killed, exec gives the processor away unless nobody is ready at a priority at least as high as
   the one the caller takes.
   */
  lemma ExecYields(s: Kernel, prio: nat) returns (t: Kernel)
    requires Good(s) && NoneKilled(s.pcbs)
    ensures Exec(s, prio) == Ok(t) && Good(t)
    ensures t.current == s.current <==> NobodyUpTo(s, ReadyQueue(prio % 256))
  {
    var u := ExecEffect(s, prio);
    LineBefore(s, u, s.current, prio % 256);
    t := LastRuns(u, s.current, ReadyQueue(prio % 256), s.q.all[ReadyQueue(prio % 256)].items);
  }

  /** A sleeper wakes with the next tick. */
  predicate Due(s: Kernel)
    requires Shape(s)
  {
    s.q.all[SLEEP].items != [] && s.q.all[SLEEP].items[0].key <= (s.time + 1) % 0x1_0000_0000
  }

  lemma TickBefore(s: Kernel, u: Kernel, n: nat) returns (before: seq<Entry>)
    requires Shape(s) && Shape(u) && n <= |s.q.all[SLEEP].items| && NoneKilled(s.pcbs)
    requires forall k :: 0 <= k < N_QUEUES ==> TickedOn(s, u, n, k)
    requires forall p :: 0 <= p < N_PCBS ==> TickedPcb(s, u, n, p)
    ensures NoneKilled(u.pcbs)
    ensures var k := ReadyQueue(s.pcbs[s.current].prio);
            && u.q.all[k].items == before + [Entry(s.current, 0)]
            && (Alone(u, k, before) <==> n == 0 && NobodyUpTo(s, k))
  {
    var k := ReadyQueue(s.pcbs[s.current].prio);
    forall p | 0 <= p < N_PCBS ensures u.pcbs[p].state != KILLED {
      assert TickedPcb(s, u, n, p);
    }
    var woken := Woken(s.q.all[SLEEP].items[..n]);
    assert |woken| == n;
    forall j | 0 <= j < k ensures u.q.all[j].items == [] <==> s.q.all[j].items == [] && (j == 0 ==> n == 0) {
      assert TickedOn(s, u, n, j);
      assert |u.q.all[j].items| == |s.q.all[j].items| + if j == 0 then n else 0;
    }
    assert TickedOn(s, u, n, k);
    before := s.q.all[k].items + if k == 0 then woken else [];
    assert |before| == |s.q.all[k].items| + if k == 0 then n else 0;
    assert k > 0 && n > 0 ==> u.q.all[0].items != [];
  }

  /** So does a tick, unless a sleeper is due. */
  lemma TickYields(s: Kernel) returns (t: Kernel)
    requires Good(s) && Sorted(s.q.all[SLEEP].items) && NoneKilled(s.pcbs)
    ensures Tick(s) == Ok(t) && Good(t)
    ensures t.current == s.current <==> !Due(s) && NobodyUpTo(s, ReadyQueue(s.pcbs[s.current].prio))
  {
    var k := ReadyQueue(s.pcbs[s.current].prio);
    var u, before := TickReady(s, k);
    t := LastRuns(u, s.current, k, before);
  }

  lemma TickReady(s: Kernel, k: nat) returns (u: Kernel, before: seq<Entry>)
    requires Good(s) && Sorted(s.q.all[SLEEP].items) && NoneKilled(s.pcbs) && k == ReadyQueue(s.pcbs[s.current].prio)
    ensures Inv(u, {}) && Tick(s) == Dispatch(u) && NoneKilled(u.pcbs)
    ensures u.q.all[k].items == before + [Entry(s.current, 0)]
    ensures Alone(u, k, before) <==> !Due(s) && NobodyUpTo(s, k)
  {
    var n;
    u, n := TickEffect(s);
    before := TickBefore(s, u, n);
    DueCount(s, n, u.time);
  }

  lemma DueCount(s: Kernel, n: nat, time: nat)
    requires Shape(s) && n <= |s.q.all[SLEEP].items| && time == (s.time + 1) % 0x1_0000_0000
    requires forall i :: 0 <= i < n ==> s.q.all[SLEEP].items[i].key <= time
    requires forall i :: n <= i < |s.q.all[SLEEP].items| ==> s.q.all[SLEEP].items[i].key > time
    ensures n == 0 <==> !Due(s)
  {}

  /** A priority set takes effect when the caller is next put on a ready queue, here by a tick. */
  lemma SetPrioNext(s: Kernel, x: nat) returns (u: Kernel)
    requires Good(s) && Sorted(s.q.all[SLEEP].items)
    ensures Inv(u, {}) && Run(s, [SetPrioCall(x), ClockTick]) == Dispatch(u)
    ensures var items := u.q.all[ReadyQueue(x % 256)].items; items != [] && items[|items| - 1] == Entry(s.current, 0)
  {
    var a := PrioSet(s, x);
    u := TickLast(a);
    RunPair(s, SetPrioCall(x), a, ClockTick);
    StepTick(a);
  }

  lemma PrioSet(s: Kernel, x: nat) returns (a: Kernel)
    requires Good(s)
    ensures Step(s, SetPrioCall(x)) == Ok(a) && Good(a) && a.current == s.current && a.q == s.q
    ensures a.pcbs[a.current].prio == x % 256
  {
    SetEffect(s, x);
    SetPrioKeeps(s, x);
    a := s.(pcbs := s.pcbs[s.current := s.pcbs[s.current].(prio := x % 256)]);
  }

  lemma TickLast(s: Kernel) returns (u: Kernel)
    requires Good(s) && Sorted(s.q.all[SLEEP].items)
    ensures Inv(u, {}) && Tick(s) == Dispatch(u)
    ensures var items := u.q.all[ReadyQueue(s.pcbs[s.current].prio)].items;
            items != [] && items[|items| - 1] == Entry(s.current, 0)
  {
    var n;
    u, n := TickEffect(s);
    assert TickedOn(s, u, n, ReadyQueue(s.pcbs[s.current].prio));
  }

  lemma RunPair(s: Kernel, a: Event, t: Kernel, b: Event)
    requires Shape(s) && Shape(t) && Step(s, a) == Ok(t)
    ensures Run(s, [a, b]) == Step(t, b)
  {
    assert [a, b][1..] == [b] && [b][1..] == [];
    var r := Step(t, b);
    assert r.Ok? ==> Run(r.value, []) == r;
    assert Run(t, [b]) == r;
  }

  lemma StepTick(s: Kernel)
    requires Shape(s)
    ensures Step(s, ClockTick) == Tick(s)
  {}

  // ---------- the clock and the sleepers ----------

  predicate SetsTime(e: Event) {
    e.SetTimeCall?
  }

  ghost predicate ClockUntouched(events: seq<Event>) {
    forall i :: 0 <= i < |events| ==> !SetsTime(events[i])
  }

  function Ticks(events: seq<Event>): (n: nat)
    ensures n <= |events|
  {
    if events == [] then 0 else (if events[0].ClockTick? then 1 else 0) + Ticks(events[1..])
  }

  ghost predicate Filed(before: seq<Entry>, after: seq<Entry>, e: Entry) {
    exists i :: 0 <= i <= |before| && FiledAt(before, after, i, e)
  }

  /** The first `n` sleepers are gone, which are those due. */
  predicate WokenFirst(before: seq<Entry>, after: seq<Entry>, n: nat, time: nat) {
    && n <= |before| && after == before[n..]
    && (forall i :: 0 <= i < n ==> before[i].key <= time) && (forall i :: n <= i < |before| ==> before[i].key > time)
  }

  ghost predicate DueGone(before: seq<Entry>, after: seq<Entry>, time: nat) {
    exists n :: WokenFirst(before, after, n, time)
  }

  /** What a step does to the sleepers and to the clock, `c` being the caller. */
  ghost predicate StepSleep(before: seq<Entry>, time: nat, c: nat, e: Event, after: seq<Entry>, later: nat) {
    match e
    case SleepCall(ticks) => later == time && Filed(before, after, Entry(c, (time + ticks) % 0x1_0000_0000))
    case ClockTick => later == (time + 1) % 0x1_0000_0000 && DueGone(before, after, later)
    case SetTimeCall(x) => after == before && later == x % 0x1_0000_0000
    case _ => after == before && later == time
  }

  function Sleepers(s: Kernel): seq<Entry>
    requires Shape(s)
  {
    s.q.all[SLEEP].items
  }

  lemma StepSleeps(s: Kernel, e: Event) returns (t: Kernel)
    requires Good(s) && Orderly(s) && Step(s, e).Ok?
    ensures Step(s, e) == Ok(t) && Good(t) && Orderly(t)
    ensures StepSleep(Sleepers(s), s.time, s.current, e, Sleepers(t), t.time)
  {
    StepKeeps(s, e);
    StepOrderly(s, e);
    t := StepView(s, e);
  }

  lemma StepView(s: Kernel, e: Event) returns (t: Kernel)
    requires Good(s) && Orderly(s) && Step(s, e).Ok?
    ensures Step(s, e) == Ok(t) && StepSleep(Sleepers(s), s.time, s.current, e, Sleepers(t), t.time)
  {
    t := Step(s, e).value;
    if e.SleepCall? {
      SleepSleeps(s, e.ticks);
    } else if e.ClockTick? {
      TickSleeps(s);
    } else if e.SetTimeCall? {
      SetEffect(s, e.time);
    } else {
      OthersQuiet(s, e);
    }
  }

  /** No other step touches either. */
  lemma OthersQuiet(s: Kernel, e: Event)
    requires Good(s) && !e.SleepCall? && !e.ClockTick? && !e.SetTimeCall? && Step(s, e).Ok?
    ensures var t := Step(s, e).value; StepSleep(Sleepers(s), s.time, s.current, e, Sleepers(t), t.time)
  {
    var pcb := s.pcbs[s.current];
    match e
    case ForkCall =>
    case ExecCall(prio) => RequeueUndisturbed(SetPcb(s, s.current, pcb.(prio := prio % 256)), prio % 256);
    case ReadcCall =>
      if s.input == 0 {
        BlockUndisturbed(s, READING, pcb, pcb.pid);
      }
    case WaitCall(target) => WaitQuiet(s, target);
    case ExitCall =>
      var t := s.(pcbs := Reparent(s.pcbs, pcb.pid));
      ZombifyUndisturbed(t, t.current);
      DispatchUndisturbed(Zombify(t, t.current).value);
    case KillCall(pid) => KillQuiet(s, pid);
    case SetPrioCall(prio) =>
    case SerialChar =>
  }

  lemma WaitQuiet(s: Kernel, target: nat)
    requires Good(s) && Wait(s, target).Ok?
    ensures var t := Wait(s, target).value; Sleepers(t) == Sleepers(s) && t.time == s.time && t.input == s.input
  {
    var p := WaitedFor(s, target);
    if p < N_PCBS {
      if s.pcbs[p].state == ZOMBIE {
        ReapUndisturbed(s, s.pcbs[p].pid);
      } else {
        WaitBlocks(s, target);
        BlockUndisturbed(s, WAITING_Q, s.pcbs[s.current].(state := WAITING, waitFor := target), s.pcbs[s.current].pid);
      }
    }
  }

  lemma KillQuiet(s: Kernel, pid: nat)
    requires Good(s) && Kill(s, pid).Ok?
    ensures var t := Kill(s, pid).value; Sleepers(t) == Sleepers(s) && t.time == s.time && t.input == s.input
  {
    var p := PcbFind(s.pcbs, pid);
    if p < N_PCBS {
      RequeueUndisturbed(SetState(s, p, KILLED), s.pcbs[p].prio);
    }
  }

  lemma SleepSleeps(s: Kernel, ticks: nat)
    requires Good(s) && Sleep(s, ticks).Ok?
    ensures var t := Sleep(s, ticks).value;
            StepSleep(Sleepers(s), s.time, s.current, SleepCall(ticks), Sleepers(t), t.time) && t.input == s.input
  {
    Sum32(s.time, ticks);
    SleepFiled(s, ticks, Add32(s.time, ticks));
  }

  lemma SleepFiled(s: Kernel, ticks: nat, key: nat)
    requires Good(s) && key == Add32(s.time, ticks) && Sleep(s, ticks).Ok?
    ensures var t := Sleep(s, ticks).value;
            t.time == s.time && t.input == s.input && Filed(Sleepers(s), Sleepers(t), Entry(s.current, key))
  {
    var u := SleepFiles(s, ticks, key);
    var t := DispatchQuiet(u);
    assert FiledOn(s, u, SLEEP, Entry(s.current, key));
  }

  lemma DispatchQuiet(u: Kernel) returns (t: Kernel)
    requires Inv(u, {}) && Dispatch(u).Ok?
    ensures Dispatch(u) == Ok(t) && Shape(t) && Sleepers(t) == Sleepers(u) && t.time == u.time && t.input == u.input
  {
    DispatchUndisturbed(u);
    t := Dispatch(u).value;
  }

  lemma TickSleeps(s: Kernel)
    requires Good(s) && Sorted(Sleepers(s)) && Tick(s).Ok?
    ensures var t := Tick(s).value;
            StepSleep(Sleepers(s), s.time, s.current, ClockTick, Sleepers(t), t.time) && t.input == s.input
  {
    var u, n := TickEffect(s);
    var t := DispatchQuiet(u);
    assert TickedOn(s, u, n, SLEEP);
    assert WokenFirst(Sleepers(s), Sleepers(u), n, u.time);
  }

  /** A run does its first step and then the others. */
  lemma OneStep(s: Kernel, events: seq<Event>) returns (t: Kernel)
    requires Good(s) && Orderly(s) && events != [] && ClockUntouched(events) && Run(s, events).Ok?
    ensures Step(s, events[0]) == Ok(t) && Good(t) && Orderly(t)
    ensures StepSleep(Sleepers(s), s.time, s.current, events[0], Sleepers(t), t.time) && !SetsTime(events[0])
    ensures Run(t, events[1..]) == Run(s, events) && ClockUntouched(events[1..])
  {
    t := StepSleeps(s, events[0]);
    assert !SetsTime(events[0]);
    forall i | 0 <= i < |events[1..]| ensures !SetsTime(events[1..][i]) {
      assert !SetsTime(events[i + 1]);
    }
  }

  lemma ClockGoes(before: seq<Entry>, time: nat, c: nat, e: Event, after: seq<Entry>, later: nat) returns (turns: nat)
    requires StepSleep(before, time, c, e, after, later) && !SetsTime(e) && time < 0x1_0000_0000
    ensures later + turns * 0x1_0000_0000 == time + (if e.ClockTick? then 1 else 0) && later < 0x1_0000_0000
  {
    turns := if e.ClockTick? && time == 0xFFFF_FFFF then 1 else 0;
  }

  lemma ClockStep(s: Kernel, events: seq<Event>) returns (t: Kernel, turns: nat)
    requires Good(s) && Orderly(s) && s.time < 0x1_0000_0000
    requires events != [] && ClockUntouched(events) && Run(s, events).Ok?
    ensures Good(t) && Orderly(t) && Run(t, events[1..]) == Run(s, events) && ClockUntouched(events[1..])
    ensures t.time < 0x1_0000_0000 && t.time + turns * 0x1_0000_0000 + Ticks(events[1..]) == s.time + Ticks(events)
    ensures StepSleep(Sleepers(s), s.time, s.current, events[0], Sleepers(t), t.time)
  {
    t := OneStep(s, events);
    turns := ClockGoes(Sleepers(s), s.time, s.current, events[0], Sleepers(t), t.time);
  }

  /** The clock counts the ticks, modulo 2^32. */
  lemma {:induction false} ClockCounts(s: Kernel, events: seq<Event>) returns (r: Kernel, turns: nat)
    requires Good(s) && Orderly(s) && s.time < 0x1_0000_0000 && ClockUntouched(events) && Run(s, events).Ok?
    ensures Run(s, events) == Ok(r)
    ensures r.time < 0x1_0000_0000 && r.time + turns * 0x1_0000_0000 == s.time + Ticks(events)
    decreases |events|
  {
    if events == [] {
      r, turns := s, 0;
    } else {
      var t, n := ClockStep(s, events);
      r, turns := ClockCounts(t, events[1..]);
      turns := turns + n;
    }
  }

  predicate Asleep(s: Kernel, p: nat, key: nat)
    requires Shape(s)
  {
    Entry(p, key) in Sleepers(s)
  }

  /** A sleeper sleeps on through every step but a tick that reaches its time. */
  lemma SleepsOn(before: seq<Entry>, time: nat, c: nat, e: Event, after: seq<Entry>, later: nat, x: Entry)
    requires StepSleep(before, time, c, e, after, later) && x in before && (e.ClockTick? ==> later < x.key)
    ensures x in after
  {
    var k :| 0 <= k < |before| && before[k] == x;
    match e
    case SleepCall(ticks) =>
      var i :| 0 <= i <= |before| && FiledAt(before, after, i, Entry(c, (time + ticks) % 0x1_0000_0000));
      assert after[if k < i then k else k + 1] == before[k];
    case ClockTick =>
      var n :| WokenFirst(before, after, n, later);
      assert after[k - n] == before[k];
    case _ =>
  }

  /** The tick that reaches its time takes it off the queue. */
  lemma SleepEnds(s: Kernel, p: nat, key: nat) returns (t: Kernel)
    requires Good(s) && Orderly(s) && Asleep(s, p, key) && Step(s, ClockTick).Ok?
    requires key <= (s.time + 1) % 0x1_0000_0000
    ensures Step(s, ClockTick) == Ok(t) && Good(t) && !Sleeps(Sleepers(t), p)
  {
    t := StepSleeps(s, ClockTick);
    DueGoes(s, p, key, t, (s.time + 1) % 0x1_0000_0000);
  }

  lemma DueGoes(s: Kernel, p: nat, key: nat, t: Kernel, later: nat)
    requires Good(s) && Asleep(s, p, key) && Shape(t) && DueGone(Sleepers(s), Sleepers(t), later) && key <= later
    ensures !Sleeps(Sleepers(t), p)
  {
    var n: nat :| WokenFirst(Sleepers(s), Sleepers(t), n, later);
    var x :| 0 <= x < |Sleepers(s)| && Sleepers(s)[x] == Entry(p, key);
    forall i | 0 <= i < |Sleepers(t)| ensures Sleepers(t)[i].data != p {
      OnceAsleep(s, x, n + i);
    }
  }

  lemma TickReaches(before: seq<Entry>, time: nat, c: nat, after: seq<Entry>, later: nat, key: nat)
    requires StepSleep(before, time, c, ClockTick, after, later)
    requires time + 1 == key < 0x1_0000_0000 || (time == 0xFFFF_FFFF && key == 0)
    ensures DueGone(before, after, key)
  {}

  lemma OnceAsleep(s: Kernel, x: nat, y: nat)
    requires Good(s) && x < y < |Sleepers(s)|
    ensures Sleepers(s)[x].data != Sleepers(s)[y].data
  {
    TakeInv(s, {s.current}, SLEEP, x);
    var p := s.q.all[SLEEP].items[x].data;
    if s.q.all[SLEEP].items[y].data == p {
      OnQueueNotInHand(RemoveIndex(s.q, SLEEP, x).all, {s.current} + {p}, SLEEP, y - 1);
    }
  }

  lemma SleepStep(s: Kernel, p: nat, key: nat, events: seq<Event>) returns (t: Kernel)
    requires Good(s) && Orderly(s) && Asleep(s, p, key) && key < 0x1_0000_0000
    requires events != [] && ClockUntouched(events) && Run(s, events).Ok? && s.time + Ticks(events) < key
    ensures Good(t) && Orderly(t) && Run(t, events[1..]) == Run(s, events) && ClockUntouched(events[1..])
    ensures Asleep(t, p, key) && t.time + Ticks(events[1..]) == s.time + Ticks(events)
  {
    var turns;
    t, turns := ClockStep(s, events);
    assert turns == 0;
    SleepsOn(Sleepers(s), s.time, s.current, events[0], Sleepers(t), t.time, Entry(p, key));
  }

  /** While nobody sets the clock, a sleeper stays on the queue until the clock reaches its time. */
  lemma {:induction false} SleepLasts(s: Kernel, p: nat, key: nat, events: seq<Event>) returns (r: Kernel)
    requires Good(s) && Orderly(s) && Asleep(s, p, key) && key < 0x1_0000_0000
    requires ClockUntouched(events) && Run(s, events).Ok? && s.time + Ticks(events) < key
    ensures Run(s, events) == Ok(r) && Good(r) && Orderly(r)
    ensures Asleep(r, p, key) && r.time == s.time + Ticks(events)
    decreases |events|
  {
    if events == [] {
      r := s;
    } else {
      var t := SleepStep(s, p, key, events);
      r := SleepLasts(t, p, key, events[1..]);
    }
  }

  /**
   A call to sleep for `n` ticks lasts exactly them: in every run in which nobody sets the clock the caller
   stays on the sleep queue through its first n - 1 ticks, and the `n`th takes it off.
   */
  lemma SleepCallLasts(s: Kernel, n: nat, a: Kernel, events: seq<Event>, key: nat) returns (r: Kernel, t: Kernel)
    requires Good(s) && Orderly(s) && n >= 1 && key == s.time + n < 0x1_0000_0000 && Step(s, SleepCall(n)) == Ok(a)
    requires ClockUntouched(events) && Run(a, events).Ok? && Ticks(events) < n
    ensures Run(a, events) == Ok(r) && Good(r) && Asleep(r, s.current, key)
    ensures Ticks(events) == n - 1 && Step(r, ClockTick).Ok? ==>
              Step(r, ClockTick) == Ok(t) && Good(t) && !Sleeps(Sleepers(t), s.current)
  {
    FallsAsleep(s, n, a, key);
    r, t := SleepSpan(a, s.current, key, events);
  }

  lemma SleepSpan(s: Kernel, p: nat, key: nat, events: seq<Event>) returns (r: Kernel, t: Kernel)
    requires Good(s) && Orderly(s) && Asleep(s, p, key) && key < 0x1_0000_0000
    requires ClockUntouched(events) && Run(s, events).Ok? && s.time + Ticks(events) < key
    ensures Run(s, events) == Ok(r) && Good(r) && Asleep(r, p, key)
    ensures s.time + Ticks(events) == key - 1 && Step(r, ClockTick).Ok? ==>
              Step(r, ClockTick) == Ok(t) && Good(t) && !Sleeps(Sleepers(t), p)
  {
    r := SleepLasts(s, p, key, events);
    t := r;
    if s.time + Ticks(events) == key - 1 && Step(r, ClockTick).Ok? {
      t := StepSleeps(r, ClockTick);
      TickReaches(Sleepers(r), r.time, r.current, Sleepers(t), t.time, key);
      DueGoes(r, p, key, t, key);
    }
  }

  lemma FallsAsleep(s: Kernel, n: nat, a: Kernel, key: nat)
    requires Good(s) && Orderly(s) && key == s.time + n < 0x1_0000_0000 && Step(s, SleepCall(n)) == Ok(a)
    ensures Good(a) && Orderly(a) && a.time == s.time && Asleep(a, s.current, key)
  {
    var t := StepSleeps(s, SleepCall(n));
    Falls(Sleepers(s), s.time, s.current, n, Sleepers(a), a.time, key, 0);
  }

  /**
   A call whose wake-up time is past 2^32 does not last, except at the last time before the clock wraps around:
   the first tick takes the caller off.
   */
  lemma SleepCutShort(s: Kernel, n: nat, a: Kernel, events: seq<Event>, key: nat) returns (r: Kernel, t: Kernel)
    requires Good(s) && Orderly(s) && n < 0x1_0000_0000 && Step(s, SleepCall(n)) == Ok(a)
    requires s.time + 1 < 0x1_0000_0000 <= s.time + n && key == s.time + n - 0x1_0000_0000
    requires ClockUntouched(events) && Run(a, events).Ok? && Ticks(events) == 0
    ensures Run(a, events) == Ok(r) && Good(r) && Asleep(r, s.current, key)
    ensures Step(r, ClockTick).Ok? ==> Step(r, ClockTick) == Ok(t) && Good(t) && !Sleeps(Sleepers(t), s.current)
  {
    FallsWrapped(s, n, a, key);
    r := SleepQuiet(a, s.current, key, events);
    t := r;
    if Step(r, ClockTick).Ok? {
      t := StepSleeps(r, ClockTick);
      TickReaches(Sleepers(r), r.time, r.current, Sleepers(t), t.time, s.time + 1);
      DueGoes(r, s.current, key, t, s.time + 1);
    }
  }

  /** At that time it does, however long it is: the clock wraps around with the first tick. */
  lemma SleepAcross(s: Kernel, n: nat, a: Kernel, events: seq<Event>, key: nat) returns (r: Kernel, t: Kernel)
    requires Good(s) && Orderly(s) && s.time == 0xFFFF_FFFF && Step(s, SleepCall(n)) == Ok(a)
    requires key + 1 == n < 0x1_0000_0000 && ClockUntouched(events) && Run(a, events).Ok? && Ticks(events) < n
    ensures Run(a, events) == Ok(r) && Good(r) && Asleep(r, s.current, key)
    ensures Ticks(events) == n - 1 && Step(r, ClockTick).Ok? ==>
              Step(r, ClockTick) == Ok(t) && Good(t) && !Sleeps(Sleepers(t), s.current)
  {
    FallsWrapped(s, n, a, key);
    r, t := WrapSpan(a, s.current, key, events);
  }

  lemma WrapSpan(s: Kernel, p: nat, key: nat, events: seq<Event>) returns (r: Kernel, t: Kernel)
    requires Good(s) && Orderly(s) && s.time == 0xFFFF_FFFF && Asleep(s, p, key) && key < 0x1_0000_0000
    requires ClockUntouched(events) && Run(s, events).Ok? && Ticks(events) <= key
    ensures Run(s, events) == Ok(r) && Good(r) && Asleep(r, p, key)
    ensures Ticks(events) == key && Step(r, ClockTick).Ok? ==>
              Step(r, ClockTick) == Ok(t) && Good(t) && !Sleeps(Sleepers(t), p)
  {
    r := SleepWraps(s, p, key, events);
    t := r;
    if Ticks(events) == key && Step(r, ClockTick).Ok? {
      t := StepSleeps(r, ClockTick);
      TickReaches(Sleepers(r), r.time, r.current, Sleepers(t), t.time, key);
      DueGoes(r, p, key, t, key);
    }
  }

  lemma FallsWrapped(s: Kernel, n: nat, a: Kernel, key: nat)
    requires Good(s) && Orderly(s) && s.time + n == key + 0x1_0000_0000 && key < 0x1_0000_0000
    requires Step(s, SleepCall(n)) == Ok(a)
    ensures Good(a) && Orderly(a) && a.time == s.time && Asleep(a, s.current, key)
  {
    var t := StepSleeps(s, SleepCall(n));
    Falls(Sleepers(s), s.time, s.current, n, Sleepers(a), a.time, key, 1);
  }

  /** Without a tick a sleeper stays. */
  lemma {:induction false} SleepQuiet(s: Kernel, p: nat, key: nat, events: seq<Event>) returns (r: Kernel)
    requires Good(s) && Orderly(s) && Asleep(s, p, key) && ClockUntouched(events) && Run(s, events).Ok?
    requires Ticks(events) == 0
    ensures Run(s, events) == Ok(r) && Good(r) && Orderly(r) && Asleep(r, p, key) && r.time == s.time
    decreases |events|
  {
    if events == [] {
      r := s;
    } else {
      var t := QuietStep(s, p, key, events);
      r := SleepQuiet(t, p, key, events[1..]);
    }
  }

  lemma QuietStep(s: Kernel, p: nat, key: nat, events: seq<Event>) returns (t: Kernel)
    requires Good(s) && Orderly(s) && Asleep(s, p, key) && events != [] && !events[0].ClockTick?
    requires ClockUntouched(events) && Run(s, events).Ok?
    ensures Good(t) && Orderly(t) && Run(t, events[1..]) == Run(s, events) && ClockUntouched(events[1..])
    ensures Asleep(t, p, key) && t.time == s.time && Ticks(events) == Ticks(events[1..])
  {
    t := OneStep(s, events);
    SleepsOn(Sleepers(s), s.time, s.current, events[0], Sleepers(t), t.time, Entry(p, key));
    TimeStands(Sleepers(s), s.time, s.current, events[0], Sleepers(t), t.time);
  }

  lemma TimeStands(before: seq<Entry>, time: nat, c: nat, e: Event, after: seq<Entry>, later: nat)
    requires StepSleep(before, time, c, e, after, later) && !SetsTime(e) && !e.ClockTick?
    ensures later == time
  {}

  lemma {:induction false} SleepWraps(s: Kernel, p: nat, key: nat, events: seq<Event>) returns (r: Kernel)
    requires Good(s) && Orderly(s) && s.time == 0xFFFF_FFFF && Asleep(s, p, key) && key < 0x1_0000_0000
    requires ClockUntouched(events) && Run(s, events).Ok? && Ticks(events) <= key
    ensures Run(s, events) == Ok(r) && Good(r) && Orderly(r) && Asleep(r, p, key)
    ensures r.time == if Ticks(events) == 0 then 0xFFFF_FFFF else Ticks(events) - 1
    decreases |events|
  {
    if events == [] {
      r := s;
    } else if events[0].ClockTick? {
      var t := WrapStep(s, p, key, events);
      r := SleepLasts(t, p, key, events[1..]);
    } else {
      var t := QuietStep(s, p, key, events);
      r := SleepWraps(t, p, key, events[1..]);
    }
  }

  lemma WrapStep(s: Kernel, p: nat, key: nat, events: seq<Event>) returns (t: Kernel)
    requires Good(s) && Orderly(s) && s.time == 0xFFFF_FFFF && Asleep(s, p, key) && key > 0
    requires events != [] && events[0].ClockTick? && ClockUntouched(events) && Run(s, events).Ok?
    ensures Good(t) && Orderly(t) && Run(t, events[1..]) == Run(s, events) && ClockUntouched(events[1..])
    ensures Asleep(t, p, key) && t.time == 0 && Ticks(events) == 1 + Ticks(events[1..])
  {
    t := OneStep(s, events);
    var turns := ClockGoes(Sleepers(s), s.time, s.current, events[0], Sleepers(t), t.time);
    SleepsOn(Sleepers(s), s.time, s.current, events[0], Sleepers(t), t.time, Entry(p, key));
  }

  lemma Falls(before: seq<Entry>, time: nat, c: nat, n: nat, after: seq<Entry>, later: nat,
              key: nat, turns: nat)
    requires StepSleep(before, time, c, SleepCall(n), after, later)
    requires key + turns * 0x1_0000_0000 == time + n && key < 0x1_0000_0000
    ensures Entry(c, key) in after && later == time
  {
    var i :| 0 <= i <= |before| && FiledAt(before, after, i, Entry(c, key));
    assert after[i] == Entry(c, key);
  }

  // ---------- the characters received ----------

  /** A character comes in. */
  function Received(e: Event): nat {
    if e.SerialChar? then 1 else 0
  }

  /** It is dropped: nobody reads, and 2048 are buffered. */
  function Dropped(s: Kernel, e: Event): nat
    requires Shape(s)
  {
    if e.SerialChar? && s.q.all[READING].items == [] && s.input >= 2048 then 1 else 0
  }

  /** A reader gets a character: the caller one that is buffered, or the first that waits the one that comes in. */
  function Delivered(s: Kernel, e: Event): nat
    requires Shape(s)
  {
    if (e.ReadcCall? && s.input > 0) || (e.SerialChar? && s.q.all[READING].items != []) then 1 else 0
  }

  lemma StepInput(s: Kernel, e: Event)
    requires Good(s) && Orderly(s) && Step(s, e).Ok?
    ensures Step(s, e).value.input + Delivered(s, e) + Dropped(s, e) == s.input + Received(e)
  {
    var pcb := s.pcbs[s.current];
    match e
    case ForkCall =>
    case ExecCall(prio) => RequeueUndisturbed(SetPcb(s, s.current, pcb.(prio := prio % 256)), prio % 256);
    case SleepCall(ticks) => SleepSleeps(s, ticks);
    case ReadcCall =>
      if s.input == 0 {
        BlockUndisturbed(s, READING, pcb, pcb.pid);
      }
    case WaitCall(target) => WaitQuiet(s, target);
    case ExitCall =>
      var t := s.(pcbs := Reparent(s.pcbs, pcb.pid));
      ZombifyUndisturbed(t, t.current);
      DispatchUndisturbed(Zombify(t, t.current).value);
    case KillCall(pid) => KillQuiet(s, pid);
    case SetPrioCall(prio) =>
    case SetTimeCall(time) =>
    case ClockTick => TickSleeps(s);
    case SerialChar => SerialCounted(s);
  }

  lemma SerialCounted(s: Kernel)
    requires Good(s) && Orderly(s) && SerialInput(s).Ok?
    ensures SerialInput(s).value.input + Delivered(s, SerialChar) + Dropped(s, SerialChar) == s.input + 1
  {
    if s.q.all[READING].items == [] {
      SerialBuffers(s);
    } else {
      var t := SerialWakes(s);
    }
  }

  /** Over a run: how many characters came in, were dropped, and reached a reader. */
  datatype Tally = Tally(received: nat, dropped: nat, delivered: nat)

  function Tallied(s: Kernel, events: seq<Event>): Tally
    requires Shape(s)
    decreases |events|
  {
    if events == [] then Tally(0, 0, 0)
    else
      var e, r := events[0], Step(s, events[0]);
      var rest := if r.Ok? then Tallied(r.value, events[1..]) else Tally(0, 0, 0);
      Tally(Received(e) + rest.received, Dropped(s, e) + rest.dropped, Delivered(s, e) + rest.delivered)
  }

  /** The characters that reached a reader and those buffered are those received and not dropped. */
  lemma {:induction false} InputConserved(s: Kernel, events: seq<Event>)
    requires Good(s) && Orderly(s) && Run(s, events).Ok?
    ensures var n := Tallied(s, events); n.delivered + Run(s, events).value.input == s.input + n.received - n.dropped
    decreases |events|
  {
    if events != [] {
      StepKeeps(s, events[0]);
      StepOrderly(s, events[0]);
      StepInput(s, events[0]);
      InputConserved(Step(s, events[0]).value, events[1..]);
    }
  }
}
