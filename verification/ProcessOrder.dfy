/**
 Which process the dispatcher picks, what a clock tick wakes, that no reader waits while input is
 pending, and what yielding and killing do to the caller.
 */
module ProcessOrder {
  import opened QueueSpec
  import opened ProcessSpec
  import opened ProcessInv

  // ---------- dispatching ----------

  /** How many entries name a killed process. */
  function KilledOn(items: seq<Entry>, pcbs: seq<Pcb>): nat {
    if items == [] then 0
    else
      var e := items[|items| - 1];
      KilledOn(items[..|items| - 1], pcbs) + if e.data < |pcbs| && pcbs[e.data].state == KILLED then 1 else 0
  }

  function KilledReady(s: Kernel): nat
    requires Shape(s)
  {
    KilledOn(s.q.all[0].items, s.pcbs) + KilledOn(s.q.all[1].items, s.pcbs)
    + KilledOn(s.q.all[2].items, s.pcbs) + KilledOn(s.q.all[3].items, s.pcbs)
  }

  lemma {:induction false} KilledHead(items: seq<Entry>, pcbs: seq<Pcb>)
    requires items != []
    ensures KilledOn(items, pcbs)
            == KilledOn(items[1..], pcbs)
               + if items[0].data < |pcbs| && pcbs[items[0].data].state == KILLED then 1 else 0
  {
    if |items| > 1 {
      assert items[..|items| - 1][1..] == items[1..][..|items| - 2];
      KilledHead(items[..|items| - 1], pcbs);
    } else {
      assert items[1..] == [];
    }
  }

  lemma {:induction false} KilledSame(items: seq<Entry>, pcbs: seq<Pcb>, pcbs': seq<Pcb>)
    requires |pcbs| == |pcbs'|
    requires forall i :: 0 <= i < |items| && items[i].data < |pcbs| ==>
                           (pcbs[items[i].data].state == KILLED <==> pcbs'[items[i].data].state == KILLED)
    ensures KilledOn(items, pcbs) == KilledOn(items, pcbs')
  {
    if items != [] {
      KilledSame(items[..|items| - 1], pcbs, pcbs');
    }
  }

  /** The parent that is woken when process `p` is cleaned up, if it waits for `p`; else the table size. */
  function Waiter(pcbs: seq<Pcb>, p: nat): (w: nat)
    requires p < |pcbs|
    ensures w < |pcbs| ==> pcbs[w].state == WAITING && pcbs[w].pid == pcbs[p].ppid
  {
    var w := PcbFind(pcbs, pcbs[p].ppid);
    if w < |pcbs| && pcbs[w].state == WAITING && (pcbs[w].waitFor == 0 || pcbs[w].waitFor == pcbs[p].pid) then w
    else |pcbs|
  }

  function WaiterEntry(pcbs: seq<Pcb>, p: nat): seq<Entry>
    requires p < |pcbs|
  {
    if Waiter(pcbs, p) < |pcbs| then [Entry(Waiter(pcbs, p), 0)] else []
  }

  /** The table once process `p` is cleaned up: gone if its parent waited for it, else a zombie. */
  function Cleaned(pcbs: seq<Pcb>, p: nat): (r: seq<Pcb>)
    requires p < |pcbs|
    ensures |r| == |pcbs|
  {
    var w := Waiter(pcbs, p);
    if w < |pcbs| then pcbs[p := CLEARED][w := pcbs[w].(state := READY)] else pcbs[p := pcbs[p].(state := ZOMBIE)]
  }

  /** What `_zombify` does to the ready queues and the table, for a killed or running process in hand. */
  lemma ZombifyEffect(t: Kernel)
    requires Inv(t, {t.current}) && Zombify(t, t.current).Ok?
    requires t.pcbs[t.current].state == KILLED || t.pcbs[t.current].state == RUNNING
    ensures var z := Zombify(t, t.current).value;
            && z.pcbs == Cleaned(t.pcbs, t.current)
            && z.q.all[0].items == t.q.all[0].items + WaiterEntry(t.pcbs, t.current)
            && forall k :: 1 <= k < N_PRIORITIES ==> z.q.all[k] == t.q.all[k]
  {
    if Waiter(t.pcbs, t.current) < N_PCBS {
      WakeEffect(t, Waiter(t.pcbs, t.current));
    }
  }

  /** Of the ready queues only the first changes. */
  lemma WakeQueues(t: Kernel, pid: nat)
    requires Shape(t) && WakeParent(t, t.current, pid).Ok?
    ensures var z := WakeParent(t, t.current, pid).value;
            && z.q.all[0].items == t.q.all[0].items + [Entry(RemoveByKey(t.q, WAITING_Q, pid).2, 0)]
            && forall k :: 1 <= k < N_PRIORITIES ==> z.q.all[k] == t.q.all[k]
  {}

  lemma WakeEffect(t: Kernel, w: nat)
    requires Inv(t, {t.current}) && w < N_PCBS && t.pcbs[w].state == WAITING
    requires t.pcbs[t.current].state == KILLED || t.pcbs[t.current].state == RUNNING
    ensures WakeParent(t, t.current, t.pcbs[w].pid).Ok?
    ensures var z := WakeParent(t, t.current, t.pcbs[w].pid).value;
            && z.pcbs == t.pcbs[t.current := CLEARED][w := t.pcbs[w].(state := READY)]
            && z.q.all[0].items == t.q.all[0].items + [Entry(w, 0)]
            && forall k :: 1 <= k < N_PRIORITIES ==> z.q.all[k] == t.q.all[k]
  {
    WakeParentKeeps(t, w);
    WakeQueues(t, t.pcbs[w].pid);
    var k, i := PlaceByState(t, {t.current}, w);
    FindByPid(t, {t.current}, k, i);
  }

  lemma HeadTaken(s: Kernel)
    requires Inv(s, {}) && TakeReady(s).Ok?
    requires TakeReady(s).value.pcbs[TakeReady(s).value.current].state == KILLED
    ensures KilledReady(TakeReady(s).value) + 1 == KilledReady(s)
  {
    TakeReadyKeeps(s);
    var t, i := TakeReady(s).value, FirstReady(s.q.all);
    KilledHead(s.q.all[i].items, s.pcbs);
    assert t.q.all[i].items == s.q.all[i].items[1..];
  }

  /** The queues are blind to a change of a process that is on none of them. */
  lemma KilledElsewhere(t: Kernel, k: nat, pcbs': seq<Pcb>)
    requires Inv(t, {t.current}) && k < N_PRIORITIES && |pcbs'| == N_PCBS
    requires forall p :: 0 <= p < N_PCBS && p != t.current ==>
                           (t.pcbs[p].state == KILLED <==> pcbs'[p].state == KILLED)
    ensures KilledOn(t.q.all[k].items, t.pcbs) == KilledOn(t.q.all[k].items, pcbs')
  {
    var items := t.q.all[k].items;
    assert ItemsOk(t.pcbs, k, items);
    forall j | 0 <= j < |items| ensures items[j].data != t.current && items[j].data < N_PCBS {
      assert ItemOk(t.pcbs, k, items[j]);
      OnQueueNotInHand(t.q.all, {t.current}, k, j);
    }
    KilledSame(items, t.pcbs, pcbs');
  }

  lemma ZombifyKeepsKilledReady(t: Kernel)
    requires Inv(t, {t.current}) && t.pcbs[t.current].state == KILLED && Zombify(t, t.current).Ok?
    ensures KilledReady(Zombify(t, t.current).value) == KilledReady(t)
  {
    var z := Zombify(t, t.current).value;
    ZombifyEffect(t);
    KilledElsewhere(t, 0, z.pcbs);
    KilledElsewhere(t, 1, z.pcbs);
    KilledElsewhere(t, 2, z.pcbs);
    KilledElsewhere(t, 3, z.pcbs);
    if Waiter(t.pcbs, t.current) < N_PCBS {
      assert z.q.all[0].items[..|t.q.all[0].items|] == t.q.all[0].items;
    }
  }

  /** Each pass of the dispatch loop leaves one killed process fewer on the ready queues. */
  lemma PassLowersKilledReady(s: Kernel)
    requires Inv(s, {}) && TakeReady(s).Ok?
    requires var t := TakeReady(s).value; t.pcbs[t.current].state == KILLED && Zombify(t, t.current).Ok?
    ensures var t := TakeReady(s).value; KilledReady(Zombify(t, t.current).value) < KilledReady(s)
  {
    TakeReadyKeeps(s);
    HeadTaken(s);
    ZombifyKeepsKilledReady(TakeReady(s).value);
  }

  /** All ready processes, in the order of the queues. */
  function Line(all: seq<Queue>): seq<Entry>
    requires |all| == N_QUEUES
  {
    all[0].items + (all[1].items + (all[2].items + all[3].items))
  }

  /** The parents woken when the processes of `line` are cleaned up one after the other. */
  function WokenBy(pcbs: seq<Pcb>, line: seq<Entry>): seq<nat>
    decreases |line|
  {
    if line == [] || line[0].data >= |pcbs| then []
    else
      var w := Waiter(pcbs, line[0].data);
      (if w < |pcbs| then [w] else []) + WokenBy(Cleaned(pcbs, line[0].data), line[1..])
  }

  function CleanedAll(pcbs: seq<Pcb>, line: seq<Entry>): (r: seq<Pcb>)
    ensures |r| == |pcbs|
    decreases |line|
  {
    if line == [] || line[0].data >= |pcbs| then pcbs else CleanedAll(Cleaned(pcbs, line[0].data), line[1..])
  }

  lemma LineHead(all: seq<Queue>)
    requires |all| == N_QUEUES && FirstReady(all) < N_PRIORITIES
    ensures var i := FirstReady(all);
            && Line(all) != [] && Line(all)[0] == all[i].items[0]
            && Line(all[i := all[i].(items := all[i].items[1..])]) == Line(all)[1..]
  {
    var i := FirstReady(all);
    var rest := all[i := all[i].(items := all[i].items[1..])];
    assert Line(all) == [all[i].items[0]] + Line(rest);
  }

  /** How many of the processes after the first are on ready queue 0. */
  function Behind(s: Kernel): nat
    requires Shape(s)
  {
    if s.q.all[0].items == [] then 0 else |s.q.all[0].items| - 1
  }

  /** A pass of the loop takes the first of the line, and puts a parent it wakes behind those on ready queue 0. */
  lemma PassEffect(s: Kernel)
    requires Inv(s, {}) && TakeReady(s).Ok?
    requires var t := TakeReady(s).value; t.pcbs[t.current].state == KILLED && Zombify(t, t.current).Ok?
    ensures var t := TakeReady(s).value;
            var z, line := Zombify(t, t.current).value, Line(s.q.all);
            && line != [] && line[0].data == t.current < N_PCBS && t.pcbs == s.pcbs
            && Inv(z, {}) && z.pcbs == Cleaned(s.pcbs, t.current)
            && Behind(s) < |line| && |z.q.all[0].items| == Behind(s) + |WaiterEntry(s.pcbs, t.current)|
            && Line(z.q.all) == line[1..][..Behind(s)] + WaiterEntry(s.pcbs, t.current) + line[1..][Behind(s)..]
  {
    TakeReadyKeeps(s);
    var t := TakeReady(s).value;
    ZombifyKeeps(t);
    ZombifyEffect(t);
    LineHead(s.q.all);
    var i, z := FirstReady(s.q.all), Zombify(t, t.current).value;
    assert RemoveAt(s.q.all[i].items, 0) == s.q.all[i].items[1..];
    assert Line(t.q.all)[..Behind(s)] == t.q.all[0].items;
    assert Line(t.q.all)[Behind(s)..] == t.q.all[1].items + (t.q.all[2].items + t.q.all[3].items);
  }

  /**
   The first `n` of the line, `ahead` of which are on ready queue 0, are killed, and process `picked` is whom
   the dispatcher comes to once they are cleaned up.
   */
  predicate Choice(pcbs: seq<Pcb>, line: seq<Entry>, ahead: nat, n: nat, picked: nat) {
    && n <= |line| && (forall i :: 0 <= i < n ==> line[i].data < |pcbs| && pcbs[line[i].data].state == KILLED)
    && (n > ahead ==> WokenBy(pcbs, line[..n - 1]) == [])
    && var woken := WokenBy(pcbs, line[..n]);
       if n < ahead || woken == [] then n < |line| && picked == line[n].data < |pcbs| && pcbs[picked].state == READY
       else picked == woken[0] < |pcbs| && pcbs[picked].state == WAITING
  }

  /** Where the processes behind the first of a line are, once `entry` is put after `b` of them. */
  lemma Shifted(line: seq<Entry>, b: nat, entry: seq<Entry>, after: seq<Entry>, n: nat)
    requires b < |line| && after == line[1..][..b] + entry + line[1..][b..] && n <= |after| && (entry == [] || n <= b)
    ensures n < |line| && after[..n] == line[..n + 1][1..]
    ensures n > 0 ==> after[..n - 1] == line[..n][1..]
    ensures forall i :: 0 <= i < n ==> after[i] == line[i + 1]
    ensures if entry != [] && n == b then n < |after| && after[n] == entry[0]
            else n < |after| ==> n + 1 < |line| && after[n] == line[n + 1]
  {}

  /** A parent just woken is ready, so no more are cleaned up than are ahead of it. */
  lemma WokenStops(pcbs: seq<Pcb>, p: nat, b: nat, line: seq<Entry>, n: nat)
    requires p < |pcbs| && Waiter(pcbs, p) < |pcbs| && b < |line| && line[b] == Entry(Waiter(pcbs, p), 0)
    requires n <= |line|
    requires forall i :: 0 <= i < n ==> line[i].data < |pcbs| && Cleaned(pcbs, p)[line[i].data].state == KILLED
    ensures n <= b
  {
    assert Cleaned(pcbs, p)[Waiter(pcbs, p)].state == READY;
  }

  lemma WokenCons(pcbs: seq<Pcb>, line: seq<Entry>)
    requires line != [] && line[0].data < |pcbs|
    ensures var p := line[0].data;
            && WokenBy(pcbs, line)
               == (if Waiter(pcbs, p) < |pcbs| then [Waiter(pcbs, p)] else []) + WokenBy(Cleaned(pcbs, p), line[1..])
            && CleanedAll(pcbs, line) == CleanedAll(Cleaned(pcbs, p), line[1..])
  {}

  predicate ReadyOrKilled(pcbs: seq<Pcb>, line: seq<Entry>) {
    forall i :: 0 <= i < |line| ==>
      line[i].data < |pcbs| && (pcbs[line[i].data].state == READY || pcbs[line[i].data].state == KILLED)
  }

  lemma KilledCons(pcbs: seq<Pcb>, line: seq<Entry>, rest: seq<Entry>, n: nat)
    requires line != [] && line[0].data < |pcbs| && pcbs[line[0].data].state == KILLED
    requires n <= |rest| && n < |line| && rest[..n] == line[1..][..n]
    requires forall i :: 0 <= i < n ==> rest[i].data < |pcbs| && pcbs[rest[i].data].state == KILLED
    ensures forall i :: 0 <= i < n + 1 ==> line[i].data < |pcbs| && pcbs[line[i].data].state == KILLED
  {
    forall i | 0 < i < n + 1 ensures line[i] == rest[i - 1] {
      assert rest[..n][i - 1] == line[1..][..n][i - 1];
    }
  }

  /** The choice after a pass that woke nobody, seen from before it. */
  lemma ChoiceQuiet(pcbs: seq<Pcb>, line: seq<Entry>, ahead: nat, n: nat, picked: nat)
    requires line != [] && line[0].data < |pcbs| && pcbs[line[0].data].state == KILLED
    requires Waiter(pcbs, line[0].data) == |pcbs|
    requires Choice(Cleaned(pcbs, line[0].data), line[1..], if ahead == 0 then 0 else ahead - 1, n, picked)
    ensures Choice(pcbs, line, ahead, n + 1, picked)
  {
    var rest := line[1..];
    assert line[..n + 1][1..] == rest[..n] && (n > 0 ==> line[..n][1..] == rest[..n - 1]);
    WokenCons(pcbs, line[..n + 1]);
    if n > 0 {
      WokenCons(pcbs, line[..n]);
    } else {
      assert line[..0] == [];
    }
    KilledCons(pcbs, line, rest, n);
  }

  /** The choice after a pass that woke a parent, seen from before it. */
  lemma ChoiceWoken(pcbs: seq<Pcb>, line: seq<Entry>, ahead: nat, b: nat, after: seq<Entry>, n: nat, picked: nat)
    requires line != [] && b < |line| && b == (if ahead == 0 then 0 else ahead - 1) && ReadyOrKilled(pcbs, line)
    requires pcbs[line[0].data].state == KILLED && Waiter(pcbs, line[0].data) < |pcbs|
    requires after == line[1..][..b] + [Entry(Waiter(pcbs, line[0].data), 0)] + line[1..][b..]
    requires Choice(Cleaned(pcbs, line[0].data), after, b + 1, n, picked)
    ensures n <= b && after[..n] == line[1..][..n]
    ensures Choice(pcbs, line, ahead, n + 1, picked)
  {
    var p := line[0].data;
    WokenStops(pcbs, p, b, after, n);
    Shifted(line, b, [Entry(Waiter(pcbs, p), 0)], after, n);
    WokenCons(pcbs, line[..n + 1]);
    assert ahead == 0 ==> line[..n] == [];
    KilledCons(pcbs, line, after, n);
  }

  lemma ChoiceStep(pcbs: seq<Pcb>, line: seq<Entry>, ahead: nat, b: nat, after: seq<Entry>, n: nat, picked: nat)
    requires line != [] && b < |line| && b == (if ahead == 0 then 0 else ahead - 1) && ReadyOrKilled(pcbs, line)
    requires pcbs[line[0].data].state == KILLED
    requires after == line[1..][..b] + WaiterEntry(pcbs, line[0].data) + line[1..][b..]
    requires Choice(Cleaned(pcbs, line[0].data), after, b + |WaiterEntry(pcbs, line[0].data)|, n, picked)
    ensures Choice(pcbs, line, ahead, n + 1, picked)
    ensures CleanedAll(pcbs, line[..n + 1]) == CleanedAll(Cleaned(pcbs, line[0].data), after[..n])
    ensures line[..n + 1][1..] == after[..n]
  {
    if Waiter(pcbs, line[0].data) < |pcbs| {
      ChoiceWoken(pcbs, line, ahead, b, after, n, picked);
    } else {
      assert after == line[1..];
      ChoiceQuiet(pcbs, line, ahead, n, picked);
    }
    CleanedOn(pcbs, line, after, n);
  }

  lemma CleanedOn(pcbs: seq<Pcb>, line: seq<Entry>, after: seq<Entry>, n: nat)
    requires n < |line| && n <= |after| && after[..n] == line[1..][..n] && line[0].data < |pcbs|
    ensures CleanedAll(pcbs, line[..n + 1]) == CleanedAll(Cleaned(pcbs, line[0].data), after[..n])
    ensures line[..n + 1][1..] == after[..n]
  {
    assert line[..n + 1][1..] == after[..n];
    WokenCons(pcbs, line[..n + 1]);
  }

  lemma LineStates(s: Kernel)
    requires Inv(s, {})
    ensures ReadyOrKilled(s.pcbs, Line(s.q.all))
  {
    forall k, i | 0 <= k < N_PRIORITIES && 0 <= i < |s.q.all[k].items| ensures ItemOk(s.pcbs, k, s.q.all[k].items[i]) {
      assert ItemsOk(s.pcbs, k, s.q.all[k].items);
    }
  }

  /** The dispatcher comes to the first of the line: it runs if it is ready, and is killed otherwise. */
  lemma HeadCases(s: Kernel)
    requires Inv(s, {}) && Dispatch(s).Ok?
    ensures Line(s.q.all) != [] && Line(s.q.all)[0].data < N_PCBS
    ensures var p, t := Line(s.q.all)[0].data, Dispatch(s).value;
            && (s.pcbs[p].state == READY || s.pcbs[p].state == KILLED)
            && (s.pcbs[p].state == READY ==> t.current == p && t.pcbs == s.pcbs[p := s.pcbs[p].(state := RUNNING)])
  {
    TakeReadyKeeps(s);
    LineHead(s.q.all);
  }

  /** The kernel after one pass over a killed process, from which dispatching goes on as before. */
  lemma DispatchPass(s: Kernel) returns (z: Kernel)
    requires Inv(s, {}) && Dispatch(s).Ok?
    requires Line(s.q.all) != [] && Line(s.q.all)[0].data < N_PCBS && s.pcbs[Line(s.q.all)[0].data].state == KILLED
    ensures Inv(z, {}) && Dispatch(s) == Dispatch(z) && KilledCount(z.pcbs) < KilledCount(s.pcbs)
    ensures var line, p := Line(s.q.all), Line(s.q.all)[0].data;
            && z.pcbs == Cleaned(s.pcbs, p)
            && Behind(s) < |line| && |z.q.all[0].items| == Behind(s) + |WaiterEntry(s.pcbs, p)|
            && Line(z.q.all) == line[1..][..Behind(s)] + WaiterEntry(s.pcbs, p) + line[1..][Behind(s)..]
  {
    TakeReadyKeeps(s);
    LineHead(s.q.all);
    var r := TakeReady(s).value;
    PassEffect(s);
    ZombifyLowersKilled(r);
    z := Zombify(r, r.current).value;
  }

  /**
   From `s` the dispatcher, having cleaned up the first `n` of the line, runs the process this leads to, and the
   table of `t` is that of the clean-up with this process running.
   */
  predicate Dispatched(s: Kernel, n: nat, t: Kernel)
    requires Shape(s) && Shape(t)
  {
    var line := Line(s.q.all);
    && Choice(s.pcbs, line, |s.q.all[0].items|, n, t.current)
    && var pcbs := CleanedAll(s.pcbs, line[..n]);
       t.current < |pcbs| && t.pcbs == pcbs[t.current := pcbs[t.current].(state := RUNNING)]
  }

  lemma ReadyDispatched(s: Kernel, t: Kernel)
    requires Shape(s) && Shape(t) && Line(s.q.all) != [] && Line(s.q.all)[0].data < N_PCBS
    requires var p := Line(s.q.all)[0].data;
             s.pcbs[p].state == READY && t.current == p && t.pcbs == s.pcbs[p := s.pcbs[p].(state := RUNNING)]
    ensures Dispatched(s, 0, t)
  {
    assert Line(s.q.all)[..0] == [];
  }

  lemma PassDispatched(s: Kernel, z: Kernel, n: nat, t: Kernel)
    requires Inv(s, {}) && Shape(z) && Shape(t) && Line(s.q.all) != [] && Behind(s) < |Line(s.q.all)|
    requires var line, p := Line(s.q.all), Line(s.q.all)[0].data;
             && p < N_PCBS && s.pcbs[p].state == KILLED && z.pcbs == Cleaned(s.pcbs, p)
             && |z.q.all[0].items| == Behind(s) + |WaiterEntry(s.pcbs, p)|
             && Line(z.q.all) == line[1..][..Behind(s)] + WaiterEntry(s.pcbs, p) + line[1..][Behind(s)..]
    requires Dispatched(z, n, t)
    ensures Dispatched(s, n + 1, t) && Line(s.q.all)[..n + 1][1..] == Line(z.q.all)[..n]
  {
    LineStates(s);
    ChoiceStep(s.pcbs, Line(s.q.all), |s.q.all[0].items|, Behind(s), Line(z.q.all), n, t.current);
  }

  /**
   The process picked, from the state in which the dispatcher starts alone: it is the first ready one in the
   line, unless cleaning up the `n` killed ones ahead of it wakes a parent, which comes after those on ready
   queue 0 and before all others.
   */
  lemma {:induction false} DispatchChoice(s: Kernel) returns (n: nat)
    requires Inv(s, {}) && Dispatch(s).Ok?
    ensures Dispatched(s, n, Dispatch(s).value)
    decreases KilledCount(s.pcbs)
  {
    HeadCases(s);
    if s.pcbs[Line(s.q.all)[0].data].state == READY {
      n := 0;
      ReadyDispatched(s, Dispatch(s).value);
    } else {
      var z := DispatchPass(s);
      n := DispatchChoice(z);
      PassDispatched(s, z, n, Dispatch(z).value);
      n := n + 1;
    }
  }

  // ---------- what dispatching leaves alone ----------

  /** The sleepers, the readers, the pending input and the clock are as before. */
  ghost predicate Undisturbed(s: Kernel, t: Kernel)
    requires Shape(s) && Shape(t)
  {
    && t.q.all[SLEEP] == s.q.all[SLEEP] && t.q.all[READING] == s.q.all[READING]
    && t.input == s.input && t.time == s.time
  }

  lemma ZombifyUndisturbed(s: Kernel, p: nat)
    requires Shape(s) && p < N_PCBS
    ensures var r := Zombify(s, p); r.Ok? ==> Undisturbed(s, r.value)
  {}

  lemma {:induction false} DispatchUndisturbed(s: Kernel)
    requires Shape(s)
    ensures var r := Dispatch(s); r.Ok? ==> Undisturbed(s, r.value)
    decreases KilledCount(s.pcbs)
  {
    var r := TakeReady(s);
    if r.Ok? && r.value.pcbs[r.value.current].state == KILLED {
      var z := Zombify(r.value, r.value.current);
      if z.Ok? {
        ZombifyUndisturbed(r.value, r.value.current);
        ZombifyLowersKilled(r.value);
        DispatchUndisturbed(z.value);
      }
    }
  }

  lemma RequeueUndisturbed(s: Kernel, prio: nat)
    requires Shape(s)
    ensures var r := Requeue(s, prio); r.Ok? ==> Undisturbed(s, r.value)
  {
    var t := Schedule(s, s.current, prio);
    if t.Ok? {
      DispatchUndisturbed(t.value);
    }
  }

  /** Blocking on a queue other than those of sleepers and readers. */
  lemma BlockUndisturbed(s: Kernel, k: nat, pcb: Pcb, key: nat)
    requires Shape(s) && k < N_QUEUES
    ensures var r := Block(s, k, pcb, key);
            r.Ok? ==>
              && r.value.input == s.input && r.value.time == s.time
              && (k != READING ==> r.value.q.all[READING] == s.q.all[READING])
              && (k == READING ==> r.value.q.all[READING] == Insert(s.q.all[READING], Entry(s.current, key)))
              && (k != SLEEP ==> r.value.q.all[SLEEP] == s.q.all[SLEEP])
              && (k == SLEEP ==> r.value.q.all[SLEEP] == Insert(s.q.all[SLEEP], Entry(s.current, key)))
  {
    var u := Checked(SetPcb(s, s.current, pcb), InsertTo(s.q, k, Entry(s.current, key)));
    if u.Ok? {
      DispatchUndisturbed(u.value);
    }
  }

  // ---------- the clock ----------

  function Woken(items: seq<Entry>): seq<Entry> {
    seq(|items|, i requires 0 <= i < |items| => Entry(items[i].data, 0))
  }

  predicate Sleeps(items: seq<Entry>, p: nat) {
    exists i :: 0 <= i < |items| && items[i].data == p
  }

  lemma DueFirst(items: seq<Entry>, time: nat)
    requires Sorted(items)
    ensures var i := Find(items, IfLeU, time);
            if items != [] && items[0].key <= time then i == 0 else i == |items|
  {}

  /**
   From `s` to `t` exactly the sleepers due by now went to the end of the first ready queue, in queue
   order, which is the order of wake time and then of going to sleep; the others, all of them later
   than now, stayed.
   */
  ghost predicate Woke(s: Kernel, t: Kernel)
    requires Shape(s) && Shape(t)
  {
    var items := s.q.all[SLEEP].items;
    var n := Place(items, UintAsc, s.time);
    && (forall i :: 0 <= i < n ==> items[i].key <= s.time)
    && (forall i :: n <= i < |items| ==> items[i].key > s.time)
    && t.q.all[SLEEP].items == items[n..]
    && t.q.all[0].items == s.q.all[0].items + Woken(items[..n])
    && (forall k :: 1 <= k < N_QUEUES && k != SLEEP ==> t.q.all[k] == s.q.all[k])
    && (forall p :: 0 <= p < N_PCBS ==> PcbWoken(s, t, n, p))
    && t.input == s.input && t.time == s.time && t.current == s.current
  }

  predicate PcbWoken(s: Kernel, t: Kernel, n: nat, p: nat)
    requires Shape(s) && Shape(t) && n <= |s.q.all[SLEEP].items| && p < N_PCBS
  {
    t.pcbs[p] == if Sleeps(s.q.all[SLEEP].items[..n], p) then s.pcbs[p].(state := READY) else s.pcbs[p]
  }

  /** One sleeper woken, then the rest. */
  lemma WokeStep(s: Kernel, b: Kernel, t: Kernel)
    requires Shape(s) && Shape(b) && Shape(t) && Woke(b, t)
    requires s.q.all[SLEEP].items != [] && s.q.all[SLEEP].items[0].key <= s.time
    requires var p := s.q.all[SLEEP].items[0].data;
             && p < N_PCBS && b.pcbs == s.pcbs[p := s.pcbs[p].(state := READY)]
             && b.q.all[0].items == s.q.all[0].items + [Entry(p, 0)]
    requires b.q.all[SLEEP].items == s.q.all[SLEEP].items[1..]
    requires forall k :: 1 <= k < N_QUEUES && k != SLEEP ==> b.q.all[k] == s.q.all[k]
    requires b.input == s.input && b.time == s.time && b.current == s.current
    ensures Woke(s, t)
  {
    var items, p := s.q.all[SLEEP].items, s.q.all[SLEEP].items[0].data;
    var n, m := Place(items, UintAsc, s.time), Place(items[1..], UintAsc, s.time);
    assert n == m + 1;
    assert items[..n] == [items[0]] + items[1..][..m];
    assert Woken(items[..n]) == [Entry(p, 0)] + Woken(items[1..][..m]);
    assert items[1..][m..] == items[n..];
    forall i | n <= i < |items| ensures items[i].key > s.time {
      assert items[1..][i - 1].key > s.time;
    }
    forall r | 0 <= r < N_PCBS ensures PcbWoken(s, t, n, r) {
      assert PcbWoken(b, t, m, r);
      SleepsCons(items, n, r);
    }
  }

  lemma NoneWoken(s: Kernel)
    requires Shape(s) && Sorted(s.q.all[SLEEP].items)
    requires s.q.all[SLEEP].items != [] ==> s.q.all[SLEEP].items[0].key > s.time
    ensures Woke(s, s)
  {
    var items := s.q.all[SLEEP].items;
    assert Place(items, UintAsc, s.time) == 0;
    assert items[..0] == [] && items[0..] == items;
    assert s.q.all[0].items + Woken(items[..0]) == s.q.all[0].items;
  }

  lemma {:induction false} WakeSleepersExactly(s: Kernel)
    requires Good(s) && Sorted(s.q.all[SLEEP].items)
    ensures WakeSleepers(s).Ok? && Woke(s, WakeSleepers(s).value)
    decreases |s.q.all[SLEEP].items|
  {
    WakeSleepersKeeps(s);
    var items := s.q.all[SLEEP].items;
    assert (s.q.all[SLEEP].compare, s.q.all[SLEEP].remover) == QueueKind(SLEEP);
    DueFirst(items, s.time);
    if items != [] && items[0].key <= s.time {
      var b := WakeFirst(s);
      SuffixSorted(items, 1);
      WakeSleepersExactly(b);
      WokeStep(s, b, WakeSleepers(b).value);
    } else {
      NoneWoken(s);
    }
  }

  /** The kernel after the first due sleeper is woken. */
  lemma WakeFirst(s: Kernel) returns (b: Kernel)
    requires Good(s) && Sorted(s.q.all[SLEEP].items)
    requires s.q.all[SLEEP].items != [] && s.q.all[SLEEP].items[0].key <= s.time
    ensures Good(b) && WakeSleepers(s) == WakeSleepers(b)
    ensures var p := s.q.all[SLEEP].items[0].data;
            && p < N_PCBS && b.pcbs == s.pcbs[p := s.pcbs[p].(state := READY)]
            && b.q.all[0].items == s.q.all[0].items + [Entry(p, 0)]
    ensures b.q.all[SLEEP].items == s.q.all[SLEEP].items[1..]
    ensures forall k :: 1 <= k < N_QUEUES && k != SLEEP ==> b.q.all[k] == s.q.all[k]
    ensures b.input == s.input && b.time == s.time && b.current == s.current
  {
    var items := s.q.all[SLEEP].items;
    var p := items[0].data;
    assert (s.q.all[SLEEP].compare, s.q.all[SLEEP].remover) == QueueKind(SLEEP);
    DueFirst(items, s.time);
    TakeInv(s, {s.current}, SLEEP, 0);
    var a := s.(q := RemoveIndex(s.q, SLEEP, 0));
    ScheduleKeeps(a, {s.current} + {p}, p, PRIO_MAXIMUM);
    assert {s.current} + {p} - {p} == {s.current};
    b := Schedule(a, p, PRIO_MAXIMUM).value;
  }

  lemma SleepsCons(items: seq<Entry>, n: nat, p: nat)
    requires 0 < n <= |items|
    ensures Sleeps(items[..n], p) <==> items[0].data == p || Sleeps(items[1..][..n - 1], p)
  {
    var all, rest := items[..n], items[1..][..n - 1];
    if Sleeps(all, p) && items[0].data != p {
      var i :| 0 <= i < |all| && all[i].data == p;
      assert rest[i - 1].data == p;
    }
    if Sleeps(rest, p) {
      var i :| 0 <= i < |rest| && rest[i].data == p;
      assert all[i + 1].data == p;
    }
    assert all[0] == items[0];
  }

  /** After a whole tick the sleepers left are exactly those later than the new time, still in order. */
  lemma TickedSleepers(s: Kernel, later: nat)
    requires Good(s) && Sorted(s.q.all[SLEEP].items) && Tick(s).Ok? && later == Add32(s.time, 1)
    ensures var t, items := Tick(s).value, s.q.all[SLEEP].items;
            && t.time == later
            && t.q.all[SLEEP].items == items[Place(items, UintAsc, later)..]
            && (forall i :: 0 <= i < |t.q.all[SLEEP].items| ==> t.q.all[SLEEP].items[i].key > later)
            && Sorted(t.q.all[SLEEP].items)
            && t.q.all[READING] == s.q.all[READING] && t.input == s.input
  {
    var a := s.(time := later);
    ClockInv(s, later);
    WakeSleepersExactly(a);
    var u := WakeSleepers(a).value;
    RequeueUndisturbed(u, u.pcbs[u.current].prio);
    SuffixSorted(s.q.all[SLEEP].items, Place(s.q.all[SLEEP].items, UintAsc, later));
  }

  lemma SuffixSorted(items: seq<Entry>, n: nat)
    requires Sorted(items) && n <= |items|
    ensures Sorted(items[n..])
  {}

  // ---------- orderly sleepers and readers in every reachable state ----------

  /** Sleepers are in wake-up order, and nobody waits for input while some is pending. */
  ghost predicate Orderly(s: Kernel)
    requires Shape(s)
  {
    Sorted(s.q.all[SLEEP].items) && (s.q.all[READING].items != [] ==> s.input == 0)
  }

  lemma StepOrderly(s: Kernel, e: Event)
    requires Good(s) && Orderly(s)
    ensures var r := Step(s, e); r.Ok? ==> Orderly(r.value)
  {
    var pcb := s.pcbs[s.current];
    match e
    case ForkCall => ForkOrderly(s);
    case ExecCall(prio) => RequeueUndisturbed(SetPcb(s, s.current, pcb.(prio := prio % 256)), prio % 256);
    case SleepCall(ticks) => SleepOrderly(s, ticks);
    case ReadcCall => ReadcOrderly(s);
    case WaitCall(target) => WaitOrderly(s, target);
    case ExitCall => ExitOrderly(s);
    case KillCall(pid) => KillOrderly(s, pid);
    case SetPrioCall(prio) =>
    case SetTimeCall(time) =>
    case ClockTick =>
      if Tick(s).Ok? {
        TickedSleepers(s, Add32(s.time, 1));
      }
    case SerialChar => SerialOrderly(s);
  }

  lemma ForkOrderly(s: Kernel)
    requires Good(s) && Orderly(s)
    ensures var r := Fork(s); r.Ok? ==> Orderly(r.value)
  {}

  lemma SleepOrderly(s: Kernel, ticks: nat)
    requires Good(s) && Orderly(s)
    ensures var r := Sleep(s, ticks); r.Ok? ==> Orderly(r.value)
  {
    var pcb, key := s.pcbs[s.current].(state := SLEEPING), Add32(s.time, ticks);
    assert (s.q.all[SLEEP].compare, s.q.all[SLEEP].remover) == QueueKind(SLEEP);
    BlockKeeps(s, SLEEP, pcb, key);
    BlockUndisturbed(s, SLEEP, pcb, key);
    InsertIsStable(s.q.all[SLEEP], Entry(s.current, key), 0);
  }

  lemma ReadcOrderly(s: Kernel)
    requires Good(s) && Orderly(s)
    ensures var r := Readc(s); r.Ok? ==> Orderly(r.value)
  {
    if s.input == 0 {
      BlockUndisturbed(s, READING, s.pcbs[s.current], s.pcbs[s.current].pid);
    }
  }

  lemma WaitOrderly(s: Kernel, target: nat)
    requires Good(s) && Orderly(s)
    ensures var r := Wait(s, target); r.Ok? ==> Orderly(r.value)
  {
    var p := if target > 0 then PcbFind(s.pcbs, target) else AnyChild(s);
    if p < N_PCBS {
      if s.pcbs[p].state == ZOMBIE {
        ReapUndisturbed(s, s.pcbs[p].pid);
      } else {
        BlockUndisturbed(s, WAITING_Q, s.pcbs[s.current].(state := WAITING, waitFor := target), s.pcbs[s.current].pid);
      }
    }
  }

  lemma ReapUndisturbed(s: Kernel, pid: nat)
    requires Shape(s)
    ensures var r := Reap(s, pid); r.Ok? ==> Undisturbed(s, r.value)
  {}

  lemma ExitOrderly(s: Kernel)
    requires Good(s) && Orderly(s)
    ensures var r := Exit(s); r.Ok? ==> Orderly(r.value)
  {
    var t := s.(pcbs := Reparent(s.pcbs, s.pcbs[s.current].pid));
    var u := Zombify(t, t.current);
    ZombifyUndisturbed(t, t.current);
    if u.Ok? {
      DispatchUndisturbed(u.value);
    }
  }

  lemma KillOrderly(s: Kernel, pid: nat)
    requires Good(s) && Orderly(s)
    ensures var r := Kill(s, pid); r.Ok? ==> Orderly(r.value)
  {
    var p := PcbFind(s.pcbs, pid);
    if p < N_PCBS {
      RequeueUndisturbed(SetState(s, p, KILLED), s.pcbs[p].prio);
    }
  }

  lemma SerialOrderly(s: Kernel)
    requires Good(s) && Orderly(s)
    ensures var r := SerialInput(s); r.Ok? ==> Orderly(r.value)
  {}

  lemma {:induction false} RunOrderly(s: Kernel, events: seq<Event>)
    requires Good(s) && Orderly(s)
    ensures var r := Run(s, events); r.Ok? ==> Orderly(r.value)
    decreases |events|
  {
    if events != [] {
      StepKeeps(s, events[0]);
      StepOrderly(s, events[0]);
      var r := Step(s, events[0]);
      if r.Ok? {
        RunOrderly(r.value, events[1..]);
      }
    }
  }

  /** From boot: the sleep queue is always in wake-up order and no reader waits beside pending input. */
  lemma AlwaysOrderly(events: seq<Event>)
    ensures var r := Run(Initial(), events); r.Ok? ==> Orderly(r.value)
  {
    InitialGood();
    RunOrderly(Initial(), events);
  }

  // ---------- yield and kill ----------

  /** A yielding process is lost: it ends up on no queue, and is not the one that runs. */
  lemma YieldLosesCaller(s: Kernel)
    requires Good(s)
    ensures var r := Yield(s);
            r.Ok? ==> CountAll(r.value.q.all, PCB_AVAIL + 1, s.current) == 0 && r.value.current != s.current
  {
    DispatchLeavesOut(s, s.current);
  }

  /** Dispatching, started with an extra process `lost` in hand, leaves it there. */
  lemma {:induction false} DispatchLeavesOut(s: Kernel, lost: nat)
    requires Inv(s, {lost}) && s.pcbs[lost].state == RUNNING
    ensures var r := Dispatch(s); r.Ok? ==> CountAll(r.value.q.all, PCB_AVAIL + 1, lost) == 0 && r.value.current != lost
    decreases KilledCount(s.pcbs)
  {
    var i := FirstReady(s.q.all);
    if i < N_PRIORITIES {
      TakeInv(s, {lost}, i, 0);
      var t := TakeReady(s).value;
      assert OnePlace(t.q.all, {lost} + {t.current}, lost);
      if t.pcbs[t.current].state == KILLED {
        ZombifyBeside(t, lost);
        if Zombify(t, t.current).Ok? {
          ZombifyLowersKilled(t);
          DispatchLeavesOut(Zombify(t, t.current).value, lost);
        }
      }
    }
  }

  lemma ZombifyBeside(t: Kernel, lost: nat)
    requires Inv(t, {lost} + {t.current}) && lost != t.current
    requires t.pcbs[t.current].state == KILLED && t.pcbs[lost].state == RUNNING
    ensures var r := Zombify(t, t.current); r.Ok? ==> Inv(r.value, {lost}) && r.value.pcbs[lost].state == RUNNING
  {
    var p, hand := t.current, {lost} + {t.current};
    var parent := PcbFind(t.pcbs, t.pcbs[p].ppid);
    if parent < N_PCBS {
      if t.pcbs[parent].state == WAITING
         && (t.pcbs[parent].waitFor == 0 || t.pcbs[parent].waitFor == t.pcbs[p].pid) {
        WakeBeside(t, lost, parent);
      } else {
        ChangeInv(t, hand, p, t.pcbs[p].(state := ZOMBIE));
        InsertKeeps(SetState(t, p, ZOMBIE), hand, ZOMBIES, Entry(p, t.pcbs[p].pid));
        assert hand - {p} == {lost};
      }
    }
  }

  lemma WakeBeside(t: Kernel, lost: nat, parent: nat)
    requires Inv(t, {lost} + {t.current}) && lost != t.current && parent < N_PCBS
    requires t.pcbs[t.current].state == KILLED && t.pcbs[lost].state == RUNNING && t.pcbs[parent].state == WAITING
    ensures var r := WakeParent(t, t.current, t.pcbs[parent].pid);
            r.Ok? && Inv(r.value, {lost}) && r.value.pcbs[lost].state == RUNNING
  {
    var p, hand := t.current, {lost} + {t.current};
    var k, i := PlaceByState(t, hand, parent);
    FindByPid(t, hand, k, i);
    var j := Find(t.q.all[k].items, IfEqual, t.pcbs[parent].pid);
    TakeInv(t, hand, k, j);
    var u := t.(q := RemoveIndex(t.q, k, j));
    ReleaseInv(u, hand + {parent}, p);
    var b := PcbFree(StackFree(u, u.pcbs[p].stack).value, p).value;
    assert hand + {parent} - {p} == {lost} + {parent};
    ScheduleKeeps(b, {lost} + {parent}, parent, PRIO_MAXIMUM);
    assert {lost} + {parent} - {parent} == {lost};
  }

  /** A process that kills itself is merely requeued: `_schedule` overwrites the KILLED mark. */
  lemma SelfKillSurvives(s: Kernel)
    requires Good(s)
    ensures Kill(s, s.pcbs[s.current].pid) == Requeue(s, s.pcbs[s.current].prio)
  {
    var p := PcbFind(s.pcbs, s.pcbs[s.current].pid);
    assert p != s.current ==> PidsDiffer(s.pcbs, p, s.current);
    var killed := SetState(s, s.current, KILLED);
    var prio := s.pcbs[s.current].prio;
    assert SetState(killed, s.current, READY) == SetState(s, s.current, READY);
    assert Schedule(killed, s.current, prio) == Schedule(s, s.current, prio);
  }
}
