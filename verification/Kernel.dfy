/** The process table of the miniprocess kernel: fork, threads, exit, kill, wait and the round-robin scheduler. */
module Kernel {
  import opened Words

  datatype ProcState = Empty | Runnable | Blocked | Zombie

  /** The registers that the kernel itself reads or writes. */
  datatype Regs = Regs(eax: int, eip: nat, esp: nat)

  /** struct process; 'wait' is the process that waits for this one, 0 for none. */
  datatype Proc = Proc(pid: nat, wait: nat, regs: Regs, state: ProcState, status: int) {
    predicate Live() { state == Runnable || state == Blocked }
  }

  type Table = seq<Proc>

  /** Process b waits for process t. */
  predicate WaitsFor(ps: Table, b: nat, t: nat) {
    b != 0 && t < |ps| && ps[t].wait == b
  }

  /** A recorded waiter is a blocked process, other than the one waited for, which is alive. */
  ghost predicate Recorded(ps: Table) {
    forall b: nat, t: nat :: WaitsFor(ps, b, t) ==> ps[t].Live() && b != t && b < |ps| && ps[b].state == Blocked
  }

  /** Every blocked process is recorded somewhere. */
  ghost predicate Remembered(ps: Table) {
    forall b: nat :: b < |ps| && ps[b].state == Blocked ==> exists t: nat :: WaitsFor(ps, b, t)
  }

  /** No process is recorded twice. */
  ghost predicate RecordedOnce(ps: Table) {
    forall b: nat, t: nat, u: nat :: WaitsFor(ps, b, t) && WaitsFor(ps, b, u) ==> t == u
  }

  ghost predicate TableOk(ps: Table) {
    && |ps| >= 2 && ps[0].state == Empty
    && (forall i :: 0 <= i < |ps| ==> ps[i].pid == i)
    && Recorded(ps) && Remembered(ps) && RecordedOnce(ps)
  }

  // ----- the system calls, as functions on the table -----

  /** The registers with which a process trapped are kept in its slot. */
  function Saved(ps: Table, cur: nat, reg: Regs): Table
    requires cur < |ps|
  {
    ps[cur := ps[cur].(regs := reg)]
  }

  /** Process p ends with this status, and the process recorded as waiting for it may run again. */
  function Ended(ps: Table, p: nat, status: int): (r: Table)
    requires p < |ps|
    ensures |r| == |ps|
  {
    var w := ps[p].wait;
    var ps1 := ps[p := ps[p].(state := Zombie, status := status)];
    if 0 < w < |ps| then
      var ps2 := ps1[w := ps1[w].(state := Runnable)];
      ps2[p := ps2[p].(wait := 0)]
    else ps1
  }

  /** Process cur waits for process p, or takes over its exit status, or gets an error. */
  function Waited(ps: Table, cur: nat, p: int): (r: Table)
    requires cur < |ps|
    ensures |r| == |ps|
  {
    if p <= 0 || p >= |ps| || p == cur || ps[p].state == Empty then
      ps[cur := ps[cur].(regs := ps[cur].regs.(eax := -1))]
    else if ps[p].state == Zombie then
      ps[cur := ps[cur].(regs := ps[cur].regs.(eax := ps[p].status))][p := ps[p].(state := Empty)]
    else
      ps[cur := ps[cur].(state := Blocked)][p := ps[p].(wait := cur)]
  }

  /** What sys_kill does to the table. */
  function Killed(ps: Table, p: int): (r: Table)
    ensures |r| == |ps|
  {
    if 0 < p < |ps| && ps[p].state != Empty then Ended(ps, p, 5) else ps
  }

  // ----- what each of them keeps -----

  /** An empty or ended process has no waiter. */
  lemma NoWaiter(ps: Table, t: nat)
    requires TableOk(ps) && t < |ps|
    ensures !ps[t].Live() ==> ps[t].wait == 0
  {
    assert ps[t].wait != 0 ==> WaitsFor(ps, ps[t].wait, t);
  }

  /** The same processes wait for the same processes. */
  lemma SameWaiters(ps: Table, ps': Table)
    requires TableOk(ps) && |ps'| == |ps|
    requires forall i :: 0 <= i < |ps| ==> ps'[i].pid == i && ps'[i].wait == ps[i].wait
    requires forall i :: 0 <= i < |ps| ==> (ps'[i].state == Blocked <==> ps[i].state == Blocked) && (ps[i].Live() ==> ps'[i].Live())
    requires ps'[0].state == Empty
    ensures TableOk(ps')
  {
    forall b: nat, t: nat
      ensures WaitsFor(ps', b, t) <==> WaitsFor(ps, b, t)
    {
    }
  }

  lemma SavedKeeps(ps: Table, cur: nat, reg: Regs)
    requires TableOk(ps) && cur < |ps|
    ensures TableOk(Saved(ps, cur, reg))
  {
    SameWaiters(ps, Saved(ps, cur, reg));
  }

  /** The table after a process ended, slot by slot: the process is a zombie, its waiter is runnable, the rest is as before. */
  lemma EndedAt(ps: Table, p: nat, status: int, i: nat)
    requires p < |ps| && i < |ps| && (ps[p].wait != 0 ==> ps[p].wait != p && ps[p].wait < |ps|)
    ensures Ended(ps, p, status)[i] ==
              if i == p then ps[p].(state := Zombie, status := status, wait := 0)
              else if i == ps[p].wait && i != 0 then ps[i].(state := Runnable)
              else ps[i]
  {
  }

  lemma WaiterIs(ps: Table, p: nat)
    requires TableOk(ps) && p < |ps|
    ensures ps[p].wait != 0 ==> ps[p].wait != p && ps[p].wait < |ps| && ps[ps[p].wait].state == Blocked && WaitsFor(ps, ps[p].wait, p)
  {
    assert ps[p].wait != 0 ==> WaitsFor(ps, ps[p].wait, p);
  }

  /** A process that is not itself blocked can end without breaking the bookkeeping. */
  lemma EndedKeeps(ps: Table, p: nat, status: int)
    requires TableOk(ps) && 0 < p < |ps| && ps[p].state != Empty && ps[p].state != Blocked
    ensures TableOk(Ended(ps, p, status))
  {
    hide Ended;
    var ps', w := Ended(ps, p, status), ps[p].wait;
    WaiterIs(ps, p);
    forall i | 0 <= i < |ps|
      ensures ps'[i].pid == i && ps'[i].wait == (if i == p then 0 else ps[i].wait)
      ensures ps'[i].state == if i == p then Zombie else if i == w && i != 0 then Runnable else ps[i].state
    {
      EndedAt(ps, p, status, i);
    }
    forall b: nat, t: nat
      ensures WaitsFor(ps', b, t) <==> WaitsFor(ps, b, t) && t != p
    {
    }
    forall b: nat | b < |ps'| && ps'[b].state == Blocked
      ensures exists t: nat :: WaitsFor(ps', b, t)
    {
      var t: nat :| WaitsFor(ps, b, t);
      assert WaitsFor(ps', b, t);
    }
  }

  lemma BlockedCannotEnd(ps: Table, p: nat, status: int)
    requires TableOk(ps) && 0 < p < |ps| && ps[p].state == Blocked
    ensures !TableOk(Ended(ps, p, status))
  {
    hide Ended;
    var t: nat :| WaitsFor(ps, p, t);
    var ps' := Ended(ps, p, status);
    WaiterIs(ps, p);
    EndedAt(ps, p, status, t);
    EndedAt(ps, p, status, p);
    assert WaitsFor(ps', p, t);
  }

  /** Killing keeps the bookkeeping exactly when the victim is not blocked. */
  lemma KilledKeepsIff(ps: Table, p: int)
    requires TableOk(ps)
    ensures TableOk(Killed(ps, p)) <==> !(0 < p < |ps| && ps[p].state == Blocked)
  {
    if 0 < p < |ps| && ps[p].state == Blocked {
      BlockedCannotEnd(ps, p, 5);
    } else if 0 < p < |ps| && ps[p].state != Empty {
      EndedKeeps(ps, p, 5);
    }
  }

  /** Waiting keeps the bookkeeping exactly when it does not overwrite another waiter. */
  lemma WaitedKeepsIff(ps: Table, cur: nat, p: int)
    requires TableOk(ps) && cur < |ps| && ps[cur].state == Runnable
    ensures TableOk(Waited(ps, cur, p)) <==> !(0 < p < |ps| && p != cur && ps[p].Live() && ps[p].wait != 0)
  {
    if 0 < p < |ps| && p != cur && ps[p].Live() {
      BlocksOnKeepsIff(ps, cur, p);
    } else {
      if 0 < p < |ps| { NoWaiter(ps, p); }
      SameWaiters(ps, Waited(ps, cur, p));
    }
  }

  lemma BlocksOnKeepsIff(ps: Table, cur: nat, p: nat)
    requires TableOk(ps) && cur < |ps| && ps[cur].state == Runnable && 0 < p < |ps| && p != cur && ps[p].Live()
    ensures TableOk(Waited(ps, cur, p)) <==> ps[p].wait == 0
  {
    var ps' := Waited(ps, cur, p);
    forall b: nat, t: nat
      ensures WaitsFor(ps', b, t) <==> if t == p then b == cur else WaitsFor(ps, b, t)
    {
    }
    if ps[p].wait == 0 {
      assert WaitsFor(ps', cur, p);
      forall b: nat | b < |ps'| && ps'[b].state == Blocked && b != cur
        ensures exists t: nat :: WaitsFor(ps', b, t)
      {
        var t: nat :| WaitsFor(ps, b, t);
        assert WaitsFor(ps', b, t);
      }
      assert forall t: nat :: !WaitsFor(ps, cur, t);
    } else {
      var w := ps[p].wait;
      WaiterIs(ps, p);
      assert ps'[w].state == Blocked && w != cur;
      assert forall t: nat :: WaitsFor(ps, w, t) ==> t == p;
    }
  }

  // ----- deadlock -----

  ghost predicate Ranked(ps: Table, rank: seq<nat>) {
    |rank| == |ps| && forall b: nat, t: nat :: WaitsFor(ps, b, t) && b < |ps| ==> rank[b] > rank[t]
  }

  /** No process waits, directly or through others, for itself. */
  ghost predicate Acyclic(ps: Table) {
    exists rank :: Ranked(ps, rank)
  }

  /** In an acyclic table with any live process at all, some process can run. */
  lemma {:induction false} SomeoneCanRun(ps: Table, rank: seq<nat>, i: nat)
    requires TableOk(ps) && Ranked(ps, rank) && i < |ps| && ps[i].Live()
    ensures exists r :: 0 <= r < |ps| && ps[r].state == Runnable
    decreases rank[i]
  {
    if ps[i].state == Blocked {
      var t: nat :| WaitsFor(ps, i, t);
      SomeoneCanRun(ps, rank, t);
    }
  }

  ghost predicate Path(ps: Table, path: seq<nat>) {
    && |path| > 0 && (forall i :: 0 <= i < |path| ==> path[i] < |ps|)
    && forall i :: 0 <= i < |path| - 1 ==> WaitsFor(ps, path[i], path[i + 1])
  }

  /** Process x waits, directly or through others, for process y, or is y. */
  ghost predicate Leads(ps: Table, x: nat, y: nat) {
    exists path :: Path(ps, path) && path[0] == x && path[|path| - 1] == y
  }

  lemma {:induction false} RankAlongPath(ps: Table, rank: seq<nat>, path: seq<nat>)
    requires Ranked(ps, rank) && Path(ps, path)
    ensures rank[path[0]] >= rank[path[|path| - 1]]
    decreases |path|
  {
    if |path| > 1 {
      assert WaitsFor(ps, path[0], path[1]);
      assert Path(ps, path[1..]);
      RankAlongPath(ps, rank, path[1..]);
    }
  }

  /** Who waits for whom after a wait that blocks. */
  lemma WaitAddsOneEdge(ps: Table, cur: nat, p: nat)
    requires cur < |ps| && 0 < cur && 0 < p < |ps| && p != cur && ps[p].Live()
    ensures forall b: nat, t: nat :: WaitsFor(Waited(ps, cur, p), b, t) <==> if t == p then b == cur else WaitsFor(ps, b, t)
  {
  }

  /** A wait that blocks keeps the table acyclic exactly when the process waited for does not already wait for the waiter. */
  lemma WaitKeepsAcyclicIff(ps: Table, cur: nat, p: nat)
    requires TableOk(ps) && Acyclic(ps) && 0 < cur < |ps| && ps[cur].state == Runnable
    requires 0 < p < |ps| && p != cur && ps[p].Live() && ps[p].wait == 0
    ensures Acyclic(Waited(ps, cur, p)) <==> !Leads(ps, p, cur)
  {
    var ps' := Waited(ps, cur, p);
    WaitAddsOneEdge(ps, cur, p);
    if Leads(ps, p, cur) {
      var path :| Path(ps, path) && path[0] == p && path[|path| - 1] == cur;
      NewCycle(ps, cur, p, path);
    } else {
      var rank :| Ranked(ps, rank);
      NewRank(ps, cur, p, rank);
    }
  }

  lemma NewCycle(ps: Table, cur: nat, p: nat, path: seq<nat>)
    requires 0 < cur < |ps| && 0 < p < |ps| && p != cur && ps[p].Live() && ps[p].wait == 0
    requires Path(ps, path) && path[0] == p && path[|path| - 1] == cur
    ensures !Acyclic(Waited(ps, cur, p))
  {
    var ps' := Waited(ps, cur, p);
    WaitAddsOneEdge(ps, cur, p);
    assert WaitsFor(ps', cur, p);
    if Acyclic(ps') {
      var rank :| Ranked(ps', rank);
      forall i | 0 <= i < |path| - 1
        ensures WaitsFor(ps', path[i], path[i + 1])
      {
        assert WaitsFor(ps, path[i], path[i + 1]);
      }
      RankAlongPath(ps', rank, path);
    }
  }

  lemma NewRank(ps: Table, cur: nat, p: nat, rank: seq<nat>)
    requires 0 < cur < |ps| && 0 < p < |ps| && p != cur && ps[p].Live() && Ranked(ps, rank) && !Leads(ps, p, cur)
    ensures Acyclic(Waited(ps, cur, p))
  {
    var ps' := Waited(ps, cur, p);
    WaitAddsOneEdge(ps, cur, p);
    var rank' := seq(|ps|, i requires 0 <= i < |ps| => rank[i] + if Leads(ps, i, cur) then rank[p] + 1 else 0);
    forall b: nat, t: nat | WaitsFor(ps', b, t) && b < |ps|
      ensures rank'[b] > rank'[t]
    {
      if t == p {
        assert Path(ps, [cur]);
      } else if Leads(ps, t, cur) {
        var path :| Path(ps, path) && path[0] == t && path[|path| - 1] == cur;
        assert Path(ps, [b] + path);
      }
    }
    assert Ranked(ps', rank');
  }

  /** Every other step only removes waiters, so it cannot make a cycle. */
  lemma FewerWaitersAcyclic(ps: Table, ps': Table)
    requires Acyclic(ps) && |ps'| == |ps| && forall t :: 0 <= t < |ps| ==> ps'[t].wait == ps[t].wait || ps'[t].wait == 0
    ensures Acyclic(ps')
  {
    var rank :| Ranked(ps, rank);
    forall b: nat, t: nat | WaitsFor(ps', b, t) && b < |ps|
      ensures rank[b] > rank[t]
    {
      assert WaitsFor(ps, b, t);
    }
    assert Ranked(ps', rank);
  }

  // ----- round robin -----

  /** How many steps from slot 'cur' the slot x is reached, going round the table: 1 for the next, n for 'cur' itself. */
  function Distance(cur: nat, x: nat, n: nat): int {
    if x > cur then x - cur else x - cur + n
  }

  /** q is the first runnable process after 'cur', going round. */
  ghost predicate Picks(ps: Table, cur: nat, q: nat) {
    && q < |ps| && ps[q].state == Runnable
    && forall x :: 0 <= x < |ps| && Distance(cur, x, |ps|) < Distance(cur, q, |ps|) ==> ps[x].state != Runnable
  }

  /** Each pick of another process brings a runnable process nearer. */
  lemma PickApproaches(ps: Table, cur: nat, q: nat, x: nat)
    requires cur < |ps| && x < |ps| && ps[x].state == Runnable && Picks(ps, cur, q) && q != x
    ensures Distance(q, x, |ps|) < Distance(cur, x, |ps|)
  {
  }

  /**
   * Round robin is fair: however the table changes between calls of schedule, a process that is runnable at each of
   * them is picked within as many calls as the table has slots.
   */
  lemma {:induction false} PickedInTime(tables: seq<Table>, picks: seq<nat>, x: nat, n: nat, k: nat)
    requires |picks| == |tables| + 1 && x < n && k <= |tables| && picks[0] < n
    requires forall i :: 0 <= i < |tables| ==>
               |tables[i]| == n && tables[i][x].state == Runnable && Picks(tables[i], picks[i], picks[i + 1])
    requires forall i :: 0 < i <= k ==> picks[i] != x
    ensures k <= Distance(picks[0], x, n) - Distance(picks[k], x, n) < n && picks[k] < n
  {
    if k > 0 {
      PickedInTime(tables, picks, x, n, k - 1);
      PickApproaches(tables[k - 1], picks[k - 1], picks[k], x);
    }
  }

  lemma RoundRobinIsFair(tables: seq<Table>, picks: seq<nat>, x: nat, n: nat)
    requires |picks| == |tables| + 1 && x < n == |tables| && picks[0] < n
    requires forall i :: 0 <= i < |tables| ==>
               |tables[i]| == n && tables[i][x].state == Runnable && Picks(tables[i], picks[i], picks[i + 1])
    ensures exists i :: 0 < i <= n && picks[i] == x
  {
    if forall i :: 0 < i <= n ==> picks[i] != x {
      PickedInTime(tables, picks, x, n, n);
    }
  }

  // ----- stacks -----

  const PROC1_STACK_ADDR: nat := 0x280000
  const PROC_STACK_SIZE: nat := 0x040000

  function Top(pid: nat): nat { PROC1_STACK_ADDR + pid * PROC_STACK_SIZE }
  function Bottom(pid: nat): int { Top(pid) - PROC_STACK_SIZE }

  /** Every live process has its stack pointer in its own stack region. */
  ghost predicate StacksOk(ps: Table) {
    forall i :: 0 <= i < |ps| && ps[i].Live() ==> Bottom(i) <= ps[i].regs.esp <= Top(i)
  }

  lemma RegionsApart(i: nat, j: nat)
    requires i < j
    ensures Top(i) <= Bottom(j)
  {
    assert (j - i) * PROC_STACK_SIZE >= PROC_STACK_SIZE;
  }

  /** Memory is the same outside the stack region of slot p. */
  ghost predicate OutsideSame(mem: seq<byte>, mem': seq<byte>, p: nat) {
    |mem'| == |mem| && forall x :: 0 <= x < |mem| && !(Bottom(p) <= x < Top(p)) ==> mem'[x] == mem[x]
  }

  /** The child of a fork: the parent's registers, but 0 as result, and the stack pointer moved to the child's region. */
  function Child(ps: Table, cur: nat, slot: nat): Proc
    requires cur < |ps| && slot < |ps| && Bottom(cur) <= ps[cur].regs.esp <= Top(cur)
  {
    Proc(ps[slot].pid, ps[slot].wait, Regs(0, ps[cur].regs.eip, Top(slot) - (Top(cur) - ps[cur].regs.esp)), Runnable, ps[slot].status)
  }

  /** The first empty slot from 1 on. */
  ghost predicate FirstEmpty(ps: Table, slot: nat) {
    1 <= slot < |ps| && ps[slot].state == Empty && forall i :: 1 <= i < slot ==> ps[i].state != Empty
  }

  ghost predicate TableFull(ps: Table) { forall i :: 1 <= i < |ps| ==> ps[i].state != Empty }

  /** A new process in an empty slot, and the slot's number as result of the call. */
  function Spawned(ps: Table, cur: nat, slot: nat, child: Proc): (r: Table)
    requires cur < |ps| && slot < |ps|
    ensures |r| == |ps|
  {
    ps[slot := child][cur := ps[cur].(regs := ps[cur].regs.(eax := slot))]
  }

  /** What a call of fork or newthread keeps: the bookkeeping, the stacks, and the absence of deadlock. */
  lemma SpawnedKeeps(ps: Table, cur: nat, slot: nat, child: Proc)
    requires TableOk(ps) && StacksOk(ps) && cur < |ps| && ps[cur].state == Runnable && FirstEmpty(ps, slot)
    requires child.pid == slot && child.wait == ps[slot].wait && child.state == Runnable && Bottom(slot) <= child.regs.esp <= Top(slot)
    ensures TableOk(Spawned(ps, cur, slot, child)) && StacksOk(Spawned(ps, cur, slot, child))
    ensures Acyclic(ps) ==> Acyclic(Spawned(ps, cur, slot, child))
  {
    NoWaiter(ps, slot);
    SameWaiters(ps, Spawned(ps, cur, slot, child));
    if Acyclic(ps) { FewerWaitersAcyclic(ps, Spawned(ps, cur, slot, child)); }
  }

  class Kernel {
    const nprocs: nat
    const procs: array<Proc>
    const mem: array<byte>
    var current: nat

    /** The kernel's own invariant; the running process is the one that makes system calls. */
    ghost predicate Valid()
      reads this, procs
    {
      && procs.Length == nprocs && mem.Length >= Top(nprocs)
      && TableOk(procs[..]) && StacksOk(procs[..]) && current < nprocs
    }

    ghost predicate Running()
      reads this, procs
    {
      Valid() && procs[current].state == Runnable
    }

    /** The kernel's start: every slot empty but slot 1, which runs the application. */
    constructor (n: nat, memory: array<byte>, entry: nat)
      requires n >= 2 && memory.Length >= Top(n)
      ensures Running() && nprocs == n && mem == memory && current == 1 && fresh(procs) && Acyclic(procs[..])
      ensures procs[1].regs == Regs(0, entry, 0x2c0000) && forall i :: 0 <= i < n && i != 1 ==> procs[i].state == Empty
    {
      nprocs := n;
      mem := memory;
      procs := new Proc[n](i requires i >= 0 => Proc(i, 0, Regs(0, 0, 0), Empty, 0));
      current := 1;
      new;
      procs[1] := Proc(1, 0, Regs(0, entry, Top(1)), Runnable, 0);
      assert forall t: nat :: t < n ==> procs[..][t].wait == 0;
      assert Ranked(procs[..], seq(n, _ => 0));
    }

    /** schedule: runs the next runnable process, or spins for ever when there is none. */
    method Schedule() returns (spins: bool)
      requires procs.Length == nprocs && current < nprocs
      modifies `current
      ensures spins ==> current == old(current) && forall i :: 0 <= i < nprocs ==> procs[i].state != Runnable
      ensures !spins ==> Picks(procs[..], old(current), current)
    {
      ghost var cur := current;
      var pid := current;
      var rounds := 0;
      while rounds < nprocs
        invariant 0 <= rounds <= nprocs && pid < nprocs && current == cur
        invariant pid == if cur + rounds < nprocs then cur + rounds else cur + rounds - nprocs
        invariant forall x :: 0 <= x < nprocs && Distance(cur, x, nprocs) <= rounds ==> procs[x].state != Runnable
      {
        pid := if pid + 1 == nprocs then 0 else pid + 1;
        if procs[pid].state == Runnable {
          current := pid;
          return false;
        }
        rounds := rounds + 1;
      }
      spins := true;
    }

    /** Every system call starts by saving the registers; the user program keeps its stack pointer in its own region. */
    method Save(reg: Regs)
      requires Running() && Bottom(current) <= reg.esp <= Top(current)
      modifies procs
      ensures Running() && procs[..] == Saved(old(procs[..]), current, reg)
      ensures Acyclic(old(procs[..])) ==> Acyclic(procs[..])
    {
      ghost var ps := procs[..];
      procs[current] := procs[current].(regs := reg);
      assert procs[..] == Saved(ps, current, reg);
      SavedKeeps(ps, current, reg);
      if Acyclic(ps) { FewerWaitersAcyclic(ps, procs[..]); }
    }

    /** Looks for an unused slot from 1 on, as fork and newthread do; the number of slots if there is none. */
    method FindEmpty() returns (pid: nat)
      requires Valid()
      ensures 1 <= pid <= nprocs
      ensures if pid == nprocs then TableFull(procs[..]) else FirstEmpty(procs[..], pid)
    {
      pid := 1;
      while pid < nprocs
        invariant 1 <= pid <= nprocs && forall i :: 1 <= i < pid ==> procs[i].state != Empty
      {
        if procs[pid].state == Empty {
          return;
        }
        pid := pid + 1;
      }
    }

    /** memcpy of the used part of the parent's stack into the child's region, at the same distance from the top */
    method CopyStack(dest: nat, src: nat, esp: nat)
      requires 1 <= dest < nprocs && 1 <= src < nprocs && dest != src && mem.Length >= Top(nprocs) && Bottom(src) <= esp <= Top(src)
      modifies mem
      ensures OutsideSame(old(mem[..]), mem[..], dest)
      ensures mem[Top(dest) - (Top(src) - esp)..Top(dest)] == old(mem[esp..Top(src)])
    {
      RegionsApart(if dest < src then dest else src, if dest < src then src else dest);
      RegionsApart(dest, nprocs);
      RegionsApart(src, nprocs);
      assert Top(src) <= Bottom(dest) || Top(dest) <= Bottom(src);
      MoveUp(Top(dest) - (Top(src) - esp), esp, Top(src) - esp);
    }

    /** memcpy of n bytes between ranges that do not overlap */
    method MoveUp(to: nat, from: nat, n: nat)
      requires to + n <= mem.Length && from + n <= mem.Length && (from + n <= to || to + n <= from)
      modifies mem
      ensures mem[to..to + n] == old(mem[from..from + n])
      ensures forall x :: 0 <= x < mem.Length && !(to <= x < to + n) ==> mem[x] == old(mem[x])
    {
      var i := 0;
      while i < n
        invariant 0 <= i <= n
        invariant mem[to..to + i] == old(mem[from..from + i])
        invariant forall x :: 0 <= x < mem.Length && !(to <= x < to + i) ==> mem[x] == old(mem[x])
      {
        mem[to + i] := mem[from + i];
        assert mem[to..to + i + 1] == mem[to..to + i] + [mem[to + i]];
        i := i + 1;
      }
    }

    /** sys_fork; do_fork and copy_stack */
    method Fork(reg: Regs) returns (child: int)
      requires Running() && Bottom(current) <= reg.esp <= Top(current)
      modifies procs, mem
      ensures Running() && (Acyclic(old(procs[..])) ==> Acyclic(procs[..]))
      ensures procs[current].regs == reg.(eax := child)
      ensures child == -1 <==> TableFull(Saved(old(procs[..]), current, reg))
      ensures child == -1 ==> mem[..] == old(mem[..]) && procs[..] == Saved(old(procs[..]), current, reg.(eax := -1))
      ensures child != -1 ==> child > 0 && FirstEmpty(Saved(old(procs[..]), current, reg), child) && OutsideSame(old(mem[..]), mem[..], child)
      ensures child != -1 ==> procs[..] == Spawned(Saved(old(procs[..]), current, reg), current, child, Child(Saved(old(procs[..]), current, reg), current, child))
      ensures child != -1 ==> procs[child].state == Runnable && procs[child].regs.eax == 0 && procs[child].regs.eip == reg.eip
      ensures child != -1 ==> Top(child) - procs[child].regs.esp == Top(current) - reg.esp
      ensures child != -1 ==> mem[procs[child].regs.esp..Top(child)] == old(mem[reg.esp..Top(current)])
      ensures Called(old(procs[..]), old(mem[..]), current, if child == -1 then reg.(eax := -1) else reg,
                     if child == -1 then Nothing else Spawns(child, Child(Saved(old(procs[..]), current, reg), current, child)),
                     procs[..], mem[..])
    {
      Save(reg);
      ghost var ps := procs[..];
      var pid := FindEmpty();
      if pid == nprocs {
        child := -1;
        Save(reg.(eax := -1));
        assert procs[..] == Saved(old(procs[..]), current, reg.(eax := -1));
        return;
      }
      RegionsApart(0, current);
      RegionsApart(0, pid);
      procs[pid] := Child(procs[..], current, pid);
      CopyStack(pid, current, reg.esp);
      procs[current] := procs[current].(regs := procs[current].regs.(eax := pid));
      child := pid;
      assert procs[..] == Spawned(ps, current, pid, Child(ps, current, pid));
      SpawnedKeeps(ps, current, pid, Child(ps, current, pid));
    }

    /** sys_newthread; when the table is full it goes on as sys_yield does, and the caller gets no error. */
    method NewThread(reg: Regs) returns (child: nat, spins: bool)
      requires Running() && Bottom(current) <= reg.esp <= Top(current) && reg.eax >= 0
      modifies this`current, procs, mem
      ensures Running() && !spins && (Acyclic(old(procs[..])) ==> Acyclic(procs[..]))
      ensures child == 0 <==> TableFull(Saved(old(procs[..]), old(current), reg))
      ensures child == 0 ==> mem[..] == old(mem[..]) && procs[..] == Saved(old(procs[..]), old(current), reg)
      ensures child == 0 ==> Picks(procs[..], old(current), current)
      ensures child != 0 ==> current == old(current) && FirstEmpty(Saved(old(procs[..]), current, reg), child)
      ensures child != 0 ==> procs[..] == Spawned(Saved(old(procs[..]), current, reg), current, child, Thread(Saved(old(procs[..]), current, reg), child, reg.eax))
      ensures child != 0 ==> procs[child].state == Runnable && procs[child].regs.eip == reg.eax && procs[child].regs.esp == Top(child)
      ensures child != 0 ==> procs[current].regs == reg.(eax := child)
      ensures child != 0 ==> OutsideSame(old(mem[..]), mem[..], child) && forall x :: Bottom(child) <= x < Top(child) && 0 <= x < mem.Length ==> mem[x] == 0
      ensures Called(old(procs[..]), old(mem[..]), old(current), reg,
                     if child == 0 then Nothing else Spawns(child, Thread(Saved(old(procs[..]), old(current), reg), child, reg.eax)),
                     procs[..], mem[..])
    {
      Save(reg);
      ghost var ps := procs[..];
      var pid := FindEmpty();
      if pid == nprocs {
        child := 0;
        spins := Schedule();
        return;
      }
      RegionsApart(0, pid);
      RegionsApart(pid, nprocs);
      procs[pid] := Thread(procs[..], pid, reg.eax);
      Erase(Top(pid) - PROC_STACK_SIZE, Top(pid));
      procs[current] := procs[current].(regs := procs[current].regs.(eax := pid));
      child, spins := pid, false;
      assert procs[..] == Spawned(ps, current, pid, Thread(ps, pid, reg.eax));
      SpawnedKeeps(ps, current, pid, Thread(ps, pid, reg.eax));
    }

    /** memset of the bytes from 'from' up to 'to' */
    method Erase(from: nat, to: nat)
      requires from <= to <= mem.Length
      modifies mem
      ensures forall x :: 0 <= x < mem.Length ==> mem[x] == if from <= x < to then 0 else old(mem[x])
    {
      var i := from;
      while i < to
        invariant from <= i <= to
        invariant forall x :: 0 <= x < mem.Length ==> mem[x] == if from <= x < i then 0 else old(mem[x])
      {
        mem[i] := 0;
        i := i + 1;
      }
    }

    /** sys_yield */
    method Yield(reg: Regs) returns (spins: bool)
      requires Running() && Bottom(current) <= reg.esp <= Top(current)
      modifies this`current, procs
      ensures Running() && !spins && procs[..] == Saved(old(procs[..]), old(current), reg)
      ensures Picks(procs[..], old(current), current) && (Acyclic(old(procs[..])) ==> Acyclic(procs[..]))
      ensures Called(old(procs[..]), old(mem[..]), old(current), reg, Nothing, procs[..], mem[..])
    {
      Save(reg);
      spins := Schedule();
    }

    /** sys_exit */
    method Exit(reg: Regs) returns (spins: bool)
      requires Running() && Bottom(current) <= reg.esp <= Top(current)
      modifies this`current, procs
      ensures Valid() && procs[..] == Ended(Saved(old(procs[..]), old(current), reg), old(current), reg.eax)
      ensures procs[old(current)].state == Zombie && procs[old(current)].status == reg.eax
      ensures var w := old(procs[current].wait); w != 0 ==> w < nprocs && procs[w].state == Runnable
      ensures Acyclic(old(procs[..])) ==> Acyclic(procs[..])
      ensures !spins ==> Running() && Picks(procs[..], old(current), current)
      ensures spins ==> forall i :: 0 <= i < nprocs ==> procs[i].state != Runnable
      ensures spins && Acyclic(old(procs[..])) ==> forall i :: 0 <= i < nprocs ==> !procs[i].Live()
      ensures Called(old(procs[..]), old(mem[..]), old(current), reg, Exits, procs[..], mem[..])
    {
      Save(reg);
      ghost var ps := procs[..];
      assert current != 0;
      var wait := procs[current].wait;
      procs[current] := procs[current].(state := Zombie, status := procs[current].regs.eax);
      if wait != 0 {
        WaiterIs(ps, current);
        procs[wait] := procs[wait].(state := Runnable);
        procs[current] := procs[current].(wait := 0);
      }
      assert procs[..] == Ended(ps, current, reg.eax);
      EndedStays(ps, current, reg.eax);
      spins := Schedule();
      if spins { NobodyLeft(procs[..]); }
    }

    /** sys_kill; killing a blocked process leaves it recorded as a waiter. */
    method Kill(reg: Regs) returns (spins: bool)
      requires Running() && Bottom(current) <= reg.esp <= Top(current)
      modifies this`current, procs
      ensures procs[..] == Killed(Saved(old(procs[..]), old(current), reg), reg.eax)
      ensures var p := reg.eax; 0 < p < nprocs && old(procs[..])[p].state != Empty ==> procs[p].state == Zombie && procs[p].status == 5
      ensures var ps := Saved(old(procs[..]), old(current), reg); var p := reg.eax;
              !(0 < p < nprocs && ps[p].state == Blocked) ==> Valid() && (Acyclic(old(procs[..])) ==> Acyclic(procs[..]))
      ensures reg.eax != old(current) ==> !spins && current == old(current)
      ensures reg.eax == old(current) && !spins ==> Picks(procs[..], old(current), current)
      ensures reg.eax == old(current) && spins ==> forall i :: 0 <= i < nprocs ==> procs[i].state != Runnable
      ensures Proper(Kills(reg.eax), Saved(old(procs[..]), old(current), reg), old(current)) ==>
                Called(old(procs[..]), old(mem[..]), old(current), reg, Kills(reg.eax), procs[..], mem[..])
    {
      Save(reg);
      ghost var ps := procs[..];
      var pid := procs[current].regs.eax;
      if 0 < pid < nprocs && procs[pid].state != Empty {
        var wait := procs[pid].wait;
        WaiterIs(ps, pid);
        procs[pid] := procs[pid].(state := Zombie, status := 5);
        if wait != 0 {
          procs[wait] := procs[wait].(state := Runnable);
          procs[pid] := procs[pid].(wait := 0);
        }
        assert procs[..] == Ended(ps, pid, 5);
        if ps[pid].state != Blocked { EndedStays(ps, pid, 5); }
      }
      spins := false;
      if pid == current {
        spins := Schedule();
      }
    }

    /** sys_wait */
    method Wait(reg: Regs) returns (spins: bool)
      requires Running() && Bottom(current) <= reg.esp <= Top(current)
      modifies this`current, procs
      ensures procs[..] == Waited(Saved(old(procs[..]), old(current), reg), old(current), reg.eax)
      ensures var p, ps := reg.eax, old(procs[..]);
              if p <= 0 || p >= nprocs || p == old(current) || ps[p].state == Empty then procs[old(current)].regs == reg.(eax := -1)
              else if ps[p].state == Zombie then procs[old(current)].regs == reg.(eax := ps[p].status) && procs[p].state == Empty
              else procs[old(current)].state == Blocked && procs[p].wait == old(current)
      ensures var ps := Saved(old(procs[..]), old(current), reg); var p := reg.eax;
              Valid() <==> !(0 < p < nprocs && p != old(current) && ps[p].Live() && ps[p].wait != 0)
      ensures !spins ==> Picks(procs[..], old(current), current)
      ensures spins ==> forall i :: 0 <= i < nprocs ==> procs[i].state != Runnable
      ensures spins && Valid() ==> !Acyclic(procs[..])
      ensures Proper(Waits(reg.eax), Saved(old(procs[..]), old(current), reg), old(current)) ==>
                Called(old(procs[..]), old(mem[..]), old(current), reg, Waits(reg.eax), procs[..], mem[..])
    {
      hide Recorded, Remembered, RecordedOnce, Acyclic;
      Save(reg);
      ghost var ps, cur := procs[..], current;
      assert cur != 0;
      var p := procs[current].regs.eax;
      if p <= 0 || p >= nprocs || p == current || procs[p].state == Empty {
        procs[current] := procs[current].(regs := procs[current].regs.(eax := -1));
      } else if procs[p].state == Zombie {
        procs[current] := procs[current].(regs := procs[current].regs.(eax := procs[p].status));
        procs[p] := procs[p].(state := Empty);
      } else {
        procs[current] := procs[current].(state := Blocked);
        procs[p] := procs[p].(wait := current);
      }
      assert procs[..] == Waited(ps, cur, p);
      WaitedKeepsIff(ps, cur, p);
      spins := Schedule();
      assert procs[..][cur].Live();
      if spins && Acyclic(procs[..]) && TableOk(procs[..]) { NobodyLeft(procs[..]); }
    }
  }

  /** A thread starts at the given address with an empty stack. */
  function Thread(ps: Table, slot: nat, entry: nat): Proc
    requires slot < |ps|
  {
    Proc(ps[slot].pid, ps[slot].wait, Regs(0, entry, Top(slot)), Runnable, ps[slot].status)
  }

  lemma EndedStays(ps: Table, p: nat, status: int)
    requires TableOk(ps) && StacksOk(ps) && 0 < p < |ps| && ps[p].state != Empty && ps[p].state != Blocked
    ensures TableOk(Ended(ps, p, status)) && StacksOk(Ended(ps, p, status))
    ensures Acyclic(ps) ==> Acyclic(Ended(ps, p, status))
  {
    hide Ended;
    var ps' := Ended(ps, p, status);
    EndedKeeps(ps, p, status);
    WaiterIs(ps, p);
    forall i | 0 <= i < |ps|
      ensures ps'[i].regs == ps[i].regs && (ps'[i].Live() ==> ps[i].Live()) && (ps'[i].wait == ps[i].wait || ps'[i].wait == 0)
    {
      EndedAt(ps, p, status, i);
    }
    if Acyclic(ps) { FewerWaitersAcyclic(ps, ps'); }
  }

  /** Without deadlock, no runnable process means no live process. */
  lemma NobodyLeft(ps: Table)
    requires TableOk(ps) && forall i :: 0 <= i < |ps| ==> ps[i].state != Runnable
    ensures Acyclic(ps) ==> forall i :: 0 <= i < |ps| ==> !ps[i].Live()
  {
    if Acyclic(ps) {
      var rank :| Ranked(ps, rank);
      forall i | 0 <= i < |ps|
        ensures !ps[i].Live()
      {
        if ps[i].Live() { SomeoneCanRun(ps, rank, i); }
      }
    }
  }

  // ----- any run of system calls -----

  /** What one system call of the current process does to the table. */
  datatype Effect = Nothing | Spawns(slot: nat, child: Proc) | Exits | Kills(p: int) | Waits(p: int)

  /** The system call as it is meant to be used: no kill of a blocked process, one waiter for each process, no circle of waits. */
  ghost predicate Proper(e: Effect, ps: Table, cur: nat) {
    match e
    case Nothing => true
    case Spawns(slot, child) =>
      FirstEmpty(ps, slot) && child.pid == slot && child.wait == ps[slot].wait && child.state == Runnable
      && Bottom(slot) <= child.regs.esp <= Top(slot)
    case Exits => true
    case Kills(p) => !(0 < p < |ps| && ps[p].state == Blocked)
    case Waits(p) => 0 < p < |ps| && p != cur && ps[p].Live() ==> ps[p].wait == 0 && !Leads(ps, p, cur)
  }

  ghost function Apply(e: Effect, ps: Table, cur: nat): Table
    requires cur < |ps| && Proper(e, ps, cur)
  {
    match e
    case Nothing => ps
    case Spawns(slot, child) => Spawned(ps, cur, slot, child)
    case Exits => Ended(ps, cur, ps[cur].regs.eax)
    case Kills(p) => Killed(ps, p)
    case Waits(p) => Waited(ps, cur, p)
  }

  ghost predicate Healthy(ps: Table) { TableOk(ps) && StacksOk(ps) && Acyclic(ps) }

  lemma ApplyKeeps(e: Effect, ps: Table, cur: nat)
    requires Healthy(ps) && cur < |ps| && ps[cur].state == Runnable && Proper(e, ps, cur)
    ensures Healthy(Apply(e, ps, cur))
  {
    match e
    case Nothing =>
    case Spawns(slot, child) => SpawnedKeeps(ps, cur, slot, child);
    case Exits => EndedStays(ps, cur, ps[cur].regs.eax);
    case Kills(p) => if 0 < p < |ps| && ps[p].state != Empty { EndedStays(ps, p, 5); }
    case Waits(p) =>
      WaitedKeepsIff(ps, cur, p);
      if 0 < p < |ps| && p != cur && ps[p].Live() {
        WaitKeepsAcyclicIff(ps, cur, p);
      } else {
        FewerWaitersAcyclic(ps, Waited(ps, cur, p));
      }
  }

  /**
   * One proper system call: the registers of the current process are saved, the table changes as 'e' says, and memory only
   * in the stack region of a new process.
   */
  ghost predicate Called(ps: Table, mem: seq<byte>, cur: nat, reg: Regs, e: Effect, ps': Table, mem': seq<byte>) {
    && cur < |ps| && ps[cur].state == Runnable && Bottom(cur) <= reg.esp <= Top(cur)
    && Proper(e, Saved(ps, cur, reg), cur) && ps' == Apply(e, Saved(ps, cur, reg), cur)
    && if e.Spawns? then OutsideSame(mem, mem', e.slot) else mem' == mem
  }

  /** A process that is not running, and whose slot is in use, keeps its saved registers and its stack. */
  lemma CalledLeaves(ps: Table, mem: seq<byte>, cur: nat, reg: Regs, e: Effect, ps': Table, mem': seq<byte>, q: nat)
    requires Called(ps, mem, cur, reg, e, ps', mem') && TableOk(ps) && q < |ps| && q != cur && ps[q].state != Empty
    ensures |ps'| == |ps| && ps'[q].regs == ps[q].regs && SameStack(mem, mem', q)
  {
    var ps1 := Saved(ps, cur, reg);
    SavedKeeps(ps, cur, reg);
    match e
    case Nothing =>
    case Spawns(slot, child) => RegionsApart(if slot < q then slot else q, if slot < q then q else slot);
    case Exits =>
      WaiterIs(ps1, cur);
      EndedAt(ps1, cur, ps1[cur].regs.eax, q);
    case Kills(p) =>
      if 0 < p < |ps| && ps1[p].state != Empty {
        WaiterIs(ps1, p);
        EndedAt(ps1, p, 5, q);
      }
    case Waits(p) =>
  }

  ghost predicate SameStack(mem: seq<byte>, mem': seq<byte>, q: nat) {
    |mem'| == |mem| && forall x :: Bottom(q) <= x < Top(q) && 0 <= x < |mem| ==> mem'[x] == mem[x]
  }

  /** The process table and the memory, and one system call: who makes it, with which registers, and what memory is then. */
  datatype Machine = Machine(procs: Table, mem: seq<byte>)
  datatype Call = Call(cur: nat, reg: Regs, mem: seq<byte>, effect: Effect)

  /** A process runs, writing to its own stack region only, and makes a proper system call. */
  ghost predicate Turn(s: Machine, c: Call, t: Machine) {
    OutsideSame(s.mem, c.mem, c.cur) && Called(s.procs, c.mem, c.cur, c.reg, c.effect, t.procs, t.mem)
  }

  ghost predicate Run(states: seq<Machine>, calls: seq<Call>) {
    |states| == |calls| + 1 && forall k :: 0 <= k < |calls| ==> Turn(states[k], calls[k], states[k + 1])
  }

  /** Over any such run the bookkeeping stays right, stack pointers stay in their regions, and nobody waits for ever. */
  lemma {:induction false} RunKeeps(states: seq<Machine>, calls: seq<Call>, k: nat)
    requires Run(states, calls) && Healthy(states[0].procs) && k <= |calls|
    ensures Healthy(states[k].procs)
    ensures (exists i :: 0 <= i < |states[k].procs| && states[k].procs[i].Live()) ==>
              exists r :: 0 <= r < |states[k].procs| && states[k].procs[r].state == Runnable
  {
    if k > 0 {
      RunKeeps(states, calls, k - 1);
      assert Turn(states[k - 1], calls[k - 1], states[k]);
      TurnKeeps(states[k - 1], calls[k - 1], states[k]);
    }
    SomebodyRuns(states[k].procs);
  }

  lemma TurnKeeps(s: Machine, c: Call, t: Machine)
    requires Turn(s, c, t) && Healthy(s.procs)
    ensures Healthy(t.procs)
  {
    SavedKeeps(s.procs, c.cur, c.reg);
    FewerWaitersAcyclic(s.procs, Saved(s.procs, c.cur, c.reg));
    ApplyKeeps(c.effect, Saved(s.procs, c.cur, c.reg), c.cur);
  }

  lemma SomebodyRuns(ps: Table)
    requires Healthy(ps)
    ensures (exists i :: 0 <= i < |ps| && ps[i].Live()) ==> exists r :: 0 <= r < |ps| && ps[r].state == Runnable
  {
    var rank :| Ranked(ps, rank);
    if i :| 0 <= i < |ps| && ps[i].Live() {
      SomeoneCanRun(ps, rank, i);
    }
  }

  /** Until its next turn a process keeps its saved registers and every byte of its stack, whatever the others do. */
  lemma {:induction false} RunLeavesOthers(states: seq<Machine>, calls: seq<Call>, a: nat, b: nat, q: nat)
    requires Run(states, calls) && Healthy(states[0].procs) && a <= b <= |calls| && q < |states[a].procs|
    requires forall k :: a <= k < b ==> calls[k].cur != q && (q < |states[k].procs| ==> states[k].procs[q].state != Empty)
    ensures q < |states[b].procs| && states[b].procs[q].regs == states[a].procs[q].regs
    ensures SameStack(states[a].mem, states[b].mem, q)
    decreases b
  {
    if a < b {
      RunLeavesOthers(states, calls, a, b - 1, q);
      RunKeeps(states, calls, b - 1);
      var s, c, t := states[b - 1], calls[b - 1], states[b];
      assert Turn(s, c, t);
      CalledLeaves(s.procs, c.mem, c.cur, c.reg, c.effect, t.procs, t.mem, q);
      RegionsApart(if c.cur < q then c.cur else q, if c.cur < q then q else c.cur);
    }
  }

  // ----- exit, kill and wait -----

  /** The call ends process p with this status: p exits, or p is killed. */
  ghost predicate Ends(s: Machine, c: Call, p: nat, status: int) {
    && 0 < p < |s.procs|
    && ((c.effect == Exits && c.cur == p && c.reg.eax == status) || (c.effect == Kills(p) && s.procs[p].state != Empty && status == 5))
  }

  lemma EndsAsZombie(s: Machine, c: Call, t: Machine, p: nat, status: int)
    requires Turn(s, c, t) && Healthy(s.procs) && Ends(s, c, p, status)
    ensures 0 < p < |t.procs| && t.procs[p].state == Zombie && t.procs[p].status == status
  {
    var ps := Saved(s.procs, c.cur, c.reg);
    SavedKeeps(s.procs, c.cur, c.reg);
    WaiterIs(ps, p);
    EndedAt(ps, p, status, p);
  }

  /** A zombie stays one, with its status, until it is waited for or killed once more. */
  lemma ZombieStays(s: Machine, c: Call, t: Machine, p: nat)
    requires Turn(s, c, t) && Healthy(s.procs) && 0 < p < |s.procs| && s.procs[p].state == Zombie
    requires c.effect != Kills(p) && c.effect != Waits(p)
    ensures p < |t.procs| && t.procs[p].state == Zombie && t.procs[p].status == s.procs[p].status
  {
    var ps := Saved(s.procs, c.cur, c.reg);
    SavedKeeps(s.procs, c.cur, c.reg);
    match c.effect
    case Nothing =>
    case Spawns(slot, child) =>
    case Exits =>
      WaiterIs(ps, c.cur);
      NotItsWaiter(ps, c.cur, p);
      EndedAt(ps, c.cur, ps[c.cur].regs.eax, p);
    case Kills(q) =>
      if 0 < q < |ps| && ps[q].state != Empty {
        WaiterIs(ps, q);
        NotItsWaiter(ps, q, p);
        EndedAt(ps, q, 5, p);
      }
    case Waits(q) =>
  }

  /** A process that is recorded as a waiter is blocked. */
  lemma NotItsWaiter(ps: Table, q: nat, p: nat)
    requires TableOk(ps) && q < |ps| && 0 < p < |ps| && ps[p].state != Blocked
    ensures ps[q].wait != p
  {
    assert ps[q].wait == p ==> WaitsFor(ps, p, q);
  }

  /**
   * Over any run: the status given to exit, or 5 for a kill, is what the process gets that waits for the zombie, and the
   * slot is then free for a new process.
   */
  lemma StatusIsCollected(states: seq<Machine>, calls: seq<Call>, a: nat, w: nat, p: nat, status: int)
    requires Run(states, calls) && Healthy(states[0].procs) && a < w < |calls|
    requires Ends(states[a], calls[a], p, status) && calls[w].effect == Waits(p)
    requires forall k :: a < k < w ==> calls[k].effect != Kills(p) && calls[k].effect != Waits(p)
    ensures var c, ps := calls[w].cur, states[w + 1].procs;
            p != c && c < |ps| && p < |ps| && ps[c].regs == calls[w].reg.(eax := status) && ps[p].state == Empty && !TableFull(ps)
  {
    ZombieThroughRun(states, calls, a, w, p, status);
    RunKeeps(states, calls, w);
    assert Turn(states[w], calls[w], states[w + 1]);
  }

  lemma TurnOfRun(states: seq<Machine>, calls: seq<Call>, k: nat)
    requires Run(states, calls) && k < |calls|
    ensures |states| == |calls| + 1 && Turn(states[k], calls[k], states[k + 1])
  {
  }

  lemma {:induction false} ZombieThroughRun(states: seq<Machine>, calls: seq<Call>, a: nat, b: nat, p: nat, status: int)
    requires Run(states, calls) && Healthy(states[0].procs) && a < b <= |calls| && Ends(states[a], calls[a], p, status)
    requires forall k :: a < k < b ==> calls[k].effect != Kills(p) && calls[k].effect != Waits(p)
    ensures 0 < p < |states[b].procs| && states[b].procs[p].state == Zombie && states[b].procs[p].status == status
    decreases b
  {
    hide Run, Turn, Healthy, Ends;
    RunKeeps(states, calls, b - 1);
    TurnOfRun(states, calls, b - 1);
    if a == b - 1 {
      EndsAsZombie(states[a], calls[a], states[b], p, status);
    } else {
      ZombieThroughRun(states, calls, a, b - 1, p, status);
      ZombieStays(states[b - 1], calls[b - 1], states[b], p);
    }
  }
}
