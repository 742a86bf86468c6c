/**
 * The round-robin scheduler (kernel/scheduler/round_robin_scheduler.c): a
 * FIFO ready queue of wrapper nodes, a blocked list, one running process and
 * a quantum counter.  Wrapper nodes come from a static pool of 64 that is
 * handed out in order and never given back, not even by init or shutdown.
 *
 * A process is known only by its identity (the process_t pointer).  The two
 * linked lists are sequences of pool indices, in list order: the ready queue
 * from head to tail, the blocked list from its head.
 */
module RoundRobinScheduler {
  import opened Wrappers

  const DEFAULT_TIME_QUANTUM: U32 := 20
  const MIN_TIME_QUANTUM: U32 := 1
  const MAX_TIME_QUANTUM: U32 := 1000

  /** The size of the static node_pool inside create_process_node. */
  const POOL_SIZE: nat := 64

  /** A process_t pointer, by identity. */
  type Pid = nat

  /** rr_process_node_t without its links: the process it wraps and its wait time. */
  datatype Node = Node(process: Pid, waitTime: U32)

  /** The scheduler's whole state: rr_state together with the static pool and its index. */
  datatype RR = RR(
    pool: seq<Node>,
    nodeIndex: nat,
    ready: seq<nat>,
    blocked: seq<nat>,
    current: Option<Pid>,
    timeQuantum: U32,
    remainingQuantum: U32,
    processCount: U32,
    contextSwitches: U32,
    totalWaitTime: U32,
    currentTick: U32,
    initialized: bool)

  /**
   * The lists hold only nodes already handed out, and together no more of
   * them than were handed out.
   */
  predicate Indexed(s: RR)
  {
    |s.pool| == POOL_SIZE && s.nodeIndex <= POOL_SIZE
    && (forall i :: 0 <= i < |s.ready| ==> s.ready[i] < s.nodeIndex)
    && (forall i :: 0 <= i < |s.blocked| ==> s.blocked[i] < s.nodeIndex)
    && |s.ready| + |s.blocked| <= s.nodeIndex
  }

  /** No node is on two lists, or twice on one. */
  ghost predicate Exclusive(s: RR)
  {
    forall n :: multiset(s.ready + s.blocked)[n] <= 1
  }

  /** The static state before rr_init has ever run: everything zero. */
  function Boot(): (r: RR)
    ensures Indexed(r) && Exclusive(r)
  {
    RR(seq(POOL_SIZE, _ => Node(0, 0)), 0, [], [], None, 0, 0, 0, 0, 0, 0, false)
  }

  /** The processes of a list of nodes, in list order. */
  function Processes(pool: seq<Node>, list: seq<nat>): (r: seq<Pid>)
    requires forall i :: 0 <= i < |list| ==> list[i] < |pool|
    ensures |r| == |list|
  {
    seq(|list|, i requires 0 <= i < |list| => pool[list[i]].process)
  }

  /** The processes of the ready queue, head first. */
  function ReadyProcesses(s: RR): (r: seq<Pid>)
    requires Indexed(s)
    ensures |r| == |s.ready|
  {
    Processes(s.pool, s.ready)
  }

  /** Unlinking the node at position i drops the process at position i. */
  lemma ProcessesRemoveAt(pool: seq<Node>, l: seq<nat>, i: nat)
    requires forall k :: 0 <= k < |l| ==> l[k] < |pool|
    requires i < |l|
    ensures forall k :: 0 <= k < |RemoveAt(l, i)| ==> RemoveAt(l, i)[k] < |pool|
    ensures Processes(pool, RemoveAt(l, i)) == Processes(pool, l)[..i] + Processes(pool, l)[i + 1..]
  {
    var r := RemoveAt(l, i);
    assert forall k :: 0 <= k < |r| ==> r[k] == if k < i then l[k] else l[k + 1];
  }

  /** The position of the first node on a list that wraps process p, as the list walks do. */
  function FindIn(pool: seq<Node>, list: seq<nat>, p: Pid): (r: Option<nat>)
    requires forall i :: 0 <= i < |list| ==> list[i] < |pool|
    ensures r.Some? ==> r.value < |list| && pool[list[r.value]].process == p
    ensures r.Some? ==> forall j :: 0 <= j < r.value ==> pool[list[j]].process != p
    ensures r.None? ==> forall j :: 0 <= j < |list| ==> pool[list[j]].process != p
  {
    if |list| == 0 then None
    else if pool[list[0]].process == p then Some(0)
    else match FindIn(pool, list[1..], p)
      case None => None
      case Some(i) => Some(i + 1)
  }

  // ---------------------------------------------------------------------------
  // The operations, as functions of the state
  // ---------------------------------------------------------------------------

  /** create_process_node: the next pool node, or None once all 64 are gone. */
  function CreateNode(s: RR, p: Pid): (r: (RR, Option<nat>))
    requires Indexed(s)
    ensures Indexed(r.0)
  {
    if s.nodeIndex >= POOL_SIZE then (s, None)
    else (s.(pool := s.pool[s.nodeIndex := Node(p, 0)], nodeIndex := s.nodeIndex + 1), Some(s.nodeIndex))
  }

  /** A fresh node for p at the ready tail, or nothing when the pool is empty. */
  function Requeue(s: RR, p: Pid): (r: RR)
    requires Indexed(s)
    ensures Indexed(r)
  {
    var (s1, node) := CreateNode(s, p);
    if node.None? then s1 else s1.(ready := s1.ready + [node.value])
  }

  /** rr_init: a second call does nothing; the pool and its index are never reset. */
  function InitStep(s: RR): (r: RR)
    ensures Indexed(s) ==> Indexed(r)
  {
    if s.initialized then s
    else s.(ready := [], blocked := [], current := None, timeQuantum := DEFAULT_TIME_QUANTUM,
            remainingQuantum := 0, processCount := 0, contextSwitches := 0,
            totalWaitTime := 0, currentTick := 0, initialized := true)
  }

  /** rr_shutdown: the lists and the running slot are emptied; the pool and the statistics stay. */
  function ShutdownStep(s: RR): (r: RR)
    ensures Indexed(s) ==> Indexed(r)
  {
    s.(ready := [], blocked := [], current := None, processCount := 0, initialized := false)
  }

  /** rr_add_process. */
  function AddStep(s: RR, proc: Option<Pid>): (r: RR)
    requires Indexed(s)
    ensures Indexed(r)
  {
    if proc.None? then s
    else
      var (s1, node) := CreateNode(s, proc.value);
      if node.None? then s1
      else s1.(ready := s1.ready + [node.value], processCount := AddU32(s1.processCount, 1))
  }

  /** rr_get_next: the head of the ready queue, dequeued. */
  function NextStep(s: RR): (r: (RR, Option<Pid>))
    requires Indexed(s)
    ensures Indexed(r.0)
  {
    if |s.ready| == 0 then (s, None)
    else (s.(ready := s.ready[1..]), Some(s.pool[s.ready[0]].process))
  }

  /**
   * rr_schedule: only with nothing running or the quantum used up.  An
   * expired process is re-queued on a fresh node; the head then runs, with a
   * full quantum and a context switch counted only if it is another process.
   */
  function ScheduleStep(s: RR): (r: RR)
    requires Indexed(s)
    ensures Indexed(r)
  {
    if s.current.Some? && s.remainingQuantum != 0 then s
    else
      var s1 := if s.current.Some? then Requeue(s, s.current.value) else s;
      var (s2, next) := NextStep(s1);
      if next == s2.current then s2
      else s2.(current := next, remainingQuantum := s2.timeQuantum,
               contextSwitches := AddU32(s2.contextSwitches, 1))
  }

  /** rr_yield: the running process goes to the ready tail on a fresh node, then schedule. */
  function YieldStep(s: RR): (r: RR)
    requires Indexed(s)
    ensures Indexed(r)
  {
    var s1 := if s.current.Some? then Requeue(s, s.current.value).(current := None, remainingQuantum := 0) else s;
    ScheduleStep(s1)
  }

  /**
   * The processes block and remove can be given.  The unlink that follows
   * find_process_node is the ready queue's: it splices a blocked node with a
   * neighbour on each side out of the blocked list correctly, but for the
   * blocked head it overwrites the ready head, and for the blocked tail the
   * ready tail.  So a node found only on the blocked list must be neither.
   */
  predicate Unlinkable(s: RR, p: Pid)
    requires Indexed(s)
  {
    FindIn(s.pool, s.ready, p).Some? || FindIn(s.pool, s.blocked, p).None?
    || 0 < FindIn(s.pool, s.blocked, p).value < |s.blocked| - 1
  }

  /**
   * rr_block: the running process is taken off the processor, on no list at
   * all; a ready process moves from the ready queue to the blocked head, and
   * a process already blocked (inside the list) moves to the blocked head.
   */
  function BlockStep(s: RR, proc: Option<Pid>): (r: RR)
    requires Indexed(s)
    requires proc.Some? && Some(proc.value) != s.current ==> Unlinkable(s, proc.value)
    ensures Indexed(r)
  {
    if proc.None? then s
    else if Some(proc.value) == s.current then ScheduleStep(s.(current := None, remainingQuantum := 0))
    else match FindIn(s.pool, s.ready, proc.value)
      case Some(i) => s.(ready := RemoveAt(s.ready, i), blocked := [s.ready[i]] + s.blocked)
      case None =>
        match FindIn(s.pool, s.blocked, proc.value)
        case None => s
        case Some(j) => s.(blocked := [s.blocked[j]] + RemoveAt(s.blocked, j))
  }

  /** rr_unblock: the first blocked node of the process moves to the ready tail, its wait time cleared. */
  function UnblockStep(s: RR, proc: Option<Pid>): (r: RR)
    requires Indexed(s)
    ensures Indexed(r)
  {
    if proc.None? then s
    else match FindIn(s.pool, s.blocked, proc.value)
      case None => s
      case Some(i) =>
        var n := s.blocked[i];
        s.(pool := s.pool[n := s.pool[n].(waitTime := 0)],
           blocked := RemoveAt(s.blocked, i), ready := s.ready + [n])
  }

  /**
   * rr_remove_process: nothing happens unless a node for the process is
   * listed.  If the process is the running one, only the running slot is
   * cleared; otherwise its node is unlinked from the list it is on.  The
   * count drops by one.
   */
  function RemoveStep(s: RR, proc: Option<Pid>): (r: RR)
    requires Indexed(s)
    requires proc.Some? && Some(proc.value) != s.current ==> Unlinkable(s, proc.value)
    ensures Indexed(r)
  {
    if proc.None? then s
    else
      var p := proc.value;
      var inReady := FindIn(s.pool, s.ready, p);
      if inReady.None? && FindIn(s.pool, s.blocked, p).None? then s
      else if Some(p) == s.current then
        s.(current := None, remainingQuantum := 0, processCount := SubU32(s.processCount, 1))
      else if inReady.Some? then
        s.(ready := RemoveAt(s.ready, inReady.value), processCount := SubU32(s.processCount, 1))
      else
        var j := FindIn(s.pool, s.blocked, p).value;
        s.(blocked := RemoveAt(s.blocked, j), processCount := SubU32(s.processCount, 1))
  }

  /** The pool after the wait-time walk of the nodes on a list, one step per node. */
  function Waited(pool: seq<Node>, list: seq<nat>): (r: seq<Node>)
    requires forall i :: 0 <= i < |list| ==> list[i] < |pool|
    ensures |r| == |pool|
    decreases |list|
  {
    if |list| == 0 then pool
    else
      var n := list[0];
      Waited(pool[n := pool[n].(waitTime := AddU32(pool[n].waitTime, 1))], list[1..])
  }

  /**
   * rr_timer_tick: the tick advances, a positive quantum of the running
   * process shrinks by one, every ready node waits one tick more, and the
   * scheduler runs once the quantum is 0.
   */
  function TickStep(s: RR): (r: RR)
    requires Indexed(s)
    ensures Indexed(r)
  {
    var c := Charged(s);
    if c.remainingQuantum == 0 then ScheduleStep(c) else c
  }

  /** The bookkeeping of a tick, before the scheduler is called. */
  function Charged(s: RR): (r: RR)
    requires Indexed(s)
    ensures Indexed(r)
  {
    s.(currentTick := AddU32(s.currentTick, 1),
       remainingQuantum := if s.current.Some? && s.remainingQuantum > 0 then s.remainingQuantum - 1 else s.remainingQuantum,
       pool := Waited(s.pool, s.ready),
       totalWaitTime := AddU32(s.totalWaitTime, |s.ready|))
  }

  /** rr_set_time_quantum: values outside 1..1000 are ignored; a positive running quantum restarts at the new value. */
  function QuantumStep(s: RR, quantum: U32): (r: RR)
  {
    if quantum < MIN_TIME_QUANTUM || quantum > MAX_TIME_QUANTUM then s
    else s.(timeQuantum := quantum,
            remainingQuantum := if s.current.Some? && s.remainingQuantum > 0 then quantum else s.remainingQuantum)
  }

  /** rr_get_avg_wait_time: total wait over ticks, rounded down, and 0 before the first tick. */
  function AvgWait(s: RR): (r: U32)
    ensures s.currentTick == 0 ==> r == 0
    ensures s.currentTick > 0 ==> r * s.currentTick <= s.totalWaitTime < (r + 1) * s.currentTick
  {
    if s.currentTick == 0 then 0 else s.totalWaitTime / s.currentTick
  }

  // ---------------------------------------------------------------------------
  // The ready queue is FIFO
  // ---------------------------------------------------------------------------

  /** A node handed out at the pool index does not disturb the processes already queued. */
  lemma FreshNodeKeepsQueue(s: RR, p: Pid)
    requires Indexed(s) && s.nodeIndex < POOL_SIZE
    ensures ReadyProcesses(CreateNode(s, p).0) == ReadyProcesses(s)
  {
    var s1 := CreateNode(s, p).0;
    forall i | 0 <= i < |s.ready|
      ensures ReadyProcesses(s1)[i] == ReadyProcesses(s)[i]
    {
      assert s.ready[i] < s.nodeIndex;
    }
  }

  /** add_process appends at the tail while nodes remain, and does nothing at all once they are gone. */
  lemma AddAppends(s: RR, p: Pid)
    requires Indexed(s)
    ensures s.nodeIndex < POOL_SIZE ==>
      ReadyProcesses(AddStep(s, Some(p))) == ReadyProcesses(s) + [p]
      && AddStep(s, Some(p)).processCount == AddU32(s.processCount, 1)
      && AddStep(s, Some(p)).nodeIndex == s.nodeIndex + 1
      && AddStep(s, Some(p)).blocked == s.blocked
    ensures s.nodeIndex == POOL_SIZE ==> AddStep(s, Some(p)) == s
  {
    if s.nodeIndex < POOL_SIZE {
      FreshNodeKeepsQueue(s, p);
      var r := AddStep(s, Some(p));
      assert ReadyProcesses(r)[..|s.ready|] == ReadyProcesses(CreateNode(s, p).0);
    }
  }

  /** Re-queueing a process (on expiry or yield) also appends it at the tail, without counting it. */
  lemma RequeueAppends(s: RR, p: Pid)
    requires Indexed(s)
    ensures s.nodeIndex < POOL_SIZE ==>
      ReadyProcesses(Requeue(s, p)) == ReadyProcesses(s) + [p] && Requeue(s, p).nodeIndex == s.nodeIndex + 1
    ensures s.nodeIndex == POOL_SIZE ==> Requeue(s, p) == s
    ensures Requeue(s, p).blocked == s.blocked && Requeue(s, p).processCount == s.processCount
  {
    if s.nodeIndex < POOL_SIZE {
      FreshNodeKeepsQueue(s, p);
      assert ReadyProcesses(Requeue(s, p))[..|s.ready|] == ReadyProcesses(CreateNode(s, p).0);
    }
  }

  /** get_next takes the head: the process first in the queue, leaving the rest in order. */
  lemma NextTakesHead(s: RR)
    requires Indexed(s)
    ensures |s.ready| == 0 ==> NextStep(s) == (s, None)
    ensures |s.ready| > 0 ==>
      NextStep(s).1 == Some(ReadyProcesses(s)[0])
      && ReadyProcesses(NextStep(s).0) == ReadyProcesses(s)[1..]
  {
  }

  /** Two processes added to an empty queue come out in the order they went in. */
  lemma FifoOrder(s: RR, p: Pid, q: Pid)
    requires Indexed(s) && |s.ready| == 0 && s.nodeIndex + 2 <= POOL_SIZE
    ensures var s2 := AddStep(AddStep(s, Some(p)), Some(q));
      NextStep(s2).1 == Some(p) && NextStep(NextStep(s2).0).1 == Some(q)
  {
    var s1 := AddStep(s, Some(p));
    AddAppends(s, p);
    AddAppends(s1, q);
    var s2 := AddStep(s1, Some(q));
    assert ReadyProcesses(s2) == [p, q];
    NextTakesHead(s2);
    NextTakesHead(NextStep(s2).0);
  }

  // ---------------------------------------------------------------------------
  // Scheduling
  // ---------------------------------------------------------------------------

  /** The queue schedule and yield pick from: the ready queue, with the running process appended if a node is left. */
  function PickQueue(s: RR): (q: seq<Pid>)
    requires Indexed(s)
  {
    if s.current.Some? && s.nodeIndex < POOL_SIZE then ReadyProcesses(s) + [s.current.value] else ReadyProcesses(s)
  }

  /** The process heading a queue, if any. */
  function Head(q: seq<Pid>): Option<Pid>
  {
    if |q| == 0 then None else Some(q[0])
  }

  /** The queue without its head. */
  function Tail(q: seq<Pid>): seq<Pid>
  {
    if |q| == 0 then [] else q[1..]
  }

  /**
   * schedule leaves a running process with quantum left alone.  Otherwise the
   * expired process goes to the tail (if a node is left; else it is dropped),
   * the head runs, and only a change of process restarts the quantum and
   * counts a context switch.
   */
  lemma ScheduleDispatch(s: RR)
    requires Indexed(s)
    ensures s.current.Some? && s.remainingQuantum != 0 ==> ScheduleStep(s) == s
    ensures s.current.None? || s.remainingQuantum == 0 ==>
      var r := ScheduleStep(s);
      r.current == Head(PickQueue(s)) && ReadyProcesses(r) == Tail(PickQueue(s))
      && r.blocked == s.blocked && r.processCount == s.processCount
      && (r.current != s.current ==>
            r.remainingQuantum == s.timeQuantum && r.contextSwitches == AddU32(s.contextSwitches, 1))
      && (r.current == s.current ==>
            r.remainingQuantum == s.remainingQuantum && r.contextSwitches == s.contextSwitches)
  {
    if s.current.None? || s.remainingQuantum == 0 {
      var s1 := if s.current.Some? then Requeue(s, s.current.value) else s;
      if s.current.Some? {
        RequeueAppends(s, s.current.value);
      }
      assert ReadyProcesses(s1) == PickQueue(s);
      NextTakesHead(s1);
    }
  }

  /** A lone process whose quantum ends runs again, but its quantum stays 0 and no switch is counted. */
  lemma LoneProcessKeepsZeroQuantum(s: RR, p: Pid)
    requires Indexed(s) && s.current == Some(p) && s.remainingQuantum == 0
    requires |s.ready| == 0 && s.nodeIndex < POOL_SIZE
    ensures var r := ScheduleStep(s);
      r.current == Some(p) && r.remainingQuantum == 0 && r.contextSwitches == s.contextSwitches
      && |r.ready| == 0 && r.nodeIndex == s.nodeIndex + 1
  {
    ScheduleDispatch(s);
    RequeueAppends(s, p);
  }

  /** With the pool used up, an expiring process is on no list afterwards: it is silently dropped. */
  lemma ExpiredDroppedWhenPoolEmpty(s: RR, p: Pid)
    requires Indexed(s) && s.current == Some(p) && s.remainingQuantum == 0 && s.nodeIndex == POOL_SIZE
    ensures var r := ScheduleStep(s);
      ReadyProcesses(r) == Tail(ReadyProcesses(s)) && r.blocked == s.blocked && r.current == Head(ReadyProcesses(s))
  {
    ScheduleDispatch(s);
  }

  /**
   * yield puts the running process at the tail (if a node is left), then the
   * head of the queue runs with a fresh quantum and a switch counted.
   */
  lemma YieldDispatch(s: RR)
    requires Indexed(s) && s.current.Some?
    ensures var r := YieldStep(s);
      r.current == Head(PickQueue(s)) && ReadyProcesses(r) == Tail(PickQueue(s)) && r.blocked == s.blocked
      && (r.current.Some? ==> r.remainingQuantum == s.timeQuantum && r.contextSwitches == AddU32(s.contextSwitches, 1))
      && (r.current.None? ==> r.remainingQuantum == 0 && r.contextSwitches == s.contextSwitches)
  {
    var p := s.current.value;
    RequeueAppends(s, p);
    var s1 := Requeue(s, p).(current := None, remainingQuantum := 0);
    assert ReadyProcesses(s1) == ReadyProcesses(Requeue(s, p));
    ScheduleDispatch(s1);
    assert PickQueue(s1) == PickQueue(s);
  }

  // ---------------------------------------------------------------------------
  // The timer tick
  // ---------------------------------------------------------------------------

  /** A list with no node twice. */
  predicate NoRepeats(l: seq<nat>)
  {
    forall i, j :: 0 <= i < j < |l| ==> l[i] != l[j]
  }

  /** Exclusive states have a ready queue with no node twice. */
  lemma ExclusiveReadyNoRepeats(s: RR)
    requires Exclusive(s)
    ensures NoRepeats(s.ready)
  {
    forall i, j | 0 <= i < j < |s.ready|
      ensures s.ready[i] != s.ready[j]
    {
      var l := s.ready + s.blocked;
      assert l == l[..j] + l[j..];
      assert multiset(l) == multiset(l[..j]) + multiset(l[j..]);
      assert l[i] in multiset(l[..j]) && l[j] in multiset(l[j..]);
      assert multiset(l)[l[i]] <= 1;
    }
  }

  /** The wait-time walk adds one to each listed node's wait and touches nothing else. */
  lemma {:induction false} WaitedBumps(pool: seq<Node>, list: seq<nat>)
    requires forall i :: 0 <= i < |list| ==> list[i] < |pool|
    requires NoRepeats(list)
    ensures forall n :: 0 <= n < |pool| ==>
      Waited(pool, list)[n] == if n in list then pool[n].(waitTime := AddU32(pool[n].waitTime, 1)) else pool[n]
    decreases |list|
  {
    if |list| > 0 {
      var m := list[0];
      var pool' := pool[m := pool[m].(waitTime := AddU32(pool[m].waitTime, 1))];
      assert NoRepeats(list[1..]);
      WaitedBumps(pool', list[1..]);
      forall n | 0 <= n < |pool|
        ensures Waited(pool, list)[n] == if n in list then pool[n].(waitTime := AddU32(pool[n].waitTime, 1)) else pool[n]
      {
        assert n in list <==> n == m || n in list[1..];
        if n == m {
          assert m !in list[1..];
        }
      }
    }
  }

  /** The wait-time walk never changes which process a node wraps. */
  lemma {:induction false} WaitedKeepsProcesses(pool: seq<Node>, list: seq<nat>)
    requires forall i :: 0 <= i < |list| ==> list[i] < |pool|
    ensures forall n :: 0 <= n < |pool| ==> Waited(pool, list)[n].process == pool[n].process
    decreases |list|
  {
    if |list| > 0 {
      var m := list[0];
      WaitedKeepsProcesses(pool[m := pool[m].(waitTime := AddU32(pool[m].waitTime, 1))], list[1..]);
    }
  }

  /** schedule writes the pool at most at the next free index. */
  lemma SchedulePoolBelow(s: RR)
    requires Indexed(s)
    ensures forall n :: 0 <= n < s.nodeIndex ==> ScheduleStep(s).pool[n] == s.pool[n]
  {
  }

  /**
   * A tick advances the tick count, adds the ready-queue length to the total
   * wait, and makes every ready node wait one tick more.
   */
  lemma TickAccounting(s: RR)
    requires Indexed(s) && Exclusive(s)
    ensures var r := TickStep(s);
      r.currentTick == AddU32(s.currentTick, 1) && r.totalWaitTime == AddU32(s.totalWaitTime, |s.ready|)
      && (forall i :: 0 <= i < |s.ready| ==> r.pool[s.ready[i]].waitTime == AddU32(s.pool[s.ready[i]].waitTime, 1))
  {
    ExclusiveReadyNoRepeats(s);
    WaitedBumps(s.pool, s.ready);
    SchedulePoolBelow(Charged(s));
    forall i | 0 <= i < |s.ready|
      ensures TickStep(s).pool[s.ready[i]].waitTime == AddU32(s.pool[s.ready[i]].waitTime, 1)
    {
      assert s.ready[i] in s.ready && s.ready[i] < s.nodeIndex;
    }
  }

  /** k timer ticks in a row. */
  function Ticks(s: RR, k: nat): (r: RR)
    requires Indexed(s)
    ensures Indexed(r)
    decreases k
  {
    if k == 0 then s else Ticks(TickStep(s), k - 1)
  }

  /** While quantum is left, the running process keeps the processor and loses one unit per tick. */
  lemma {:induction false} TurnLasts(s: RR, k: nat)
    requires Indexed(s) && s.current.Some? && k < s.remainingQuantum
    ensures Ticks(s, k).current == s.current && Ticks(s, k).remainingQuantum == s.remainingQuantum - k
    decreases k
  {
    if k > 0 {
      var t := TickStep(s);
      assert t.current == s.current && t.remainingQuantum == s.remainingQuantum - 1;
      TurnLasts(t, k - 1);
    }
  }

  /**
   * On the tick that uses up the last unit, the process at the head of the
   * queue takes over with a full quantum and the expired one goes to the tail.
   */
  lemma TurnEnds(s: RR, p: Pid)
    requires Indexed(s) && s.current == Some(p) && s.remainingQuantum == 1
    requires |s.ready| > 0 && ReadyProcesses(s)[0] != p && s.nodeIndex < POOL_SIZE
    ensures var r := TickStep(s);
      r.current == Some(ReadyProcesses(s)[0]) && r.remainingQuantum == s.timeQuantum
      && ReadyProcesses(r) == ReadyProcesses(s)[1..] + [p]
      && r.contextSwitches == AddU32(s.contextSwitches, 1)
  {
    var s3 := Charged(s);
    WaitedKeepsProcesses(s.pool, s.ready);
    assert ReadyProcesses(s3) == ReadyProcesses(s);
    ScheduleDispatch(s3);
  }

  // ---------------------------------------------------------------------------
  // Blocking, unblocking and removal
  // ---------------------------------------------------------------------------

  /** Blocking a ready process moves its first ready node, unchanged, to the head of the blocked list. */
  lemma BlockMovesReadyNode(s: RR, p: Pid)
    requires Indexed(s) && Some(p) != s.current && FindIn(s.pool, s.ready, p).Some?
    ensures var i := FindIn(s.pool, s.ready, p).value; var r := BlockStep(s, Some(p));
      ReadyProcesses(r) == ReadyProcesses(s)[..i] + ReadyProcesses(s)[i + 1..]
      && r.blocked == [s.ready[i]] + s.blocked && Processes(r.pool, r.blocked)[0] == p
      && r.pool == s.pool && r.current == s.current
  {
    var i := FindIn(s.pool, s.ready, p).value;
    ProcessesRemoveAt(s.pool, s.ready, i);
  }

  /** What block does to a process found only inside the blocked list. */
  lemma BlockBlockedShape(s: RR, p: Pid, j: nat)
    requires Indexed(s) && Some(p) != s.current && FindIn(s.pool, s.ready, p).None?
    requires FindIn(s.pool, s.blocked, p) == Some(j) && Unlinkable(s, p)
    ensures BlockStep(s, Some(p)) == s.(blocked := [s.blocked[j]] + RemoveAt(s.blocked, j))
  {
  }

  /** What block does to a ready process that is not running. */
  lemma BlockReadyShape(s: RR, p: Pid, i: nat)
    requires Indexed(s) && Some(p) != s.current && FindIn(s.pool, s.ready, p) == Some(i)
    ensures BlockStep(s, Some(p)) == s.(ready := RemoveAt(s.ready, i), blocked := [s.ready[i]] + s.blocked)
  {
  }

  /** What remove does to a process found only inside the blocked list. */
  lemma RemoveBlockedShape(s: RR, p: Pid, j: nat)
    requires Indexed(s) && Some(p) != s.current && FindIn(s.pool, s.ready, p).None?
    requires FindIn(s.pool, s.blocked, p) == Some(j) && Unlinkable(s, p)
    ensures RemoveStep(s, Some(p)) == s.(blocked := RemoveAt(s.blocked, j), processCount := SubU32(s.processCount, 1))
  {
  }

  /** What remove does to a ready process that is not running. */
  lemma RemoveReadyShape(s: RR, p: Pid, i: nat)
    requires Indexed(s) && Some(p) != s.current && FindIn(s.pool, s.ready, p) == Some(i)
    ensures RemoveStep(s, Some(p)) == s.(ready := RemoveAt(s.ready, i), processCount := SubU32(s.processCount, 1))
  {
  }

  /**
   * Blocking a process whose only node lies inside the blocked list, with a
   * neighbour on each side, moves that node to the blocked head and keeps the
   * other blocked nodes in order.
   */
  lemma BlockMovesBlockedNode(s: RR, p: Pid, j: nat)
    requires Indexed(s) && Some(p) != s.current && FindIn(s.pool, s.ready, p).None?
    requires FindIn(s.pool, s.blocked, p) == Some(j) && Unlinkable(s, p)
    ensures BlockStep(s, Some(p)).blocked == [s.blocked[j]] + s.blocked[..j] + s.blocked[j + 1..]
    ensures s.pool[BlockStep(s, Some(p)).blocked[0]].process == p
    ensures BlockStep(s, Some(p)) == s.(blocked := BlockStep(s, Some(p)).blocked)
  {
    BlockBlockedShape(s, p, j);
    assert RemoveAt(s.blocked, j) == s.blocked[..j] + s.blocked[j + 1..];
  }

  /**
   * Blocking the running process takes it off the processor but onto no
   * list, so a later unblock of it finds nothing and changes nothing.
   */
  lemma BlockRunningIsLost(s: RR, p: Pid)
    requires Indexed(s) && s.current == Some(p)
    requires FindIn(s.pool, s.ready, p).None? && FindIn(s.pool, s.blocked, p).None?
    ensures var r := BlockStep(s, Some(p));
      r.current != Some(p) && r.blocked == s.blocked && UnblockStep(r, Some(p)) == r
  {
    var s1 := s.(current := None, remainingQuantum := 0);
    ScheduleDispatch(s1);
    var r := BlockStep(s, Some(p));
    assert ReadyProcesses(r) == Tail(ReadyProcesses(s));
    assert r.pool == s.pool;
  }

  /**
   * unblock moves the process's first blocked node to the ready tail with its
   * wait time cleared; a process not on the blocked list is left alone.
   */
  lemma UnblockRequeues(s: RR, p: Pid)
    requires Indexed(s)
    ensures FindIn(s.pool, s.blocked, p).None? ==> UnblockStep(s, Some(p)) == s
    ensures FindIn(s.pool, s.blocked, p).Some? ==>
      var i := FindIn(s.pool, s.blocked, p).value; var n := s.blocked[i]; var r := UnblockStep(s, Some(p));
      ReadyProcesses(r) == ReadyProcesses(s) + [p] && r.ready == s.ready + [n]
      && r.pool[n].waitTime == 0 && r.blocked == RemoveAt(s.blocked, i)
      && r.current == s.current && r.processCount == s.processCount
  {
    if FindIn(s.pool, s.blocked, p).Some? {
      var i := FindIn(s.pool, s.blocked, p).value;
      var n := s.blocked[i];
      var r := UnblockStep(s, Some(p));
      forall k | 0 <= k < |s.ready|
        ensures ReadyProcesses(r)[k] == ReadyProcesses(s)[k]
      {
        assert r.pool[s.ready[k]].process == s.pool[s.ready[k]].process;
      }
    }
  }

  /**
   * remove unlinks the first ready node of a process that is not running and
   * counts one process fewer; removing the running process only empties the
   * running slot, and a process with no listed node is not touched.
   */
  lemma RemoveUnlinks(s: RR, p: Pid)
    requires Indexed(s) && (Some(p) != s.current ==> Unlinkable(s, p))
    ensures FindIn(s.pool, s.ready, p).None? && FindIn(s.pool, s.blocked, p).None? ==> RemoveStep(s, Some(p)) == s
    ensures Some(p) != s.current && FindIn(s.pool, s.ready, p).Some? ==>
      var i := FindIn(s.pool, s.ready, p).value; var r := RemoveStep(s, Some(p));
      ReadyProcesses(r) == ReadyProcesses(s)[..i] + ReadyProcesses(s)[i + 1..]
      && r.blocked == s.blocked && r.processCount == SubU32(s.processCount, 1)
    ensures Some(p) != s.current && FindIn(s.pool, s.ready, p).None? && FindIn(s.pool, s.blocked, p).Some? ==>
      var j := FindIn(s.pool, s.blocked, p).value; var r := RemoveStep(s, Some(p));
      Processes(r.pool, r.blocked) == Processes(s.pool, s.blocked)[..j] + Processes(s.pool, s.blocked)[j + 1..]
      && r.ready == s.ready && r.processCount == SubU32(s.processCount, 1)
    ensures Some(p) == s.current && (FindIn(s.pool, s.ready, p).Some? || FindIn(s.pool, s.blocked, p).Some?) ==>
      var r := RemoveStep(s, Some(p));
      r.current.None? && r.ready == s.ready && r.blocked == s.blocked && r.processCount == SubU32(s.processCount, 1)
  {
    if Some(p) != s.current && FindIn(s.pool, s.ready, p).Some? {
      RemoveReadyUnlinks(s, p, FindIn(s.pool, s.ready, p).value);
    } else if Some(p) != s.current && FindIn(s.pool, s.blocked, p).Some? {
      RemoveBlockedUnlinks(s, p, FindIn(s.pool, s.blocked, p).value);
    } else if FindIn(s.pool, s.ready, p).Some? || FindIn(s.pool, s.blocked, p).Some? {
      assert RemoveStep(s, Some(p)) == s.(current := None, remainingQuantum := 0, processCount := SubU32(s.processCount, 1));
    }
  }

  lemma RemoveReadyUnlinks(s: RR, p: Pid, i: nat)
    requires Indexed(s) && Some(p) != s.current && FindIn(s.pool, s.ready, p) == Some(i)
    ensures var r := RemoveStep(s, Some(p));
      ReadyProcesses(r) == ReadyProcesses(s)[..i] + ReadyProcesses(s)[i + 1..]
      && r.blocked == s.blocked && r.processCount == SubU32(s.processCount, 1)
  {
    RemoveReadyShape(s, p, i);
    ProcessesRemoveAt(s.pool, s.ready, i);
  }

  lemma RemoveBlockedUnlinks(s: RR, p: Pid, j: nat)
    requires Indexed(s) && Some(p) != s.current && FindIn(s.pool, s.ready, p).None?
    requires FindIn(s.pool, s.blocked, p) == Some(j) && Unlinkable(s, p)
    ensures var r := RemoveStep(s, Some(p));
      Processes(r.pool, r.blocked) == Processes(s.pool, s.blocked)[..j] + Processes(s.pool, s.blocked)[j + 1..]
      && r.ready == s.ready && r.processCount == SubU32(s.processCount, 1)
  {
    RemoveBlockedShape(s, p, j);
    ProcessesRemoveAt(s.pool, s.blocked, j);
  }

  // ---------------------------------------------------------------------------
  // No node is on two lists: every operation keeps it so
  // ---------------------------------------------------------------------------

  /** The nodes on the two lists together. */
  function Listed(s: RR): multiset<nat>
  {
    multiset(s.ready + s.blocked)
  }

  /** Fewer listed nodes cannot break exclusivity. */
  lemma ExclusiveShrinks(s: RR, r: RR)
    requires Exclusive(s) && Listed(r) <= Listed(s)
    ensures Exclusive(r)
  {
    forall n
      ensures multiset(r.ready + r.blocked)[n] <= 1
    {
      assert Listed(r)[n] <= Listed(s)[n];
    }
  }

  /** Listing the next unused node adds one that was on no list. */
  lemma ExclusiveGrows(s: RR, r: RR)
    requires Indexed(s) && Exclusive(s) && Listed(r) == Listed(s) + multiset{s.nodeIndex}
    ensures Exclusive(r)
  {
    assert s.nodeIndex !in s.ready + s.blocked;
    forall n
      ensures multiset(r.ready + r.blocked)[n] <= 1
    {
      assert Listed(r)[n] == Listed(s)[n] + multiset{s.nodeIndex}[n];
    }
  }

  lemma RequeueKeepsExclusive(s: RR, p: Pid)
    requires Indexed(s) && Exclusive(s)
    ensures Exclusive(Requeue(s, p))
  {
    if s.nodeIndex < POOL_SIZE {
      var r := Requeue(s, p);
      assert r.ready + r.blocked == s.ready + [s.nodeIndex] + s.blocked;
      ExclusiveGrows(s, r);
    }
  }

  lemma NextKeepsExclusive(s: RR)
    requires Indexed(s) && Exclusive(s)
    ensures Exclusive(NextStep(s).0)
  {
    if |s.ready| > 0 {
      assert s.ready + s.blocked == [s.ready[0]] + (s.ready[1..] + s.blocked);
      ExclusiveShrinks(s, NextStep(s).0);
    }
  }

  lemma ScheduleKeepsExclusive(s: RR)
    requires Indexed(s) && Exclusive(s)
    ensures Exclusive(ScheduleStep(s))
  {
    if s.current.None? || s.remainingQuantum == 0 {
      var s1 := if s.current.Some? then Requeue(s, s.current.value) else s;
      if s.current.Some? {
        RequeueKeepsExclusive(s, s.current.value);
      }
      NextKeepsExclusive(s1);
    }
  }

  lemma AddKeepsExclusive(s: RR, proc: Option<Pid>)
    requires Indexed(s) && Exclusive(s)
    ensures Exclusive(AddStep(s, proc))
  {
    if proc.Some? && s.nodeIndex < POOL_SIZE {
      var r := AddStep(s, proc);
      assert r.ready + r.blocked == s.ready + [s.nodeIndex] + s.blocked;
      ExclusiveGrows(s, r);
    }
  }

  lemma YieldKeepsExclusive(s: RR)
    requires Indexed(s) && Exclusive(s)
    ensures Exclusive(YieldStep(s))
  {
    if s.current.Some? {
      RequeueKeepsExclusive(s, s.current.value);
      var s1 := Requeue(s, s.current.value).(current := None, remainingQuantum := 0);
      assert Listed(s1) == Listed(Requeue(s, s.current.value));
      ScheduleKeepsExclusive(s1);
    } else {
      ScheduleKeepsExclusive(s);
    }
  }

  lemma BlockKeepsExclusive(s: RR, proc: Option<Pid>)
    requires Indexed(s) && Exclusive(s)
    requires proc.Some? && Some(proc.value) != s.current ==> Unlinkable(s, proc.value)
    ensures Exclusive(BlockStep(s, proc))
  {
    if proc.Some? {
      if Some(proc.value) == s.current {
        var s1 := s.(current := None, remainingQuantum := 0);
        assert Listed(s1) == Listed(s);
        ScheduleKeepsExclusive(s1);
      } else if FindIn(s.pool, s.ready, proc.value).Some? {
        var i := FindIn(s.pool, s.ready, proc.value).value;
        var r := BlockStep(s, proc);
        assert Listed(r) == multiset(RemoveAt(s.ready, i)) + multiset{s.ready[i]} + multiset(s.blocked);
        ExclusiveShrinks(s, r);
      } else if FindIn(s.pool, s.blocked, proc.value).Some? {
        var j := FindIn(s.pool, s.blocked, proc.value).value;
        BlockBlockedShape(s, proc.value, j);
        MoveToFrontListed(s, j);
        ExclusiveShrinks(s, BlockStep(s, proc));
      }
    }
  }

  /** Moving a blocked node to the blocked head keeps the listed nodes. */
  lemma MoveToFrontListed(s: RR, j: nat)
    requires j < |s.blocked|
    ensures Listed(s.(blocked := [s.blocked[j]] + RemoveAt(s.blocked, j))) == Listed(s)
  {
    var b := [s.blocked[j]] + RemoveAt(s.blocked, j);
    assert s.ready + b == (s.ready + [s.blocked[j]]) + RemoveAt(s.blocked, j);
    assert multiset(b) == multiset(s.blocked);
  }

  /** Unlinking a blocked node leaves fewer listed nodes. */
  lemma UnlinkBlockedListed(s: RR, j: nat)
    requires j < |s.blocked|
    ensures Listed(s.(blocked := RemoveAt(s.blocked, j), processCount := SubU32(s.processCount, 1))) <= Listed(s)
  {
    assert multiset(RemoveAt(s.blocked, j)) <= multiset(s.blocked);
  }

  lemma UnblockKeepsExclusive(s: RR, proc: Option<Pid>)
    requires Indexed(s) && Exclusive(s)
    ensures Exclusive(UnblockStep(s, proc))
  {
    if proc.Some? && FindIn(s.pool, s.blocked, proc.value).Some? {
      var i := FindIn(s.pool, s.blocked, proc.value).value;
      var r := UnblockStep(s, proc);
      assert Listed(r) == multiset(s.ready) + multiset{s.blocked[i]} + multiset(RemoveAt(s.blocked, i));
      ExclusiveShrinks(s, r);
    }
  }

  lemma RemoveKeepsExclusive(s: RR, proc: Option<Pid>)
    requires Indexed(s) && Exclusive(s)
    requires proc.Some? && Some(proc.value) != s.current ==> Unlinkable(s, proc.value)
    ensures Exclusive(RemoveStep(s, proc))
  {
    if proc.Some? && Some(proc.value) != s.current && FindIn(s.pool, s.ready, proc.value).Some? {
      var i := FindIn(s.pool, s.ready, proc.value).value;
      var r := RemoveStep(s, proc);
      assert r.ready == RemoveAt(s.ready, i) && r.blocked == s.blocked;
      assert Listed(r) == multiset(RemoveAt(s.ready, i)) + multiset(s.blocked);
      ExclusiveShrinks(s, r);
    } else if proc.Some? && Some(proc.value) != s.current && FindIn(s.pool, s.blocked, proc.value).Some? {
      var j := FindIn(s.pool, s.blocked, proc.value).value;
      RemoveBlockedShape(s, proc.value, j);
      UnlinkBlockedListed(s, j);
      ExclusiveShrinks(s, RemoveStep(s, proc));
    }
  }

  lemma TickKeepsExclusive(s: RR)
    requires Indexed(s) && Exclusive(s)
    ensures Exclusive(TickStep(s))
  {
    assert Listed(Charged(s)) == Listed(s);
    ScheduleKeepsExclusive(Charged(s));
  }

  // ---------------------------------------------------------------------------
  // Runs of operations: the pool lasts for the module's whole lifetime
  // ---------------------------------------------------------------------------

  /** The state-changing entries of round_robin_scheduler_ops, plus rr_set_time_quantum. */
  datatype Op =
    | OpInit | OpShutdown | OpAdd(proc: Option<Pid>) | OpRemove(proc: Option<Pid>)
    | OpGetNext | OpSchedule | OpYield | OpBlock(proc: Option<Pid>) | OpUnblock(proc: Option<Pid>)
    | OpTick | OpSetQuantum(quantum: U32)

  /** Block and remove only of processes whose found node is not blocked. */
  predicate Allowed(s: RR, op: Op)
    requires Indexed(s)
  {
    match op
    case OpBlock(proc) => proc.Some? && Some(proc.value) != s.current ==> Unlinkable(s, proc.value)
    case OpRemove(proc) => proc.Some? && Some(proc.value) != s.current ==> Unlinkable(s, proc.value)
    case _ => true
  }

  function Step(s: RR, op: Op): (r: RR)
    requires Indexed(s) && Allowed(s, op)
    ensures Indexed(r)
  {
    match op
    case OpInit => InitStep(s)
    case OpShutdown => ShutdownStep(s)
    case OpAdd(proc) => AddStep(s, proc)
    case OpRemove(proc) => RemoveStep(s, proc)
    case OpGetNext => NextStep(s).0
    case OpSchedule => ScheduleStep(s)
    case OpYield => YieldStep(s)
    case OpBlock(proc) => BlockStep(s, proc)
    case OpUnblock(proc) => UnblockStep(s, proc)
    case OpTick => TickStep(s)
    case OpSetQuantum(q) => QuantumStep(s, q)
  }

  /** Every operation keeps each node on at most one list, once. */
  lemma StepKeepsExclusive(s: RR, op: Op)
    requires Indexed(s) && Allowed(s, op) && Exclusive(s)
    ensures Exclusive(Step(s, op))
  {
    match op
    case OpInit =>
    case OpShutdown =>
    case OpAdd(proc) => AddKeepsExclusive(s, proc);
    case OpRemove(proc) => RemoveKeepsExclusive(s, proc);
    case OpGetNext => NextKeepsExclusive(s);
    case OpSchedule => ScheduleKeepsExclusive(s);
    case OpYield => YieldKeepsExclusive(s);
    case OpBlock(proc) => BlockKeepsExclusive(s, proc);
    case OpUnblock(proc) => UnblockKeepsExclusive(s, proc);
    case OpTick => TickKeepsExclusive(s);
    case OpSetQuantum(q) =>
  }

  /** A node once handed out keeps wrapping the same process. */
  predicate KeepsNodes(s: RR, r: RR)
    requires Indexed(s) && Indexed(r)
  {
    s.nodeIndex <= r.nodeIndex && forall n :: 0 <= n < s.nodeIndex ==> r.pool[n].process == s.pool[n].process
  }

  lemma ScheduleKeepsNodes(s: RR)
    requires Indexed(s)
    ensures KeepsNodes(s, ScheduleStep(s))
  {
    SchedulePoolBelow(s);
  }

  lemma YieldKeepsNodes(s: RR)
    requires Indexed(s)
    ensures KeepsNodes(s, YieldStep(s))
  {
    if s.current.Some? {
      SchedulePoolBelow(Requeue(s, s.current.value).(current := None, remainingQuantum := 0));
    } else {
      SchedulePoolBelow(s);
    }
  }

  lemma BlockKeepsNodes(s: RR, proc: Option<Pid>)
    requires Indexed(s)
    requires proc.Some? && Some(proc.value) != s.current ==> Unlinkable(s, proc.value)
    ensures KeepsNodes(s, BlockStep(s, proc))
  {
    if proc.Some? && Some(proc.value) == s.current {
      SchedulePoolBelow(s.(current := None, remainingQuantum := 0));
    }
  }

  lemma TickKeepsNodes(s: RR)
    requires Indexed(s)
    ensures KeepsNodes(s, TickStep(s))
  {
    WaitedKeepsProcesses(s.pool, s.ready);
    SchedulePoolBelow(Charged(s));
  }

  /** No operation hands a node back or reuses one, init and shutdown included. */
  lemma StepKeepsNodes(s: RR, op: Op)
    requires Indexed(s) && Allowed(s, op)
    ensures KeepsNodes(s, Step(s, op))
  {
    match op
    case OpInit =>
    case OpShutdown =>
    case OpAdd(proc) =>
    case OpRemove(proc) =>
    case OpGetNext =>
    case OpSchedule => ScheduleKeepsNodes(s);
    case OpYield => YieldKeepsNodes(s);
    case OpBlock(proc) => BlockKeepsNodes(s, proc);
    case OpUnblock(proc) =>
    case OpTick => TickKeepsNodes(s);
    case OpSetQuantum(q) =>
  }

  /** The operations of a run each respect Allowed in the state they meet. */
  predicate RunAllowed(s: RR, ops: seq<Op>)
    requires Indexed(s)
    decreases |ops|
  {
    |ops| == 0 || (Allowed(s, ops[0]) && RunAllowed(Step(s, ops[0]), ops[1..]))
  }

  function Run(s: RR, ops: seq<Op>): (r: RR)
    requires Indexed(s) && RunAllowed(s, ops)
    ensures Indexed(r)
    decreases |ops|
  {
    if |ops| == 0 then s else Run(Step(s, ops[0]), ops[1..])
  }

  /** The add_process calls of a run that got a node. */
  function AddsServed(s: RR, ops: seq<Op>): nat
    requires Indexed(s) && RunAllowed(s, ops)
    decreases |ops|
  {
    if |ops| == 0 then 0
    else (if ops[0].OpAdd? && ops[0].proc.Some? && s.nodeIndex < POOL_SIZE then 1 else 0)
         + AddsServed(Step(s, ops[0]), ops[1..])
  }

  /**
   * Each served add uses up a node that nothing gives back, so however init,
   * shutdown and the other operations interleave, at most 64 adds are ever
   * served from the boot state.
   */
  lemma {:induction false} AddsBoundedByPool(s: RR, ops: seq<Op>)
    requires Indexed(s) && RunAllowed(s, ops)
    ensures s.nodeIndex + AddsServed(s, ops) <= Run(s, ops).nodeIndex <= POOL_SIZE
    decreases |ops|
  {
    if |ops| > 0 {
      StepKeepsNodes(s, ops[0]);
      AddsBoundedByPool(Step(s, ops[0]), ops[1..]);
    }
  }

  lemma AtMostPoolSizeAdds(ops: seq<Op>)
    requires RunAllowed(Boot(), ops)
    ensures AddsServed(Boot(), ops) <= POOL_SIZE
  {
    AddsBoundedByPool(Boot(), ops);
  }

  /** Exclusivity holds after any run from the boot state. */
  lemma {:induction false} RunKeepsExclusive(s: RR, ops: seq<Op>)
    requires Indexed(s) && RunAllowed(s, ops) && Exclusive(s)
    ensures Exclusive(Run(s, ops))
    decreases |ops|
  {
    if |ops| > 0 {
      StepKeepsExclusive(s, ops[0]);
      RunKeepsExclusive(Step(s, ops[0]), ops[1..]);
    }
  }

  // ---------------------------------------------------------------------------
  // The scheduler as the kernel holds it
  // ---------------------------------------------------------------------------

  /** Where find_process_node found a node: its position on the ready queue or the blocked list. */
  datatype Place = InReady(pos: nat) | InBlocked(pos: nat)

  /** find_process_node: the ready queue is searched first, then the blocked list. */
  function Locate(s: RR, p: Pid): (r: Option<Place>)
    requires Indexed(s)
    ensures r.None? <==> FindIn(s.pool, s.ready, p).None? && FindIn(s.pool, s.blocked, p).None?
  {
    match FindIn(s.pool, s.ready, p)
    case Some(i) => Some(InReady(i))
    case None =>
      match FindIn(s.pool, s.blocked, p)
      case Some(j) => Some(InBlocked(j))
      case None => None
  }

  /** rr_state together with the static node_pool and node_index of create_process_node. */
  class RoundRobin {
    const pool: array<Node>
    var nodeIndex: nat
    var ready: seq<nat>
    var blocked: seq<nat>
    var current: Option<Pid>
    var timeQuantum: U32
    var remainingQuantum: U32
    var processCount: U32
    var contextSwitches: U32
    var totalWaitTime: U32
    var currentTick: U32
    var initialized: bool

    function State(): RR
      reads this, pool
    {
      RR(pool[..], nodeIndex, ready, blocked, current, timeQuantum, remainingQuantum,
         processCount, contextSwitches, totalWaitTime, currentTick, initialized)
    }

    ghost predicate Valid()
      reads this, pool
    {
      Indexed(State())
    }

    /** The zero-initialized static state. */
    constructor ()
      ensures Valid() && State() == Boot()
    {
      pool := new Node[POOL_SIZE](_ => Node(0, 0));
      nodeIndex := 0;
      ready := [];
      blocked := [];
      current := None;
      timeQuantum := 0;
      remainingQuantum := 0;
      processCount := 0;
      contextSwitches := 0;
      totalWaitTime := 0;
      currentTick := 0;
      initialized := false;
      new;
      assert pool[..] == seq(POOL_SIZE, _ => Node(0, 0));
    }

    method CreateProcessNode(p: Pid) returns (node: Option<nat>)
      requires Valid()
      modifies this, pool
      ensures Valid() && (State(), node) == CreateNode(old(State()), p)
    {
      if nodeIndex >= POOL_SIZE {
        return None;
      }
      pool[nodeIndex] := Node(p, 0);
      node := Some(nodeIndex);
      nodeIndex := nodeIndex + 1;
    }

    method AddToReadyQueue(n: nat)
      modifies this
      ensures State() == old(State()).(ready := old(ready) + [n])
    {
      ready := ready + [n];
    }

    method RemoveFromReadyQueue() returns (node: Option<nat>)
      modifies this
      ensures |old(ready)| == 0 ==> node.None? && State() == old(State())
      ensures |old(ready)| > 0 ==> node == Some(old(ready)[0]) && State() == old(State()).(ready := old(ready)[1..])
    {
      if |ready| == 0 {
        return None;
      }
      node := Some(ready[0]);
      ready := ready[1..];
    }

    method RemoveNodeFromQueue(i: nat)
      requires i < |ready|
      modifies this
      ensures State() == old(State()).(ready := RemoveAt(old(ready), i))
    {
      ready := RemoveAt(ready, i);
    }

    method FindProcessNode(p: Pid) returns (place: Option<Place>)
      requires Valid()
      ensures place == Locate(State(), p)
    {
      var i := 0;
      while i < |ready|
        invariant 0 <= i <= |ready|
        invariant forall j :: 0 <= j < i ==> pool[ready[j]].process != p
      {
        if pool[ready[i]].process == p {
          return Some(InReady(i));
        }
        i := i + 1;
      }
      i := 0;
      while i < |blocked|
        invariant 0 <= i <= |blocked|
        invariant forall j :: 0 <= j < i ==> pool[blocked[j]].process != p
      {
        if pool[blocked[i]].process == p {
          return Some(InBlocked(i));
        }
        i := i + 1;
      }
      return None;
    }

    method Init() returns (rc: int)
      requires Valid()
      modifies this
      ensures Valid() && rc == 0 && State() == InitStep(old(State()))
    {
      if initialized {
        return 0;
      }
      ready := [];
      blocked := [];
      current := None;
      timeQuantum := DEFAULT_TIME_QUANTUM;
      remainingQuantum := 0;
      processCount := 0;
      contextSwitches := 0;
      totalWaitTime := 0;
      currentTick := 0;
      initialized := true;
      return 0;
    }

    method Shutdown()
      requires Valid()
      modifies this
      ensures Valid() && State() == ShutdownStep(old(State()))
    {
      ready := [];
      blocked := [];
      current := None;
      processCount := 0;
      initialized := false;
    }

    method AddProcess(proc: Option<Pid>)
      requires Valid()
      modifies this, pool
      ensures Valid() && State() == AddStep(old(State()), proc)
    {
      if proc.None? {
        return;
      }
      var node := CreateProcessNode(proc.value);
      if node.None? {
        return;
      }
      AddToReadyQueue(node.value);
      processCount := AddU32(processCount, 1);
    }

    method RemoveProcess(proc: Option<Pid>)
      requires Valid()
      requires proc.Some? && Some(proc.value) != current ==> Unlinkable(State(), proc.value)
      modifies this
      ensures Valid() && State() == RemoveStep(old(State()), proc)
    {
      if proc.None? {
        return;
      }
      ghost var s0 := State();
      var place := FindProcessNode(proc.value);
      if place.None? {
        return;
      }
      if Some(proc.value) == current {
        current := None;
        remainingQuantum := 0;
      } else if place.value.InReady? {
        RemoveReadyShape(s0, proc.value, place.value.pos);
        RemoveNodeFromQueue(place.value.pos);
      } else {
        RemoveBlockedShape(s0, proc.value, place.value.pos);
        blocked := RemoveAt(blocked, place.value.pos);
      }
      processCount := SubU32(processCount, 1);
    }

    method GetNext() returns (next: Option<Pid>)
      requires Valid()
      modifies this
      ensures Valid() && (State(), next) == NextStep(old(State()))
    {
      var node := RemoveFromReadyQueue();
      next := if node.Some? then Some(pool[node.value].process) else None;
    }

    method Schedule()
      requires Valid()
      modifies this, pool
      ensures Valid() && State() == ScheduleStep(old(State()))
    {
      if current.None? || remainingQuantum == 0 {
        if current.Some? && remainingQuantum == 0 {
          var node := CreateProcessNode(current.value);
          if node.Some? {
            AddToReadyQueue(node.value);
          }
        }
        var next := GetNext();
        if next != current {
          current := next;
          remainingQuantum := timeQuantum;
          contextSwitches := AddU32(contextSwitches, 1);
        }
      }
    }

    method Yield()
      requires Valid()
      modifies this, pool
      ensures Valid() && State() == YieldStep(old(State()))
    {
      if current.Some? {
        var node := CreateProcessNode(current.value);
        if node.Some? {
          AddToReadyQueue(node.value);
        }
        current := None;
        remainingQuantum := 0;
      }
      Schedule();
    }

    method Block(proc: Option<Pid>)
      requires Valid()
      requires proc.Some? && Some(proc.value) != current ==> Unlinkable(State(), proc.value)
      modifies this, pool
      ensures Valid() && State() == BlockStep(old(State()), proc)
    {
      if proc.None? {
        return;
      }
      if Some(proc.value) == current {
        current := None;
        remainingQuantum := 0;
        Schedule();
      } else {
        BlockListed(proc.value);
      }
    }

    /** The part of rr_block for a process that is not running: its node moves to the blocked head. */
    method BlockListed(p: Pid)
      requires Valid() && Some(p) != current && Unlinkable(State(), p)
      modifies this
      ensures Valid() && State() == BlockStep(old(State()), Some(p))
    {
      ghost var s0 := State();
      var place := FindProcessNode(p);
      if place.Some? {
        if place.value.InReady? {
          BlockReadyShape(s0, p, place.value.pos);
          var n := ready[place.value.pos];
          RemoveNodeFromQueue(place.value.pos);
          blocked := [n] + blocked;
        } else {
          BlockBlockedShape(s0, p, place.value.pos);
          MoveBlockedToFront(place.value.pos);
        }
      }
    }

    /** The splice of a blocked node that has a neighbour on each side, then its push at the blocked head. */
    method MoveBlockedToFront(j: nat)
      requires Valid() && j < |blocked|
      modifies this
      ensures Valid() && State() == old(State()).(blocked := [old(blocked)[j]] + RemoveAt(old(blocked), j))
    {
      var n := blocked[j];
      blocked := [n] + RemoveAt(blocked, j);
      assert forall k :: 0 <= k < |blocked| ==> blocked[k] in multiset(old(blocked));
    }

    method Unblock(proc: Option<Pid>)
      requires Valid()
      modifies this, pool
      ensures Valid() && State() == UnblockStep(old(State()), proc)
    {
      if proc.None? {
        return;
      }
      var found := FindBlockedNode(proc.value);
      if found.None? {
        return;
      }
      var i := found.value;
      var n := blocked[i];
      blocked := RemoveAt(blocked, i);
      pool[n] := pool[n].(waitTime := 0);
      AddToReadyQueue(n);
    }

    /** The walk of rr_unblock over the blocked list, to the first node of p. */
    method FindBlockedNode(p: Pid) returns (r: Option<nat>)
      requires Valid()
      ensures r == FindIn(pool[..], blocked, p)
    {
      var i := 0;
      while i < |blocked| && pool[blocked[i]].process != p
        invariant 0 <= i <= |blocked|
        invariant forall j :: 0 <= j < i ==> pool[blocked[j]].process != p
      {
        i := i + 1;
      }
      var expected := FindIn(pool[..], blocked, p);
      if i == |blocked| {
        assert expected.None?;
        return None;
      }
      assert expected.Some? && expected.value == i;
      return Some(i);
    }

    method TimerTick()
      requires Valid()
      modifies this, pool
      ensures Valid() && State() == TickStep(old(State()))
    {
      Charge();
      if remainingQuantum == 0 {
        Schedule();
      }
    }

    /** The part of rr_timer_tick before the scheduler is called. */
    method Charge()
      requires Valid()
      modifies this, pool
      ensures Valid() && State() == Charged(old(State()))
    {
      currentTick := AddU32(currentTick, 1);
      if current.Some? && remainingQuantum > 0 {
        remainingQuantum := remainingQuantum - 1;
      }
      WaitReady();
    }

    /** The wait-time walk over the ready queue. */
    method WaitReady()
      requires Valid()
      modifies pool, this`totalWaitTime
      ensures pool[..] == Waited(old(pool[..]), ready)
      ensures totalWaitTime == AddU32(old(totalWaitTime), |ready|)
    {
      ghost var before := pool[..];
      var k := 0;
      var waited := totalWaitTime;
      while k < |ready|
        invariant 0 <= k <= |ready|
        invariant Waited(pool[..], ready[k..]) == Waited(before, ready)
        invariant waited == AddU32(totalWaitTime, k)
        modifies pool
      {
        var n := ready[k];
        ghost var p0 := pool[..];
        pool[n] := pool[n].(waitTime := AddU32(pool[n].waitTime, 1));
        WaitedStep(p0, pool[..], ready, k);
        AddU32Succ(totalWaitTime, k);
        waited := AddU32(waited, 1);
        k := k + 1;
      }
      totalWaitTime := waited;
    }

    /** Every process gets the same quantum. */
    method GetTimeSlice(proc: Option<Pid>) returns (r: U32)
      ensures r == timeQuantum
    {
      return timeQuantum;
    }

    /** Priorities are ignored. */
    method SetPriority(proc: Option<Pid>, priority: int)
    {
    }

    method GetPriority(proc: Option<Pid>) returns (r: int)
      ensures r == 0
    {
      return 0;
    }

    method GetContextSwitches() returns (r: U32)
      ensures r == contextSwitches
    {
      return contextSwitches;
    }

    method GetAvgWaitTime() returns (r: U32)
      ensures r == AvgWait(State())
    {
      if currentTick == 0 {
        return 0;
      }
      return totalWaitTime / currentTick;
    }

    method SetTimeQuantum(quantum: U32)
      requires Valid()
      modifies this
      ensures Valid() && State() == QuantumStep(old(State()), quantum)
    {
      if quantum >= MIN_TIME_QUANTUM && quantum <= MAX_TIME_QUANTUM {
        timeQuantum := quantum;
        if current.Some? && remainingQuantum > 0 {
          remainingQuantum := quantum;
        }
      }
    }

    method GetTimeQuantum() returns (r: U32)
      ensures r == timeQuantum
    {
      return timeQuantum;
    }
  }

  /** One step of the wait-time walk, stated on the exact terms of the loop. */
  lemma WaitedStep(p0: seq<Node>, p1: seq<Node>, list: seq<nat>, k: nat)
    requires k < |list| && list[k] < |p0|
    requires forall i :: 0 <= i < |list| ==> list[i] < |p0|
    requires p1 == p0[list[k] := p0[list[k]].(waitTime := AddU32(p0[list[k]].waitTime, 1))]
    ensures Waited(p1, list[k + 1..]) == Waited(p0, list[k..])
  {
    assert list[k..][0] == list[k] && list[k..][1..] == list[k + 1..];
  }
}
