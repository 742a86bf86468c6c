/**
 * The priority scheduler with aging (kernel/scheduler/priority_scheduler.c):
 * 32 FIFO ready queues, one per priority level, a blocked list, one running
 * process, and an aging pass every 100th tick that lifts long-waiting ready
 * processes one level up.
 *
 * Unlike the round-robin scheduler this one links the caller's process
 * records themselves, and it writes their fields (priority, age, slices,
 * flags).  The records are a map from process identity (the process_t
 * pointer) to their fields; the linked lists are sequences of identities in
 * list order: each ready queue from head to tail, the blocked list from its
 * head.
 */
module PriorityScheduler {
  import opened Wrappers

  const MAX_PRIORITY: U32 := 31
  const DEFAULT_PRIORITY: U32 := 15
  const AGING_INTERVAL: U32 := 100

  /** ready_queues has MAX_PRIORITY + 1 levels. */
  const LEVELS: nat := 32

  /** A process_t pointer, by identity. */
  type Pid = nat

  /** The fields of a process record the scheduler reads and writes, without its links. */
  datatype Proc = Proc(
    priority: U32,
    originalPriority: U32,
    age: U32,
    timeSlice: U32,
    remainingSlice: U32,
    isRunning: bool,
    isBlocked: bool)

  /** priority_state together with the process records it reaches. */
  datatype PS = PS(
    procs: map<Pid, Proc>,
    queues: seq<seq<Pid>>,
    current: Option<Pid>,
    blocked: seq<Pid>,
    totalProcesses: U32,
    contextSwitches: U32,
    totalWaitTime: U32,
    currentTick: U32,
    initialized: bool)

  /** Every record has a priority and an original priority that index a ready queue. */
  predicate RecordsOk(procs: map<Pid, Proc>)
  {
    forall p :: p in procs ==> procs[p].priority <= MAX_PRIORITY && procs[p].originalPriority <= MAX_PRIORITY
  }

  /** Every queued process has a record. */
  predicate QueuesIn(qs: seq<seq<Pid>>, procs: map<Pid, Proc>)
  {
    forall L, i :: 0 <= L < |qs| && 0 <= i < |qs[L]| ==> qs[L][i] in procs
  }

  /**
   * The shape every operation keeps: 32 levels, and every process the
   * scheduler can reach through a list or the running slot has a record.
   */
  predicate WellFormed(s: PS)
  {
    |s.queues| == LEVELS
    && RecordsOk(s.procs)
    && QueuesIn(s.queues, s.procs)
    && (forall i :: 0 <= i < |s.blocked| ==> s.blocked[i] in s.procs)
    && (s.current.Some? ==> s.current.value in s.procs)
  }

  /** 32 empty queues, as init_queue leaves them. */
  function EmptyQueues(): (r: seq<seq<Pid>>)
    ensures |r| == LEVELS && forall L :: 0 <= L < |r| ==> r[L] == []
  {
    seq(LEVELS, _ => [])
  }

  /** The static state before priority_init has ever run: everything zero. */
  function Boot(): (r: PS)
    ensures WellFormed(r)
  {
    PS(map[], EmptyQueues(), None, [], 0, 0, 0, 0, false)
  }

  // ---------------------------------------------------------------------------
  // Queue helpers
  // ---------------------------------------------------------------------------

  /** All queued processes, over every level, with multiplicity. */
  function Queued(qs: seq<seq<Pid>>): multiset<Pid>
  {
    if |qs| == 0 then multiset{} else multiset(qs[0]) + Queued(qs[1..])
  }

  /** enqueue_process: the process goes behind the tail of level L. */
  function Enqueue(qs: seq<seq<Pid>>, L: nat, p: Pid): (r: seq<seq<Pid>>)
    requires L < |qs|
    ensures |r| == |qs| && r[L] == qs[L] + [p]
    ensures forall M :: 0 <= M < |qs| && M != L ==> r[M] == qs[M]
  {
    qs[L := qs[L] + [p]]
  }

  /** The position of the first occurrence of p, as a walk from the head finds it. */
  function IndexOf(l: seq<Pid>, p: Pid): (r: Option<nat>)
    ensures r.Some? ==> r.value < |l| && l[r.value] == p && forall j :: 0 <= j < r.value ==> l[j] != p
    ensures r.None? ==> p !in l
  {
    if |l| == 0 then None
    else if l[0] == p then Some(0)
    else match IndexOf(l[1..], p)
      case None => None
      case Some(i) => Some(i + 1)
  }

  /** The list with process p unlinked, or unchanged when p is not on it. */
  function Unlink(l: seq<Pid>, p: Pid): (r: seq<Pid>)
    ensures p in l ==> multiset(r) + multiset{p} == multiset(l)
    ensures p !in l ==> r == l
  {
    match IndexOf(l, p)
      case None => l
      case Some(i) => RemoveAt(l, i)
  }

  /** remove_process_from_queue on level L. */
  function Dequeue(qs: seq<seq<Pid>>, L: nat, p: Pid): (r: seq<seq<Pid>>)
    requires L < |qs|
    ensures |r| == |qs| && r[L] == Unlink(qs[L], p)
    ensures forall M :: 0 <= M < |qs| && M != L ==> r[M] == qs[M]
  {
    qs[L := Unlink(qs[L], p)]
  }

  /** find_highest_priority, searching levels top-1 down to 0. */
  function HighestBelow(qs: seq<seq<Pid>>, top: nat): (r: Option<nat>)
    requires top <= |qs|
    ensures r.Some? ==> r.value < top && |qs[r.value]| > 0 && forall L :: r.value < L < top ==> |qs[L]| == 0
    ensures r.None? ==> forall L :: 0 <= L < top ==> |qs[L]| == 0
  {
    if top == 0 then None
    else if |qs[top - 1]| > 0 then Some(top - 1)
    else HighestBelow(qs, top - 1)
  }

  /** The highest non-empty level, if any. */
  function Highest(qs: seq<seq<Pid>>): (r: Option<nat>)
    requires |qs| == LEVELS
    ensures r.Some? ==> r.value < LEVELS && |qs[r.value]| > 0 && forall L :: r.value < L < LEVELS ==> |qs[L]| == 0
    ensures r.None? ==> Queued(qs) == multiset{}
  {
    var r := HighestBelow(qs, LEVELS);
    if r.None? then NoneQueued(qs); r else r
  }

  /** Queues that are all empty hold nothing. */
  lemma {:induction false} NoneQueued(qs: seq<seq<Pid>>)
    requires forall L :: 0 <= L < |qs| ==> |qs[L]| == 0
    ensures Queued(qs) == multiset{}
  {
    if |qs| > 0 {
      NoneQueued(qs[1..]);
    }
  }

  /** calculate_time_slice: higher priorities run longer, 10 to 72 ticks. */
  function TimeSlice(priority: U32): (r: U32)
    requires priority <= MAX_PRIORITY
    ensures 10 <= r <= 72
    ensures r == 10 + 2 * priority
  {
    10 + priority * 2
  }

  // ---------------------------------------------------------------------------
  // The operations, as functions of the state
  // ---------------------------------------------------------------------------

  function InitStep(s: PS): (r: PS)
    ensures WellFormed(s) ==> WellFormed(r)
  {
    if s.initialized then s
    else s.(queues := EmptyQueues(), current := None, blocked := [], totalProcesses := 0,
            contextSwitches := 0, totalWaitTime := 0, currentTick := 0, initialized := true)
  }

  function ShutdownStep(s: PS): (r: PS)
    ensures WellFormed(s) ==> WellFormed(r)
  {
    s.(queues := EmptyQueues(), current := None, blocked := [], totalProcesses := 0, initialized := false)
  }

  /** The record add_process writes, from the priority its caller left in it. */
  function Admitted(priority: U32): (r: Proc)
    ensures r.priority <= MAX_PRIORITY
    ensures priority <= MAX_PRIORITY ==> r.priority == priority
    ensures priority > MAX_PRIORITY ==> r.priority == DEFAULT_PRIORITY
    ensures r.originalPriority == r.priority && r.age == 0
    ensures r.timeSlice == TimeSlice(r.priority) && r.remainingSlice == r.timeSlice
    ensures !r.isRunning && !r.isBlocked
  {
    var pr := if priority > MAX_PRIORITY then DEFAULT_PRIORITY else priority;
    var slice := TimeSlice(pr);
    Proc(pr, pr, 0, slice, slice, false, false)
  }

  /** add_process: the record is reset and linked at the tail of its level. */
  function AddStep(s: PS, proc: Option<Pid>, priority: U32): (r: PS)
    requires WellFormed(s)
    ensures WellFormed(r)
  {
    match proc
      case None => s
      case Some(p) =>
        var rec := Admitted(priority);
        s.(procs := s.procs[p := rec], queues := Enqueue(s.queues, rec.priority, p),
           totalProcesses := AddU32(s.totalProcesses, 1))
  }

  /**
   * The unlink in remove_process, block and set_priority walks the ready
   * queue of the record's priority through the record's own links, so the
   * record must be on that queue.
   */
  predicate Linked(s: PS, p: Pid)
    requires WellFormed(s)
  {
    p in s.procs && p in s.queues[s.procs[p].priority]
  }

  /** The record of p overwritten. */
  function Rewritten(s: PS, p: Pid, rec: Proc): (r: PS)
    requires WellFormed(s) && p in s.procs
    requires rec.priority <= MAX_PRIORITY && rec.originalPriority <= MAX_PRIORITY
    ensures WellFormed(r) && r == s.(procs := s.procs[p := rec])
  {
    s.(procs := s.procs[p := rec])
  }

  /** p pushed at the head of the blocked list. */
  function Pushed(s: PS, p: Pid): (r: PS)
    requires WellFormed(s) && p in s.procs
    ensures WellFormed(r) && r == s.(blocked := [p] + s.blocked)
  {
    s.(blocked := [p] + s.blocked)
  }

  /** remove_process_from_queue of p from the level its record names. */
  function Withdrawn(s: PS, p: Pid): (r: PS)
    requires WellFormed(s) && p in s.procs
    ensures WellFormed(r)
    ensures r == s.(queues := Dequeue(s.queues, s.procs[p].priority, p))
  {
    DequeueIn(s.queues, s.procs[p].priority, p, s.procs);
    s.(queues := Dequeue(s.queues, s.procs[p].priority, p))
  }

  /** The running slot emptied. */
  function Vacated(s: PS): (r: PS)
    requires WellFormed(s)
    ensures WellFormed(r) && r == s.(current := None)
  {
    s.(current := None)
  }

  /**
   * remove_process: a process that is neither blocked nor running is
   * unlinked from its level; the running slot is cleared if it holds p.
   */
  function RemoveStep(s: PS, proc: Option<Pid>): (r: PS)
    requires WellFormed(s)
    requires proc.Some? ==> proc.value in s.procs
    requires proc.Some? && !s.procs[proc.value].isBlocked && !s.procs[proc.value].isRunning ==> Linked(s, proc.value)
    ensures WellFormed(r)
  {
    match proc
      case None => s
      case Some(p) =>
        var rec := s.procs[p];
        var t := if !rec.isBlocked && !rec.isRunning then Withdrawn(s, p) else s;
        t.(current := if s.current == Some(p) then None else s.current,
           totalProcesses := SubU32(s.totalProcesses, 1))
  }

  /** get_next: the head of the highest non-empty level leaves its queue. */
  function NextStep(s: PS): (r: (PS, Option<Pid>))
    requires WellFormed(s)
    ensures WellFormed(r.0)
  {
    match Highest(s.queues)
      case None => (s, None)
      case Some(L) =>
        (s.(queues := s.queues[L := s.queues[L][1..]]), Some(s.queues[L][0]))
  }

  /** The running process p stops running and, unless blocked, rejoins the tail of its level. */
  function Preempt(s: PS, p: Pid): (r: PS)
    requires WellFormed(s) && p in s.procs
    ensures WellFormed(r)
  {
    var rec := s.procs[p].(isRunning := false);
    var t := s.(procs := s.procs[p := rec]);
    if rec.isBlocked then t else t.(queues := Enqueue(t.queues, rec.priority, p))
  }

  /** The running slot gets next, which starts a fresh slice at age 0; one more context switch. */
  function Dispatch(s: PS, next: Option<Pid>): (r: PS)
    requires WellFormed(s) && (next.Some? ==> next.value in s.procs)
    ensures WellFormed(r)
  {
    var procs := match next
      case None => s.procs
      case Some(n) => s.procs[n := s.procs[n].(isRunning := true, remainingSlice := s.procs[n].timeSlice, age := 0)];
    s.(procs := procs, current := next, contextSwitches := AddU32(s.contextSwitches, 1))
  }

  /**
   * schedule: the next process replaces the running one whenever they
   * differ, whatever their priorities.
   */
  function ScheduleStep(s: PS): (r: PS)
    requires WellFormed(s)
    ensures WellFormed(r)
  {
    var (t, next) := NextStep(s);
    if next == t.current then t
    else Dispatch(if t.current.Some? then Preempt(t, t.current.value) else t, next)
  }

  /** yield: the running process gives up the rest of its slice. */
  function YieldStep(s: PS): (r: PS)
    requires WellFormed(s)
    ensures WellFormed(r)
  {
    match s.current
      case None => ScheduleStep(s)
      case Some(c) => ScheduleStep(s.(procs := s.procs[c := s.procs[c].(remainingSlice := 0)]))
  }

  /** block applies to a ready process (on its level) or to the running one, and not twice. */
  predicate Blockable(s: PS, p: Pid)
    requires WellFormed(s)
  {
    p in s.procs && p !in s.blocked && (s.current == Some(p) || Linked(s, p))
  }

  /**
   * block: the record is marked blocked; the running process gives up the
   * processor, a ready one leaves its level; either way it is pushed at the
   * head of the blocked list.
   */
  function BlockStep(s: PS, proc: Option<Pid>): (r: PS)
    requires WellFormed(s)
    requires proc.Some? ==> Blockable(s, proc.value)
    ensures WellFormed(r)
  {
    match proc
      case None => s
      case Some(p) =>
        var t := Rewritten(s, p, s.procs[p].(isBlocked := true));
        var u := if s.current == Some(p) then ScheduleStep(Vacated(t)) else Withdrawn(t, p);
        Pushed(u, p)
  }

  /**
   * unblock: a blocked process leaves the blocked list and rejoins the tail
   * of its original level, aging undone; anything else is left alone.
   */
  function UnblockStep(s: PS, proc: Option<Pid>): (r: PS)
    requires WellFormed(s)
    requires proc.Some? ==> proc.value in s.procs
    ensures WellFormed(r)
  {
    match proc
      case None => s
      case Some(p) =>
        var rec := s.procs[p];
        if !rec.isBlocked then s
        else
          var back := rec.(isBlocked := false, priority := rec.originalPriority, age := 0);
          s.(blocked := Unlink(s.blocked, p), procs := s.procs[p := back],
             queues := Enqueue(s.queues, back.priority, p))
  }

  /**
   * set_priority: a priority outside 0..31 is ignored.  Otherwise the
   * priority, the original priority and the slice change; a process that is
   * neither running nor blocked moves to the tail of its new level.
   */
  function SetPriorityStep(s: PS, proc: Option<Pid>, priority: int): (r: PS)
    requires WellFormed(s)
    requires proc.Some? ==> proc.value in s.procs
    requires proc.Some? && 0 <= priority <= MAX_PRIORITY ==>
               (!s.procs[proc.value].isRunning && !s.procs[proc.value].isBlocked ==> Linked(s, proc.value))
    ensures WellFormed(r)
  {
    match proc
      case None => s
      case Some(p) =>
        if priority < 0 || priority > MAX_PRIORITY then s
        else
          var rec := s.procs[p];
          var changed := rec.(priority := priority, originalPriority := priority, timeSlice := TimeSlice(priority));
          var t := if !rec.isRunning && !rec.isBlocked
                   then var w := Withdrawn(s, p); w.(queues := Enqueue(w.queues, priority, p))
                   else s;
          t.(procs := t.procs[p := changed])
  }

  /** get_time_slice: 0 for a null process. */
  function SliceOf(s: PS, proc: Option<Pid>): (r: U32)
    requires proc.Some? ==> proc.value in s.procs
    ensures proc.None? ==> r == 0
  {
    match proc
      case None => 0
      case Some(p) => s.procs[p].timeSlice
  }

  /** get_priority: -1 for a null process. */
  function PriorityOf(s: PS, proc: Option<Pid>): (r: int)
    requires WellFormed(s) && (proc.Some? ==> proc.value in s.procs)
    ensures -1 <= r <= MAX_PRIORITY
    ensures r == -1 <==> proc.None?
  {
    match proc
      case None => -1
      case Some(p) => s.procs[p].priority
  }

  /** get_avg_wait_time: integer division, 0 before the first tick. */
  function AvgWait(s: PS): (r: U32)
    ensures s.currentTick == 0 ==> r == 0
    ensures s.currentTick > 0 ==> r * s.currentTick <= s.totalWaitTime < (r + 1) * s.currentTick
  {
    if s.currentTick == 0 then 0 else s.totalWaitTime / s.currentTick
  }

  // ---------------------------------------------------------------------------
  // The timer tick and the aging pass
  // ---------------------------------------------------------------------------

  /** One more year for the record reaches the aging threshold (a wrapped age starts again at 0). */
  predicate Ripe(rec: Proc)
  {
    AddU32(rec.age, 1) >= AGING_INTERVAL
  }

  /** The record one visit of the walk over level L leaves: a year older, or lifted to level L + 1 at age 0 when ripe. */
  function Bumped(rec: Proc, L: nat): (r: Proc)
    requires L < MAX_PRIORITY
    ensures r.priority == rec.priority || r.priority == L + 1
  {
    var aged := rec.(age := AddU32(rec.age, 1));
    if aged.age >= AGING_INTERVAL then aged.(priority := L + 1, age := 0) else aged
  }

  /**
   * The walk over level L of one aging pass, from the node q[0] on, with
   * `kept` nodes of the level already passed over and left in place.  Each
   * visited process ages by one; one whose age reaches 100 is unlinked from
   * level L and appended to level L + 1 with age 0.
   */
  function Walk(procs: map<Pid, Proc>, qs: seq<seq<Pid>>, L: nat, q: seq<Pid>, kept: nat): (r: (map<Pid, Proc>, seq<seq<Pid>>))
    requires L < MAX_PRIORITY && |qs| == LEVELS
    requires kept + |q| == |qs[L]|
    requires forall i :: 0 <= i < |q| ==> q[i] in procs
    ensures r.0.Keys == procs.Keys && |r.1| == LEVELS
    decreases |q|
  {
    if |q| == 0 then (procs, qs)
    else
      var p := q[0];
      var b := Bumped(procs[p], L);
      if Ripe(procs[p]) then
        var out := qs[L := RemoveAt(qs[L], kept)];
        Walk(procs[p := b], Enqueue(out, L + 1, p), L, q[1..], kept)
      else
        Walk(procs[p := b], qs, L, q[1..], kept + 1)
  }

  /** The walk over all of level L, as it stands when the walk starts. */
  function AgeLevel(procs: map<Pid, Proc>, qs: seq<seq<Pid>>, L: nat): (r: (map<Pid, Proc>, seq<seq<Pid>>))
    requires L < MAX_PRIORITY && |qs| == LEVELS && QueuesIn(qs, procs)
    ensures r.0.Keys == procs.Keys && |r.1| == LEVELS
  {
    Walk(procs, qs, L, qs[L], 0)
  }

  /** age_processes from level L up to level 30; level 31 is never aged. */
  function AgeFrom(procs: map<Pid, Proc>, qs: seq<seq<Pid>>, L: nat): (r: (map<Pid, Proc>, seq<seq<Pid>>))
    requires L <= MAX_PRIORITY && |qs| == LEVELS && QueuesIn(qs, procs) && RecordsOk(procs)
    ensures r.0.Keys == procs.Keys && |r.1| == LEVELS && QueuesIn(r.1, r.0) && RecordsOk(r.0)
    decreases MAX_PRIORITY - L
  {
    if L == MAX_PRIORITY then (procs, qs)
    else
      var (m, t) := AgeLevel(procs, qs, L);
      AgeLevelWellFormed(procs, qs, L);
      AgeFrom(m, t, L + 1)
  }

  /** One whole aging pass. */
  function Aged(s: PS): (r: PS)
    requires WellFormed(s)
    ensures WellFormed(r)
  {
    var (m, t) := AgeFrom(s.procs, s.queues, 0);
    s.(procs := m, queues := t)
  }

  /** The wait-time loop of timer_tick from level k on: every queue's count is added, modulo 2^32. */
  function Accrue(total: U32, qs: seq<seq<Pid>>, k: nat): (r: U32)
    decreases |qs| - k
  {
    if k >= |qs| then total else Accrue(ToU32(total + |qs[k]|), qs, k + 1)
  }

  /** The part of timer_tick before the scheduler is called: the clock and the running slice. */
  function Charged(s: PS): (r: PS)
    requires WellFormed(s)
    ensures WellFormed(r)
  {
    var t := s.(currentTick := AddU32(s.currentTick, 1));
    match t.current
      case None => t
      case Some(c) =>
        if t.procs[c].remainingSlice > 0
        then t.(procs := t.procs[c := t.procs[c].(remainingSlice := t.procs[c].remainingSlice - 1)])
        else t
  }

  /** The running process has used up its slice. */
  predicate Expired(s: PS)
    requires WellFormed(s)
  {
    s.current.Some? && s.procs[s.current.value].remainingSlice == 0
  }

  /** timer_tick up to the wait-time loop: charge, reschedule on expiry, and age every 100th tick. */
  function Clocked(s: PS): (r: PS)
    requires WellFormed(s)
    ensures WellFormed(r)
  {
    var c := Charged(s);
    var d := if Expired(c) then ScheduleStep(c) else c;
    if d.currentTick % AGING_INTERVAL == 0 then Aged(d) else d
  }

  /** timer_tick. */
  function TickStep(s: PS): (r: PS)
    requires WellFormed(s)
    ensures WellFormed(r)
  {
    var e := Clocked(s);
    e.(totalWaitTime := Accrue(e.totalWaitTime, e.queues, 0))
  }

  /** Replacing one level with a list of recorded processes keeps every queued process recorded. */
  lemma QueuesInUpdate(qs: seq<seq<Pid>>, L: nat, q: seq<Pid>, procs: map<Pid, Proc>)
    requires QueuesIn(qs, procs) && L < |qs|
    requires forall i :: 0 <= i < |q| ==> q[i] in procs
    ensures QueuesIn(qs[L := q], procs)
  {
  }

  /** What is left after an unlink was on the list. */
  lemma RemoveAtIn(l: seq<Pid>, k: nat, procs: map<Pid, Proc>)
    requires k < |l| && forall i :: 0 <= i < |l| ==> l[i] in procs
    ensures forall i :: 0 <= i < |RemoveAt(l, k)| ==> RemoveAt(l, k)[i] in procs
  {
    var r := RemoveAt(l, k);
    forall i | 0 <= i < |r|
      ensures r[i] in procs
    {
      assert r[i] in multiset(r);
      assert r[i] in multiset(l);
    }
  }

  /** The aging walk keeps every priority in range and every queued process recorded. */
  lemma {:induction false} WalkWellFormed(procs: map<Pid, Proc>, qs: seq<seq<Pid>>, L: nat, q: seq<Pid>, kept: nat)
    requires L < MAX_PRIORITY && |qs| == LEVELS
    requires kept + |q| == |qs[L]|
    requires forall i :: 0 <= i < |q| ==> q[i] in procs
    requires QueuesIn(qs, procs) && RecordsOk(procs)
    ensures QueuesIn(Walk(procs, qs, L, q, kept).1, Walk(procs, qs, L, q, kept).0)
    ensures RecordsOk(Walk(procs, qs, L, q, kept).0)
    decreases |q|
  {
    if |q| > 0 {
      var p := q[0];
      var b := Bumped(procs[p], L);
      if Ripe(procs[p]) {
        var m := procs[p := b];
        RemoveAtIn(qs[L], kept, procs);
        var out := qs[L := RemoveAt(qs[L], kept)];
        QueuesInUpdate(qs, L, RemoveAt(qs[L], kept), procs);
        QueuesInUpdate(out, L + 1, out[L + 1] + [p], procs);
        assert QueuesIn(Enqueue(out, L + 1, p), m);
        WalkWellFormed(m, Enqueue(out, L + 1, p), L, q[1..], kept);
      } else {
        WalkWellFormed(procs[p := b], qs, L, q[1..], kept + 1);
      }
    }
  }

  lemma AgeLevelWellFormed(procs: map<Pid, Proc>, qs: seq<seq<Pid>>, L: nat)
    requires L < MAX_PRIORITY && |qs| == LEVELS && QueuesIn(qs, procs) && RecordsOk(procs)
    ensures QueuesIn(AgeLevel(procs, qs, L).1, AgeLevel(procs, qs, L).0)
    ensures RecordsOk(AgeLevel(procs, qs, L).0)
  {
    WalkWellFormed(procs, qs, L, qs[L], 0);
  }

  /** Unlinking from a level keeps every queued process recorded. */
  lemma DequeueIn(qs: seq<seq<Pid>>, L: nat, p: Pid, procs: map<Pid, Proc>)
    requires QueuesIn(qs, procs) && L < |qs|
    ensures QueuesIn(Dequeue(qs, L, p), procs)
  {
    match IndexOf(qs[L], p)
      case None =>
      case Some(i) =>
        RemoveAtIn(qs[L], i, procs);
        QueuesInUpdate(qs, L, RemoveAt(qs[L], i), procs);
  }

  // ---------------------------------------------------------------------------
  // The invariants: placement, exclusivity, slices and ages
  // ---------------------------------------------------------------------------

  /** Changing one level changes the queued processes by exactly that level's difference. */
  lemma {:induction false} QueuedUpdate(qs: seq<seq<Pid>>, L: nat, q: seq<Pid>)
    requires L < |qs|
    ensures Queued(qs[L := q]) + multiset(qs[L]) == Queued(qs) + multiset(q)
  {
    if L == 0 {
      assert qs[L := q][1..] == qs[1..];
      assert Queued(qs[L := q]) == multiset(q) + Queued(qs[1..]);
    } else {
      assert qs[L := q][1..] == qs[1..][L - 1 := q];
      QueuedUpdate(qs[1..], L - 1, q);
      assert qs[1..][L - 1] == qs[L];
      calc {
        Queued(qs[L := q]) + multiset(qs[L]);
        multiset(qs[0]) + (Queued(qs[1..][L - 1 := q]) + multiset(qs[1..][L - 1]));
        multiset(qs[0]) + (Queued(qs[1..]) + multiset(q));
        Queued(qs) + multiset(q);
      }
    }
  }

  /** Each level is part of the queued processes. */
  lemma {:induction false} QueuedHas(qs: seq<seq<Pid>>, L: nat)
    requires L < |qs|
    ensures multiset(qs[L]) <= Queued(qs)
  {
    if L > 0 {
      QueuedHas(qs[1..], L - 1);
    }
  }

  /** How often the scheduler holds process x: on the queues, on the blocked list and in the running slot. */
  function Held(s: PS, x: Pid): nat
  {
    Queued(s.queues)[x] + multiset(s.blocked)[x] + (if s.current == Some(x) then 1 else 0)
  }

  /** No process is held twice: on two lists, twice on one, or both listed and running. */
  ghost predicate Exclusive(s: PS)
  {
    forall x: Pid :: Held(s, x) <= 1
  }

  /** r holds the same processes as s, each as often. */
  ghost predicate SameHeld(s: PS, r: PS)
  {
    forall x: Pid :: Held(r, x) == Held(s, x)
  }

  /**
   * Each queued process is on the queue of its own priority and not blocked,
   * each process of the blocked list is blocked, and the running process is
   * marked running and not blocked.
   */
  predicate Placed(s: PS)
    requires WellFormed(s)
  {
    Levelled(s.procs, s.queues)
    && (forall i :: 0 <= i < |s.blocked| ==> s.procs[s.blocked[i]].isBlocked)
    && (s.current.Some? ==> s.procs[s.current.value].isRunning && !s.procs[s.current.value].isBlocked)
  }

  /** Each queued process is on the queue of its own priority and not blocked. */
  predicate Levelled(procs: map<Pid, Proc>, qs: seq<seq<Pid>>)
    requires QueuesIn(qs, procs)
  {
    forall L, i :: 0 <= L < |qs| && 0 <= i < |qs[L]| ==> procs[qs[L][i]].priority == L && !procs[qs[L][i]].isBlocked
  }

  /** No process is queued twice. */
  ghost predicate Distinct(qs: seq<seq<Pid>>)
  {
    forall p :: Queued(qs)[p] <= 1
  }

  /** The exclusivity invariant: each process held is held once, in the place its record names. */
  ghost predicate Sound(s: PS)
  {
    WellFormed(s) && Exclusive(s) && Placed(s)
  }

  /** Every record's slice is the one its original priority calls for. */
  predicate SlicesMatch(procs: map<Pid, Proc>)
    requires RecordsOk(procs)
  {
    forall p :: p in procs ==> procs[p].timeSlice == TimeSlice(procs[p].originalPriority)
  }

  /** Every record's age is below the aging threshold. */
  predicate AgesBelow(procs: map<Pid, Proc>)
  {
    forall p :: p in procs ==> procs[p].age < AGING_INTERVAL
  }

  // ---------------------------------------------------------------------------
  // The aging walk
  // ---------------------------------------------------------------------------

  /** Unlinking the node at position kept of level L takes exactly that process out of the queues. */
  lemma UnlinkQueued(qs: seq<seq<Pid>>, L: nat, kept: nat)
    requires L < |qs| && kept < |qs[L]|
    ensures Queued(qs[L := RemoveAt(qs[L], kept)]) + multiset{qs[L][kept]} == Queued(qs)
  {
    var p := qs[L][kept];
    var R := RemoveAt(qs[L], kept);
    var out := qs[L := R];
    QueuedUpdate(qs, L, R);
    forall x
      ensures (Queued(out) + multiset{p})[x] == Queued(qs)[x]
    {
      assert (Queued(out) + multiset(qs[L]))[x] == (Queued(qs) + multiset(R))[x];
      assert (multiset(R) + multiset{p})[x] == multiset(qs[L])[x];
    }
  }

  /** Moving the node at position kept of level L to the tail of level L + 1 keeps the queued processes. */
  lemma MoveUpQueued(qs: seq<seq<Pid>>, L: nat, kept: nat)
    requires L + 1 < |qs| && kept < |qs[L]|
    ensures Queued(Enqueue(qs[L := RemoveAt(qs[L], kept)], L + 1, qs[L][kept])) == Queued(qs)
  {
    var p := qs[L][kept];
    var out := qs[L := RemoveAt(qs[L], kept)];
    UnlinkQueued(qs, L, kept);
    QueuedUpdate(out, L + 1, out[L + 1] + [p]);
    assert multiset(out[L + 1] + [p]) == multiset(out[L + 1]) + multiset{p};
    var e := Enqueue(out, L + 1, p);
    forall x
      ensures Queued(e)[x] == Queued(qs)[x]
    {
      assert (Queued(e) + multiset(out[L + 1]))[x] == (Queued(out) + multiset(out[L + 1] + [p]))[x];
      assert (Queued(out) + multiset{p})[x] == Queued(qs)[x];
    }
  }

  /** The walk moves processes between levels and never adds or drops one. */
  lemma {:induction false} WalkQueued(procs: map<Pid, Proc>, qs: seq<seq<Pid>>, L: nat, q: seq<Pid>, kept: nat)
    requires L < MAX_PRIORITY && |qs| == LEVELS
    requires kept + |q| == |qs[L]| && qs[L][kept..] == q
    requires forall i :: 0 <= i < |q| ==> q[i] in procs
    ensures Queued(Walk(procs, qs, L, q, kept).1) == Queued(qs)
    decreases |q|
  {
    if |q| > 0 {
      var p := q[0];
      assert qs[L][kept] == p;
      var b := Bumped(procs[p], L);
      if Ripe(procs[p]) {
        var out := qs[L := RemoveAt(qs[L], kept)];
        MoveUpQueued(qs, L, kept);
        assert Enqueue(out, L + 1, p)[L][kept..] == qs[L][kept + 1..] == q[1..];
        WalkQueued(procs[p := b], Enqueue(out, L + 1, p), L, q[1..], kept);
      } else {
        assert qs[L][kept + 1..] == q[1..];
        WalkQueued(procs[p := b], qs, L, q[1..], kept + 1);
      }
    }
  }

  /** A process queued once is gone from every level once its node is unlinked. */
  lemma UnlinkedNowhere(qs: seq<seq<Pid>>, L: nat, kept: nat, M: nat, i: nat)
    requires L < |qs| && kept < |qs[L]| && Distinct(qs)
    requires M < |qs| && i < |qs[L := RemoveAt(qs[L], kept)][M]|
    ensures qs[L := RemoveAt(qs[L], kept)][M][i] != qs[L][kept]
  {
    var p := qs[L][kept];
    var out := qs[L := RemoveAt(qs[L], kept)];
    UnlinkQueued(qs, L, kept);
    assert (Queued(out) + multiset{p})[p] == Queued(qs)[p];
    assert Queued(out)[p] == 0;
    QueuedHas(out, M);
    assert out[M][i] in multiset(out[M]);
  }

  /** What is left on a level after an unlink was on the level. */
  lemma RemainedOn(l: seq<Pid>, kept: nat, i: nat)
    requires kept < |l| && i < |RemoveAt(l, kept)|
    ensures RemoveAt(l, kept)[i] in l
  {
    assert RemoveAt(l, kept)[i] in multiset(RemoveAt(l, kept));
  }

  /** One lift of the walk keeps every queued process on the level of its priority. */
  lemma MoveUpLevelled(procs: map<Pid, Proc>, qs: seq<seq<Pid>>, L: nat, kept: nat, rec: Proc)
    requires L + 1 < |qs| && kept < |qs[L]| && Distinct(qs)
    requires QueuesIn(qs, procs) && Levelled(procs, qs)
    requires rec.priority == L + 1 && rec.isBlocked == procs[qs[L][kept]].isBlocked
    ensures QueuesIn(Enqueue(qs[L := RemoveAt(qs[L], kept)], L + 1, qs[L][kept]), procs[qs[L][kept] := rec])
    ensures Levelled(procs[qs[L][kept] := rec], Enqueue(qs[L := RemoveAt(qs[L], kept)], L + 1, qs[L][kept]))
  {
    var p := qs[L][kept];
    var out := qs[L := RemoveAt(qs[L], kept)];
    var e := Enqueue(out, L + 1, p);
    var m := procs[p := rec];
    forall M, i | 0 <= M < |e| && 0 <= i < |e[M]|
      ensures e[M][i] in m && m[e[M][i]].priority == M && !m[e[M][i]].isBlocked
    {
      if M == L + 1 && i == |out[M]| {
        assert e[M][i] == p;
      } else {
        assert e[M][i] == out[M][i];
        UnlinkedNowhere(qs, L, kept, M, i);
        if M == L {
          RemainedOn(qs[L], kept, i);
        }
        assert e[M][i] in qs[M];
      }
    }
  }

  /** The walk keeps every queued process on the level of its priority, and none twice. */
  lemma {:induction false} WalkLevelled(procs: map<Pid, Proc>, qs: seq<seq<Pid>>, L: nat, q: seq<Pid>, kept: nat)
    requires L < MAX_PRIORITY && |qs| == LEVELS
    requires kept + |q| == |qs[L]| && qs[L][kept..] == q
    requires QueuesIn(qs, procs) && Levelled(procs, qs) && Distinct(qs)
    ensures QueuesIn(Walk(procs, qs, L, q, kept).1, Walk(procs, qs, L, q, kept).0)
    ensures Levelled(Walk(procs, qs, L, q, kept).0, Walk(procs, qs, L, q, kept).1)
    decreases |q|
  {
    if |q| > 0 {
      var p := q[0];
      assert qs[L][kept] == p;
      var b := Bumped(procs[p], L);
      if Ripe(procs[p]) {
        var out := qs[L := RemoveAt(qs[L], kept)];
        MoveUpQueued(qs, L, kept);
        MoveUpLevelled(procs, qs, L, kept, b);
        assert Enqueue(out, L + 1, p)[L][kept..] == qs[L][kept + 1..] == q[1..];
        WalkLevelled(procs[p := b], Enqueue(out, L + 1, p), L, q[1..], kept);
      } else {
        assert qs[L][kept + 1..] == q[1..];
        WalkLevelled(procs[p := b], qs, L, q[1..], kept + 1);
      }
    }
  }

  /** A whole aging pass moves processes between levels and keeps each on the level of its priority. */
  lemma {:induction false} AgeFromQueued(procs: map<Pid, Proc>, qs: seq<seq<Pid>>, L: nat)
    requires L <= MAX_PRIORITY && |qs| == LEVELS && QueuesIn(qs, procs) && RecordsOk(procs)
    requires Levelled(procs, qs) && Distinct(qs)
    ensures Queued(AgeFrom(procs, qs, L).1) == Queued(qs)
    ensures Levelled(AgeFrom(procs, qs, L).0, AgeFrom(procs, qs, L).1)
    decreases MAX_PRIORITY - L
  {
    if L < MAX_PRIORITY {
      assert qs[L][0..] == qs[L];
      var (m, t) := AgeLevel(procs, qs, L);
      AgeLevelWellFormed(procs, qs, L);
      WalkQueued(procs, qs, L, qs[L], 0);
      WalkLevelled(procs, qs, L, qs[L], 0);
      AgeFromQueued(m, t, L + 1);
    }
  }

  /** Exclusivity says in particular that no process is queued twice. */
  lemma ExclusiveDistinct(s: PS)
    requires Exclusive(s)
    ensures Distinct(s.queues)
  {
    forall p
      ensures Queued(s.queues)[p] <= 1
    {
      assert Held(s, p) <= 1;
    }
  }

  /** An aging pass holds the same processes, keeps the exclusivity invariant, and keeps slices and ages right. */
  lemma AgedSound(s: PS)
    requires Sound(s)
    ensures SameHeld(s, Aged(s)) && Sound(Aged(s))
    ensures SlicesMatch(s.procs) ==> SlicesMatch(Aged(s).procs)
    ensures AgesBelow(s.procs) ==> AgesBelow(Aged(s).procs)
  {
    ExclusiveDistinct(s);
    var (m, t) := AgeFrom(s.procs, s.queues, 0);
    AgeFromQueued(s.procs, s.queues, 0);
    AgedFields(s);
    AgedPlaced(s, m, t);
  }

  /** Records changed only in priority and age, and queues holding the same processes, keep the invariant. */
  lemma AgedPlaced(s: PS, m: map<Pid, Proc>, t: seq<seq<Pid>>)
    requires Sound(s) && m.Keys == s.procs.Keys && RecordsOk(m) && QueuesIn(t, m) && |t| == LEVELS
    requires forall x :: x in s.procs ==> m[x] == s.procs[x].(priority := m[x].priority, age := m[x].age)
    requires Queued(t) == Queued(s.queues) && Levelled(m, t)
    ensures SameHeld(s, s.(procs := m, queues := t)) && Sound(s.(procs := m, queues := t))
    ensures SlicesMatch(s.procs) ==> SlicesMatch(m)
  {
    var r := s.(procs := m, queues := t);
    assert forall x: Pid :: Held(r, x) == Held(s, x);
    assert forall q :: q in s.procs ==> m[q].isBlocked == s.procs[q].isBlocked && m[q].isRunning == s.procs[q].isRunning;
    assert Placed(r);
  }

  // ---------------------------------------------------------------------------
  // What an aging pass does to each record
  // ---------------------------------------------------------------------------

  /** A value found twice in a list is counted at least twice. */
  lemma TwiceCounted(l: seq<Pid>, i: nat, j: nat)
    requires i < j < |l| && l[i] == l[j]
    ensures multiset(l)[l[i]] >= 2
  {
    assert l == l[..j] + l[j..];
    assert l[i] in l[..j];
    assert l[j..][0] == l[j];
  }

  /** With no process queued twice, no level holds a process twice. */
  lemma LevelDistinct(qs: seq<seq<Pid>>, L: nat)
    requires Distinct(qs) && L < |qs|
    ensures forall i, j :: 0 <= i < j < |qs[L]| ==> qs[L][i] != qs[L][j]
  {
    QueuedHas(qs, L);
    forall i, j | 0 <= i < j < |qs[L]| && qs[L][i] == qs[L][j]
      ensures false
    {
      TwiceCounted(qs[L], i, j);
    }
  }

  /** The walk visits each process of q once: it gets the record one visit leaves, and no other record changes. */
  lemma {:induction false} WalkOutcome(procs: map<Pid, Proc>, qs: seq<seq<Pid>>, L: nat, q: seq<Pid>, kept: nat)
    requires L < MAX_PRIORITY && |qs| == LEVELS && kept + |q| == |qs[L]|
    requires forall i :: 0 <= i < |q| ==> q[i] in procs
    requires forall i, j :: 0 <= i < j < |q| ==> q[i] != q[j]
    ensures var m := Walk(procs, qs, L, q, kept).0;
      forall x :: x in procs ==> m[x] == if x in q then Bumped(procs[x], L) else procs[x]
    decreases |q|
  {
    if |q| > 0 {
      var p := q[0];
      var b := Bumped(procs[p], L);
      assert p !in q[1..];
      if Ripe(procs[p]) {
        var out := qs[L := RemoveAt(qs[L], kept)];
        WalkOutcome(procs[p := b], Enqueue(out, L + 1, p), L, q[1..], kept);
      } else {
        WalkOutcome(procs[p := b], qs, L, q[1..], kept + 1);
      }
    }
  }

  /**
   * The record a whole aging pass leaves for a process queued below level
   * 31: a year older; or, when ripe, lifted one level, where the walk over
   * that level ages it once more unless it is level 31.
   */
  function PassRecord(rec: Proc): (r: Proc)
    requires rec.priority < MAX_PRIORITY
  {
    var b := Bumped(rec, rec.priority);
    if Ripe(rec) && rec.priority + 1 < MAX_PRIORITY then Bumped(b, rec.priority + 1) else b
  }

  /** The record of a queued process once the walks over the levels below L are done. */
  function Staged(rec: Proc, L: nat): (r: Proc)
    requires rec.priority <= MAX_PRIORITY && L <= MAX_PRIORITY
  {
    if rec.priority >= L then rec
    else if rec.priority + 1 == L then Bumped(rec, rec.priority)
    else PassRecord(rec)
  }

  /** The walk over level L turns the stage-L record of a queued process into its stage-(L + 1) record. */
  lemma StagedNext(rec: Proc, L: nat)
    requires rec.priority <= MAX_PRIORITY && L < MAX_PRIORITY
    ensures var cur := Staged(rec, L);
      (if cur.priority == L then Bumped(cur, L) else cur) == Staged(rec, L + 1)
  {
  }

  /** Under the levels invariant a queued process is on level L exactly when its priority is L. */
  lemma OnLevel(procs: map<Pid, Proc>, qs: seq<seq<Pid>>, x: Pid, L: nat)
    requires QueuesIn(qs, procs) && Levelled(procs, qs) && L < |qs| && x in procs && Queued(qs)[x] > 0
    ensures x in qs[L] <==> procs[x].priority == L
  {
    var M, i := QueuedOn(qs, x);
  }

  /** The walks over levels L to 30 take every queued process from its stage-L record to its stage-31 record. */
  lemma {:induction false} AgeFromOutcome(orig: map<Pid, Proc>, procs: map<Pid, Proc>, qs: seq<seq<Pid>>, L: nat)
    requires L <= MAX_PRIORITY && |qs| == LEVELS && QueuesIn(qs, procs) && RecordsOk(procs) && RecordsOk(orig)
    requires Levelled(procs, qs) && Distinct(qs) && procs.Keys == orig.Keys
    requires forall x :: x in orig ==> procs[x] == if Queued(qs)[x] > 0 then Staged(orig[x], L) else orig[x]
    ensures var m := AgeFrom(procs, qs, L).0;
      forall x :: x in orig ==> m[x] == if Queued(qs)[x] > 0 then Staged(orig[x], MAX_PRIORITY) else orig[x]
    decreases MAX_PRIORITY - L
  {
    if L < MAX_PRIORITY {
      var (m, t) := AgeLevel(procs, qs, L);
      AgeLevelStaged(orig, procs, qs, L);
      AgeFromOutcome(orig, m, t, L + 1);
    }
  }

  /** The walk over level L takes every queued process from its stage-L record to its stage-(L + 1) record. */
  lemma AgeLevelStaged(orig: map<Pid, Proc>, procs: map<Pid, Proc>, qs: seq<seq<Pid>>, L: nat)
    requires L < MAX_PRIORITY && |qs| == LEVELS && QueuesIn(qs, procs) && RecordsOk(procs) && RecordsOk(orig)
    requires Levelled(procs, qs) && Distinct(qs) && procs.Keys == orig.Keys
    requires forall x :: x in orig ==> procs[x] == if Queued(qs)[x] > 0 then Staged(orig[x], L) else orig[x]
    ensures var (m, t) := AgeLevel(procs, qs, L);
      QueuesIn(t, m) && RecordsOk(m) && Levelled(m, t) && Distinct(t) && m.Keys == orig.Keys
      && Queued(t) == Queued(qs)
      && forall x :: x in orig ==> m[x] == if Queued(t)[x] > 0 then Staged(orig[x], L + 1) else orig[x]
  {
    assert qs[L][0..] == qs[L];
    LevelDistinct(qs, L);
    var (m, t) := AgeLevel(procs, qs, L);
    AgeLevelWellFormed(procs, qs, L);
    WalkOutcome(procs, qs, L, qs[L], 0);
    WalkQueued(procs, qs, L, qs[L], 0);
    WalkLevelled(procs, qs, L, qs[L], 0);
    forall x | x in orig
      ensures m[x] == if Queued(t)[x] > 0 then Staged(orig[x], L + 1) else orig[x]
    {
      if Queued(qs)[x] > 0 {
        OnLevel(procs, qs, x, L);
        StagedNext(orig[x], L);
      } else {
        NotQueued(qs, x);
      }
    }
  }

  /**
   * One aging pass: a process queued below level 31 gets the record
   * PassRecord describes; every other record, level 31 included, is left
   * alone.
   */
  lemma AgedRecords(s: PS)
    requires Sound(s)
    ensures forall x :: x in s.procs ==>
      Aged(s).procs[x] == if Queued(s.queues)[x] > 0 && s.procs[x].priority < MAX_PRIORITY then PassRecord(s.procs[x]) else s.procs[x]
  {
    ExclusiveDistinct(s);
    AgeFromOutcome(s.procs, s.procs, s.queues, 0);
  }

  /** An aging pass changes only priorities and ages, and keeps every age below 100. */
  lemma AgedFields(s: PS)
    requires Sound(s)
    ensures var m := Aged(s).procs;
      forall x :: x in s.procs ==> m[x] == s.procs[x].(priority := m[x].priority, age := m[x].age)
    ensures AgesBelow(s.procs) ==> AgesBelow(Aged(s).procs)
  {
    var m := Aged(s).procs;
    AgedRecords(s);
    forall x | x in s.procs
      ensures m[x] == s.procs[x].(priority := m[x].priority, age := m[x].age)
      ensures s.procs[x].age < AGING_INTERVAL ==> m[x].age < AGING_INTERVAL
    {
      if Queued(s.queues)[x] > 0 && s.procs[x].priority < MAX_PRIORITY {
        PassFields(s.procs[x]);
      }
    }
  }

  /** The pass record differs from the record only in priority and age, and keeps an age below 100 below 100. */
  lemma PassFields(rec: Proc)
    requires rec.priority < MAX_PRIORITY
    ensures PassRecord(rec) == rec.(priority := PassRecord(rec).priority, age := PassRecord(rec).age)
    ensures rec.age < AGING_INTERVAL ==> PassRecord(rec).age < AGING_INTERVAL
  {
  }

  /**
   * With every age below 100, one aging pass raises a priority by at most
   * one, and only for a queued process below level 31 whose age was 99; such
   * a process ends at age 1, or 0 on level 31.  Any other queued process
   * below level 31 is a year older, and nothing else changes.
   */
  lemma AgingRaisesByOne(s: PS)
    requires Sound(s) && AgesBelow(s.procs)
    ensures var m := Aged(s).procs;
      forall x :: x in s.procs ==>
        var rec := s.procs[x];
        var ageing := Queued(s.queues)[x] > 0 && rec.priority < MAX_PRIORITY;
        (!ageing ==> m[x] == rec)
        && (ageing && rec.age + 1 < AGING_INTERVAL ==> m[x] == rec.(age := rec.age + 1))
        && (ageing && rec.age + 1 == AGING_INTERVAL ==>
              m[x] == rec.(priority := rec.priority + 1, age := if rec.priority + 1 < MAX_PRIORITY then 1 else 0))
  {
    AgedRecords(s);
    forall x | x in s.procs && Queued(s.queues)[x] > 0 && s.procs[x].priority < MAX_PRIORITY
      ensures var rec := s.procs[x];
        (rec.age + 1 < AGING_INTERVAL ==> PassRecord(rec) == rec.(age := rec.age + 1))
        && (rec.age + 1 == AGING_INTERVAL ==>
              PassRecord(rec) == rec.(priority := rec.priority + 1, age := if rec.priority + 1 < MAX_PRIORITY then 1 else 0))
    {
      PassRecordAges(s.procs[x]);
    }
  }

  /** One pass over a young record below level 31: a year older, or one level up when it turns 100. */
  lemma PassRecordAges(rec: Proc)
    requires rec.priority < MAX_PRIORITY && rec.age < AGING_INTERVAL
    ensures rec.age + 1 < AGING_INTERVAL ==> PassRecord(rec) == rec.(age := rec.age + 1)
    ensures rec.age + 1 == AGING_INTERVAL ==>
      PassRecord(rec) == rec.(priority := rec.priority + 1, age := if rec.priority + 1 < MAX_PRIORITY then 1 else 0)
  {
    assert AddU32(rec.age, 1) == rec.age + 1;
    var b := Bumped(rec, rec.priority);
    if rec.age + 1 == AGING_INTERVAL {
      assert b == rec.(priority := rec.priority + 1, age := 0);
      assert AddU32(0, 1) == 1;
    }
  }

  // ---------------------------------------------------------------------------
  // Queue and record facts the invariant proofs share
  // ---------------------------------------------------------------------------

  /** Enqueueing p counts p once more among the queued processes, and every other process as often. */
  lemma EnqueueCounts(qs: seq<seq<Pid>>, L: nat, p: Pid)
    requires L < |qs|
    ensures forall x :: Queued(Enqueue(qs, L, p))[x] == Queued(qs)[x] + (if x == p then 1 else 0)
  {
    QueuedUpdate(qs, L, qs[L] + [p]);
    assert multiset(qs[L] + [p]) == multiset(qs[L]) + multiset{p};
    forall x
      ensures Queued(Enqueue(qs, L, p))[x] == Queued(qs)[x] + (if x == p then 1 else 0)
    {
      assert (Queued(Enqueue(qs, L, p)) + multiset(qs[L]))[x] == (Queued(qs) + multiset(qs[L] + [p]))[x];
    }
  }

  /** Unlinking a process from a level it is on counts it once less, and every other process as often. */
  lemma DequeueCounts(qs: seq<seq<Pid>>, L: nat, p: Pid)
    requires L < |qs| && p in qs[L]
    ensures forall x :: Queued(Dequeue(qs, L, p))[x] + (if x == p then 1 else 0) == Queued(qs)[x]
  {
    var i := IndexOf(qs[L], p).value;
    UnlinkQueued(qs, L, i);
    forall x
      ensures Queued(Dequeue(qs, L, p))[x] + (if x == p then 1 else 0) == Queued(qs)[x]
    {
      assert (Queued(Dequeue(qs, L, p)) + multiset{p})[x] == Queued(qs)[x];
    }
  }

  /** Taking the head off a level counts it once less, and every other process as often. */
  lemma BeheadCounts(qs: seq<seq<Pid>>, L: nat)
    requires L < |qs| && |qs[L]| > 0
    ensures forall x :: Queued(qs[L := qs[L][1..]])[x] + (if x == qs[L][0] then 1 else 0) == Queued(qs)[x]
  {
    assert RemoveAt(qs[L], 0) == qs[L][1..];
    UnlinkQueued(qs, L, 0);
    forall x
      ensures Queued(qs[L := qs[L][1..]])[x] + (if x == qs[L][0] then 1 else 0) == Queued(qs)[x]
    {
      assert (Queued(qs[L := qs[L][1..]]) + multiset{qs[L][0]})[x] == Queued(qs)[x];
    }
  }

  /** A process that is not queued is on no level. */
  lemma NotQueued(qs: seq<seq<Pid>>, p: Pid)
    requires Queued(qs)[p] == 0
    ensures forall L, i :: 0 <= L < |qs| && 0 <= i < |qs[L]| ==> qs[L][i] != p
  {
    forall L, i | 0 <= L < |qs| && 0 <= i < |qs[L]|
      ensures qs[L][i] != p
    {
      QueuedHas(qs, L);
      assert qs[L][i] in multiset(qs[L]);
    }
  }

  /** A process that is queued is on some level, at some position. */
  lemma {:induction false} QueuedOn(qs: seq<seq<Pid>>, p: Pid) returns (L: nat, i: nat)
    requires Queued(qs)[p] > 0
    ensures L < |qs| && i < |qs[L]| && qs[L][i] == p
  {
    if p in qs[0] {
      L, i := 0, IndexOf(qs[0], p).value;
    } else {
      L, i := QueuedOn(qs[1..], p);
      L := L + 1;
    }
  }

  /** Rewriting a record keeps the levels right when it is not queued or keeps its level and blocked flag. */
  lemma LevelledRewrite(procs: map<Pid, Proc>, qs: seq<seq<Pid>>, p: Pid, rec: Proc)
    requires QueuesIn(qs, procs) && Levelled(procs, qs)
    requires Queued(qs)[p] == 0 || (p in procs && rec.priority == procs[p].priority && rec.isBlocked == procs[p].isBlocked)
    ensures QueuesIn(qs, procs[p := rec]) && Levelled(procs[p := rec], qs)
  {
    if Queued(qs)[p] == 0 {
      NotQueued(qs, p);
    }
  }

  /** Enqueueing a process on the level of its priority keeps the levels right. */
  lemma LevelledEnqueue(procs: map<Pid, Proc>, qs: seq<seq<Pid>>, L: nat, p: Pid)
    requires QueuesIn(qs, procs) && Levelled(procs, qs) && L < |qs|
    requires p in procs && procs[p].priority == L && !procs[p].isBlocked
    ensures QueuesIn(Enqueue(qs, L, p), procs) && Levelled(procs, Enqueue(qs, L, p))
  {
    var e := Enqueue(qs, L, p);
    forall M, i | 0 <= M < |e| && 0 <= i < |e[M]|
      ensures e[M][i] in procs && procs[e[M][i]].priority == M && !procs[e[M][i]].isBlocked
    {
      if M == L && i == |qs[L]| {
        assert e[M][i] == p;
      } else {
        assert e[M][i] == qs[M][i];
      }
    }
  }

  /** Unlinking keeps the levels right. */
  lemma LevelledDequeue(procs: map<Pid, Proc>, qs: seq<seq<Pid>>, L: nat, p: Pid)
    requires QueuesIn(qs, procs) && Levelled(procs, qs) && L < |qs|
    ensures QueuesIn(Dequeue(qs, L, p), procs) && Levelled(procs, Dequeue(qs, L, p))
  {
    DequeueIn(qs, L, p, procs);
    var d := Dequeue(qs, L, p);
    match IndexOf(qs[L], p)
      case None =>
      case Some(k) =>
        forall i | 0 <= i < |d[L]|
          ensures procs[d[L][i]].priority == L && !procs[d[L][i]].isBlocked
        {
          RemainedOn(qs[L], k, i);
        }
  }

  /** Under the invariant's placement a blocked-flagged record is neither queued nor running. */
  lemma FlaggedUnqueued(s: PS, p: Pid)
    requires WellFormed(s) && Placed(s) && p in s.procs && s.procs[p].isBlocked
    ensures Queued(s.queues)[p] == 0 && s.current != Some(p)
  {
    if Queued(s.queues)[p] > 0 {
      var L, i := QueuedOn(s.queues, p);
      assert false;
    }
  }

  // ---------------------------------------------------------------------------
  // Scheduling keeps the invariant
  // ---------------------------------------------------------------------------

  /**
   * get_next hands out a ready process that the scheduler then holds nowhere,
   * and holds every other process as before.
   */
  lemma NextSound(s: PS)
    requires Sound(s)
    ensures var (t, next) := NextStep(s);
      t.procs == s.procs && t.blocked == s.blocked && t.current == s.current
      && Placed(t)
      && (next.None? ==> t == s)
      && (next.Some? ==> next.value in s.procs && !s.procs[next.value].isBlocked && Held(t, next.value) == 0)
      && forall x: Pid :: Held(t, x) + (if next == Some(x) then 1 else 0) == Held(s, x)
  {
    match Highest(s.queues)
      case None =>
      case Some(L) =>
        var n := s.queues[L][0];
        var t := NextStep(s).0;
        BeheadCounts(s.queues, L);
        assert Held(s, n) <= 1;
        forall M, i | 0 <= M < |t.queues| && 0 <= i < |t.queues[M]|
          ensures s.procs[t.queues[M][i]].priority == M && !s.procs[t.queues[M][i]].isBlocked
        {
          if M == L {
            assert t.queues[M][i] == s.queues[L][i + 1];
          } else {
            assert t.queues[M] == s.queues[M];
          }
        }
  }

  /** Preempting the running process c, queued nowhere, queues it once on its own level. */
  lemma PreemptFacts(t: PS, c: Pid)
    requires WellFormed(t) && Placed(t) && t.current == Some(c) && Queued(t.queues)[c] == 0
    ensures var u := Preempt(t, c);
      u.blocked == t.blocked && u.current == t.current
      && u.procs == t.procs[c := t.procs[c].(isRunning := false)]
      && Levelled(u.procs, u.queues)
      && forall x :: Queued(u.queues)[x] == Queued(t.queues)[x] + (if x == c then 1 else 0)
  {
    var rec := t.procs[c].(isRunning := false);
    LevelledRewrite(t.procs, t.queues, c, rec);
    LevelledEnqueue(t.procs[c := rec], t.queues, rec.priority, c);
    EnqueueCounts(t.queues, rec.priority, c);
  }

  /** A switch away from the running process: it rejoins its level and the next process, if any, runs. */
  lemma SwitchFrom(s: PS)
    requires Sound(s) && s.current.Some? && NextStep(s).1 != s.current
    ensures Sound(ScheduleStep(s)) && SameHeld(s, ScheduleStep(s))
  {
    SwitchFromHeld(s);
    SwitchFromPlaced(s);
    var r := ScheduleStep(s);
    forall x: Pid
      ensures Held(r, x) <= 1
    {
      assert Held(r, x) == Held(s, x);
    }
  }

  /** The switch holds every process as often as before. */
  lemma SwitchFromHeld(s: PS)
    requires Sound(s) && s.current.Some? && NextStep(s).1 != s.current
    ensures SameHeld(s, ScheduleStep(s))
  {
    NextSound(s);
    var (t, next) := NextStep(s);
    var c := s.current.value;
    assert Held(s, c) <= 1;
    assert Held(t, c) + (if next == Some(c) then 1 else 0) == Held(s, c);
    PreemptDispatchHeld(t, c, next);
    var r := Dispatch(Preempt(t, c), next);
    assert r == ScheduleStep(s);
    forall x: Pid
      ensures Held(r, x) == Held(s, x)
    {
      assert Held(t, x) + (if next == Some(x) then 1 else 0) == Held(s, x);
    }
  }

  /** Preempting c and dispatching next holds next once more and every other process as often. */
  lemma PreemptDispatchHeld(t: PS, c: Pid, next: Option<Pid>)
    requires WellFormed(t) && Placed(t) && t.current == Some(c) && Queued(t.queues)[c] == 0
    requires next.Some? ==> next.value in t.procs
    ensures forall x: Pid :: Held(Dispatch(Preempt(t, c), next), x) == Held(t, x) + (if next == Some(x) then 1 else 0)
  {
    var u := Preempt(t, c);
    PreemptFacts(t, c);
    var r := Dispatch(u, next);
    forall x: Pid
      ensures Held(r, x) == Held(t, x) + (if next == Some(x) then 1 else 0)
    {
      assert Queued(u.queues)[x] == Queued(t.queues)[x] + (if x == c then 1 else 0);
    }
  }

  /** After the switch each process is still where its record says. */
  lemma SwitchFromPlaced(s: PS)
    requires Sound(s) && s.current.Some? && NextStep(s).1 != s.current
    ensures Placed(ScheduleStep(s))
  {
    NextSound(s);
    var (t, next) := NextStep(s);
    var c := s.current.value;
    assert Held(s, c) <= 1;
    assert Held(t, c) + (if next == Some(c) then 1 else 0) == Held(s, c);
    var u := Preempt(t, c);
    PreemptFacts(t, c);
    assert forall i :: 0 <= i < |u.blocked| ==> u.procs[u.blocked[i]].isBlocked;
    DispatchPlaced(u, next);
    assert Dispatch(u, next) == ScheduleStep(s);
  }

  /** Dispatching a process that is not blocked keeps every process where its record says. */
  lemma DispatchPlaced(u: PS, next: Option<Pid>)
    requires WellFormed(u) && Levelled(u.procs, u.queues)
    requires forall i :: 0 <= i < |u.blocked| ==> u.procs[u.blocked[i]].isBlocked
    requires next.Some? ==> next.value in u.procs && !u.procs[next.value].isBlocked
    ensures Placed(Dispatch(u, next))
  {
    var r := Dispatch(u, next);
    if next.Some? {
      var n := next.value;
      LevelledRewrite(u.procs, u.queues, n, r.procs[n]);
    }
  }

  /** A dispatch onto an idle processor: the next process runs. */
  lemma SwitchIdle(s: PS)
    requires Sound(s) && s.current.None? && NextStep(s).1.Some?
    ensures Sound(ScheduleStep(s)) && SameHeld(s, ScheduleStep(s))
  {
    NextSound(s);
    var (t, next) := NextStep(s);
    var n := next.value;
    var r := Dispatch(t, next);
    LevelledRewrite(t.procs, t.queues, n, r.procs[n]);
    forall x: Pid
      ensures Held(r, x) == Held(s, x)
    {
      assert Held(t, x) + (if next == Some(x) then 1 else 0) == Held(s, x);
    }
  }

  /** schedule keeps the invariant and holds the same processes. */
  lemma ScheduleSound(s: PS)
    requires Sound(s)
    ensures Sound(ScheduleStep(s)) && SameHeld(s, ScheduleStep(s))
  {
    NextSound(s);
    if NextStep(s).1 != s.current {
      if s.current.Some? {
        SwitchFrom(s);
      } else {
        SwitchIdle(s);
      }
    }
  }

  /** yield keeps the invariant and holds the same processes. */
  lemma YieldSound(s: PS)
    requires Sound(s)
    ensures Sound(YieldStep(s)) && SameHeld(s, YieldStep(s))
  {
    match s.current
      case None =>
        ScheduleSound(s);
      case Some(c) =>
        var t := s.(procs := s.procs[c := s.procs[c].(remainingSlice := 0)]);
        LevelledRewrite(s.procs, s.queues, c, t.procs[c]);
        assert WellFormed(t);
        assert Placed(t);
        assert forall x: Pid :: Held(t, x) == Held(s, x);
        assert Exclusive(t);
        ScheduleSound(t);
  }

  /** add_process of a process the scheduler does not hold keeps the invariant, and holds it once. */
  lemma AddSound(s: PS, proc: Option<Pid>, priority: U32)
    requires Sound(s) && (proc.Some? ==> Held(s, proc.value) == 0)
    ensures Sound(AddStep(s, proc, priority))
    ensures forall x: Pid :: Held(AddStep(s, proc, priority), x) == Held(s, x) + (if proc == Some(x) then 1 else 0)
  {
    if proc.Some? {
      var p := proc.value;
      var rec := Admitted(priority);
      var r := AddStep(s, proc, priority);
      assert p !in s.blocked by {
        assert multiset(s.blocked)[p] == 0;
      }
      LevelledRewrite(s.procs, s.queues, p, rec);
      LevelledEnqueue(s.procs[p := rec], s.queues, rec.priority, p);
      EnqueueCounts(s.queues, rec.priority, p);
      assert Placed(r);
      assert forall x: Pid :: Held(r, x) == Held(s, x) + (if x == p then 1 else 0);
    }
  }

  /** A blocked-flagged process the scheduler does not hold, pushed on the blocked list, is held once. */
  lemma PushedSound(w: PS, p: Pid)
    requires Sound(w) && p in w.procs && w.procs[p].isBlocked && Held(w, p) == 0
    ensures Sound(Pushed(w, p))
    ensures forall x: Pid :: Held(Pushed(w, p), x) == Held(w, x) + (if x == p then 1 else 0)
  {
    var r := Pushed(w, p);
    assert multiset(r.blocked) == multiset{p} + multiset(w.blocked);
    forall x: Pid
      ensures Held(r, x) == Held(w, x) + (if x == p then 1 else 0)
    {
      assert multiset(r.blocked)[x] == multiset(w.blocked)[x] + (if x == p then 1 else 0);
    }
    assert Exclusive(r);
    forall i | 0 <= i < |r.blocked|
      ensures r.procs[r.blocked[i]].isBlocked
    {
      if i > 0 {
        assert r.blocked[i] == w.blocked[i - 1];
      }
    }
    assert Placed(r);
  }

  /** The running process p flagged blocked and taken off the processor is held nowhere. */
  lemma VacatedSound(s: PS, p: Pid)
    requires Sound(s) && s.current == Some(p)
    ensures var v := Vacated(Rewritten(s, p, s.procs[p].(isBlocked := true)));
      Sound(v) && Held(v, p) == 0 && forall x: Pid :: Held(v, x) + (if x == p then 1 else 0) == Held(s, x)
  {
    assert Held(s, p) <= 1;
    var t := Rewritten(s, p, s.procs[p].(isBlocked := true));
    var v := Vacated(t);
    LevelledRewrite(s.procs, s.queues, p, t.procs[p]);
    assert p !in s.blocked by {
      assert multiset(s.blocked)[p] == 0;
    }
    assert Placed(v);
    assert forall x: Pid :: Held(v, x) + (if x == p then 1 else 0) == Held(s, x);
    assert Exclusive(v);
  }

  /** block of the running process: the processor is rescheduled and the process is listed blocked. */
  lemma BlockRunningSound(s: PS, p: Pid)
    requires Sound(s) && s.current == Some(p)
    ensures Sound(BlockStep(s, Some(p))) && SameHeld(s, BlockStep(s, Some(p)))
  {
    var v := Vacated(Rewritten(s, p, s.procs[p].(isBlocked := true)));
    VacatedSound(s, p);
    ScheduleSound(v);
    ScheduleRecords(v);
    var w := ScheduleStep(v);
    assert Held(w, p) == 0;
    PushedSound(w, p);
    assert Pushed(w, p) == BlockStep(s, Some(p));
  }

  /** The ready process p flagged blocked and unlinked from its level is held nowhere. */
  lemma WithdrawnSound(s: PS, p: Pid)
    requires Sound(s) && s.current != Some(p) && Linked(s, p)
    ensures var u := Withdrawn(Rewritten(s, p, s.procs[p].(isBlocked := true)), p);
      Sound(u) && Held(u, p) == 0 && forall x: Pid :: Held(u, x) + (if x == p then 1 else 0) == Held(s, x)
  {
    var L := s.procs[p].priority;
    QueuedHas(s.queues, L);
    assert p in multiset(s.queues[L]);
    assert Held(s, p) <= 1;
    DequeueCounts(s.queues, L, p);
    var t := Rewritten(s, p, s.procs[p].(isBlocked := true));
    var u := Withdrawn(t, p);
    LevelledDequeue(s.procs, s.queues, L, p);
    LevelledRewrite(s.procs, u.queues, p, t.procs[p]);
    assert p !in s.blocked by {
      assert multiset(s.blocked)[p] == 0;
    }
    assert Placed(u);
    assert forall x: Pid :: Held(u, x) + (if x == p then 1 else 0) == Held(s, x);
    assert Exclusive(u);
  }

  /** block of a ready process: it leaves its level and is listed blocked. */
  lemma BlockReadySound(s: PS, p: Pid)
    requires Sound(s) && s.current != Some(p) && Linked(s, p)
    ensures Sound(BlockStep(s, Some(p))) && SameHeld(s, BlockStep(s, Some(p)))
  {
    var u := Withdrawn(Rewritten(s, p, s.procs[p].(isBlocked := true)), p);
    WithdrawnSound(s, p);
    PushedSound(u, p);
    assert Pushed(u, p) == BlockStep(s, Some(p));
  }

  /** block keeps the invariant and holds the same processes. */
  lemma BlockSound(s: PS, proc: Option<Pid>)
    requires Sound(s) && (proc.Some? ==> Blockable(s, proc.value))
    ensures Sound(BlockStep(s, proc)) && SameHeld(s, BlockStep(s, proc))
  {
    if proc.Some? {
      if s.current == proc {
        BlockRunningSound(s, proc.value);
      } else {
        BlockReadySound(s, proc.value);
      }
    }
  }

  /** b is record a after a schedule: only its running flag, remaining slice and age may differ, the age reset to 0. */
  predicate Rescheduled(a: Proc, b: Proc)
  {
    b.priority == a.priority && b.originalPriority == a.originalPriority && b.timeSlice == a.timeSlice
    && b.isBlocked == a.isBlocked && (b.age == a.age || b.age == 0)
  }

  /** schedule touches no list but the queues, and of the records only what a switch sets. */
  lemma ScheduleRecords(s: PS)
    requires WellFormed(s)
    ensures var r := ScheduleStep(s);
      r.procs.Keys == s.procs.Keys && r.blocked == s.blocked
      && forall q :: q in s.procs ==> Rescheduled(s.procs[q], r.procs[q])
  {
    var (t, next) := NextStep(s);
    assert t.procs == s.procs && t.blocked == s.blocked;
    if next != t.current {
      var u := if t.current.Some? then Preempt(t, t.current.value) else t;
      if t.current.Some? {
        PreemptRecords(t, t.current.value);
      }
      DispatchRecords(u, next);
      var r := Dispatch(u, next);
      assert forall q :: q in s.procs ==> Rescheduled(s.procs[q], u.procs[q]) && Rescheduled(u.procs[q], r.procs[q]);
    }
  }

  /** A dispatch touches no list, and of the records only what a switch sets. */
  lemma DispatchRecords(u: PS, next: Option<Pid>)
    requires WellFormed(u) && (next.Some? ==> next.value in u.procs)
    ensures var r := Dispatch(u, next);
      r.procs.Keys == u.procs.Keys && r.blocked == u.blocked
      && forall q :: q in u.procs ==> Rescheduled(u.procs[q], r.procs[q])
  {
  }

  /** A preemption touches no list but the queues, and of the records only the running flag. */
  lemma PreemptRecords(t: PS, c: Pid)
    requires WellFormed(t) && c in t.procs
    ensures var u := Preempt(t, c);
      u.procs.Keys == t.procs.Keys && u.blocked == t.blocked
      && forall q :: q in t.procs ==> Rescheduled(t.procs[q], u.procs[q]) && u.procs[q].age == t.procs[q].age
  {
  }

  // ---------------------------------------------------------------------------
  // The other operations keep the invariant
  // ---------------------------------------------------------------------------

  /**
   * unblock of a blocked-flagged process: it is held exactly once
   * afterwards, on the queue of its original priority; every other process
   * is held as before.
   */
  lemma UnblockSound(s: PS, proc: Option<Pid>)
    requires Sound(s) && (proc.Some? ==> proc.value in s.procs)
    ensures Sound(UnblockStep(s, proc))
    ensures forall x: Pid :: proc != Some(x) ==> Held(UnblockStep(s, proc), x) == Held(s, x)
    ensures proc.Some? && s.procs[proc.value].isBlocked ==> Held(UnblockStep(s, proc), proc.value) == 1
  {
    if proc.Some? && s.procs[proc.value].isBlocked {
      var p := proc.value;
      UnblockHeld(s, p);
      UnblockPlaced(s, p);
      var r := UnblockStep(s, proc);
      forall x: Pid
        ensures Held(r, x) <= 1
      {
        assert Held(r, x) == if x == p then 1 else Held(s, x);
      }
    }
  }

  /** Unblocking p holds it exactly once and every other process as before. */
  lemma UnblockHeld(s: PS, p: Pid)
    requires Sound(s) && p in s.procs && s.procs[p].isBlocked
    ensures forall x: Pid :: Held(UnblockStep(s, Some(p)), x) == if x == p then 1 else Held(s, x)
  {
    var rec := s.procs[p];
    var back := rec.(isBlocked := false, priority := rec.originalPriority, age := 0);
    var r := UnblockStep(s, Some(p));
    assert r.queues == Enqueue(s.queues, back.priority, p) && r.blocked == Unlink(s.blocked, p);
    assert r.current == s.current;
    FlaggedUnqueued(s, p);
    assert Held(s, p) <= 1;
    EnqueueCounts(s.queues, back.priority, p);
    UnlinkTakesOne(s.blocked, p);
    forall x: Pid
      ensures Held(r, x) == if x == p then 1 else Held(s, x)
    {
    }
  }

  /** After unblocking p every process is still where its record says. */
  lemma UnblockPlaced(s: PS, p: Pid)
    requires Sound(s) && p in s.procs && s.procs[p].isBlocked
    ensures Placed(UnblockStep(s, Some(p)))
  {
    var rec := s.procs[p];
    var back := rec.(isBlocked := false, priority := rec.originalPriority, age := 0);
    var r := UnblockStep(s, Some(p));
    assert r.procs == s.procs[p := back] && r.queues == Enqueue(s.queues, back.priority, p);
    assert r.blocked == Unlink(s.blocked, p) && r.current == s.current;
    FlaggedUnqueued(s, p);
    LevelledRewrite(s.procs, s.queues, p, back);
    LevelledEnqueue(s.procs[p := back], s.queues, back.priority, p);
    UnlinkTakesOne(s.blocked, p);
    assert Held(s, p) <= 1;
    forall i | 0 <= i < |r.blocked|
      ensures r.blocked[i] != p && r.procs[r.blocked[i]].isBlocked
    {
      assert r.blocked[i] in multiset(r.blocked);
      assert r.blocked[i] in s.blocked;
    }
  }

  /**
   * remove_process holds no process more often than before, and every other
   * process as before.  A ready or running process is then held nowhere; a
   * blocked one stays on the blocked list.
   */
  lemma RemoveSound(s: PS, proc: Option<Pid>)
    requires Sound(s)
    requires proc.Some? ==> proc.value in s.procs
    requires proc.Some? && !s.procs[proc.value].isBlocked && !s.procs[proc.value].isRunning ==> Linked(s, proc.value)
    ensures Sound(RemoveStep(s, proc))
    ensures forall x: Pid :: Held(RemoveStep(s, proc), x) <= Held(s, x)
    ensures forall x: Pid :: proc != Some(x) ==> Held(RemoveStep(s, proc), x) == Held(s, x)
    ensures proc.Some? && !s.procs[proc.value].isBlocked && (!s.procs[proc.value].isRunning || s.current == proc) ==>
              Held(RemoveStep(s, proc), proc.value) == 0
    ensures proc.Some? && s.procs[proc.value].isBlocked ==> Held(RemoveStep(s, proc), proc.value) == Held(s, proc.value)
  {
    if proc.Some? {
      var p := proc.value;
      var rec := s.procs[p];
      var r := RemoveStep(s, proc);
      assert Held(s, p) <= 1;
      if !rec.isBlocked && !rec.isRunning {
        QueuedHas(s.queues, rec.priority);
        assert p in multiset(s.queues[rec.priority]);
        DequeueCounts(s.queues, rec.priority, p);
        LevelledDequeue(s.procs, s.queues, rec.priority, p);
        assert forall x: Pid :: Held(r, x) + (if x == p then 1 else 0) == Held(s, x);
      } else {
        if rec.isBlocked {
          FlaggedUnqueued(s, p);
        }
        assert forall x: Pid :: Held(r, x) + (if x == p && s.current == proc then 1 else 0) == Held(s, x);
      }
      assert Placed(r);
    }
  }

  /**
   * set_priority keeps the invariant and holds the same processes, provided
   * a process flagged running and not blocked is not queued (a running flag
   * left stale by block makes set_priority misfile a queued process).
   */
  lemma SetPrioritySound(s: PS, proc: Option<Pid>, priority: int)
    requires Sound(s)
    requires proc.Some? ==> proc.value in s.procs
    requires proc.Some? && 0 <= priority <= MAX_PRIORITY ==>
               (!s.procs[proc.value].isRunning && !s.procs[proc.value].isBlocked ==> Linked(s, proc.value))
    requires proc.Some? && s.procs[proc.value].isRunning && !s.procs[proc.value].isBlocked ==> Queued(s.queues)[proc.value] == 0
    ensures Sound(SetPriorityStep(s, proc, priority)) && SameHeld(s, SetPriorityStep(s, proc, priority))
  {
    if proc.Some? && 0 <= priority <= MAX_PRIORITY {
      var p := proc.value;
      var rec := s.procs[p];
      var changed := rec.(priority := priority, originalPriority := priority, timeSlice := TimeSlice(priority));
      var r := SetPriorityStep(s, proc, priority);
      if !rec.isRunning && !rec.isBlocked {
        SetPriorityMoves(s, p, priority);
      } else {
        if rec.isBlocked {
          FlaggedUnqueued(s, p);
        }
        LevelledRewrite(s.procs, s.queues, p, changed);
        assert r == s.(procs := s.procs[p := changed]);
        assert Placed(r);
        assert forall x: Pid :: Held(r, x) == Held(s, x);
      }
    }
  }

  /** The ready case of set_priority: the process moves from its level to the tail of the new one. */
  lemma SetPriorityMoves(s: PS, p: Pid, priority: int)
    requires Sound(s) && 0 <= priority <= MAX_PRIORITY && Linked(s, p)
    requires !s.procs[p].isRunning && !s.procs[p].isBlocked
    ensures Sound(SetPriorityStep(s, Some(p), priority)) && SameHeld(s, SetPriorityStep(s, Some(p), priority))
  {
    var rec := s.procs[p];
    var changed := rec.(priority := priority, originalPriority := priority, timeSlice := TimeSlice(priority));
    var L := rec.priority;
    assert Held(s, p) <= 1;
    MovedCounts(s.queues, L, priority, p);
    MovedLevelled(s.procs, s.queues, p, changed);
    var r := SetPriorityStep(s, Some(p), priority);
    assert r.queues == Enqueue(Dequeue(s.queues, L, p), priority, p) && r.procs == s.procs[p := changed];
    assert Placed(r);
    assert forall x: Pid :: Held(r, x) == Held(s, x);
  }

  /** Moving a process from a level it is on to the tail of a level keeps every count. */
  lemma MovedCounts(qs: seq<seq<Pid>>, L: nat, M: nat, p: Pid)
    requires L < |qs| && M < |qs| && p in qs[L]
    ensures forall x: Pid :: Queued(Enqueue(Dequeue(qs, L, p), M, p))[x] == Queued(qs)[x]
  {
    DequeueCounts(qs, L, p);
    EnqueueCounts(Dequeue(qs, L, p), M, p);
  }

  /** Moving the only queued occurrence of p to the level its new record names keeps the levels right. */
  lemma MovedLevelled(procs: map<Pid, Proc>, qs: seq<seq<Pid>>, p: Pid, rec: Proc)
    requires RecordsOk(procs) && QueuesIn(qs, procs) && Levelled(procs, qs) && |qs| == LEVELS && p in procs
    requires p in qs[procs[p].priority] && Queued(qs)[p] <= 1
    requires rec.priority <= MAX_PRIORITY && !rec.isBlocked
    ensures var e := Enqueue(Dequeue(qs, procs[p].priority, p), rec.priority, p);
      QueuesIn(e, procs[p := rec]) && Levelled(procs[p := rec], e)
  {
    var L := procs[p].priority;
    var d := Dequeue(qs, L, p);
    QueuedHas(qs, L);
    assert p in multiset(qs[L]);
    DequeueCounts(qs, L, p);
    assert Queued(d)[p] == 0;
    LevelledDequeue(procs, qs, L, p);
    LevelledRewrite(procs, d, p, rec);
    LevelledEnqueue(procs[p := rec], d, rec.priority, p);
  }

  /** The clock part of timer_tick keeps the invariant and holds the same processes. */
  lemma ChargedSound(s: PS)
    requires Sound(s)
    ensures Sound(Charged(s)) && SameHeld(s, Charged(s))
  {
    var r := Charged(s);
    if s.current.Some? {
      var c := s.current.value;
      assert r.queues == s.queues && r.blocked == s.blocked && r.current == s.current;
      assert r.procs == s.procs[c := r.procs[c]];
      LevelledRewrite(s.procs, s.queues, c, r.procs[c]);
      assert Placed(r);
    }
    assert forall x: Pid :: Held(r, x) == Held(s, x);
  }

  /** timer_tick up to the wait-time loop keeps the invariant and holds the same processes. */
  lemma ClockedSound(s: PS)
    requires Sound(s)
    ensures Sound(Clocked(s)) && SameHeld(s, Clocked(s))
  {
    var c := Charged(s);
    ChargedSound(s);
    var d := if Expired(c) then ScheduleStep(c) else c;
    if Expired(c) {
      ScheduleSound(c);
    }
    assert Sound(d) && SameHeld(s, d);
    if d.currentTick % AGING_INTERVAL == 0 {
      AgedSound(d);
      assert Clocked(s) == Aged(d);
    } else {
      assert Clocked(s) == d;
    }
  }

  /** timer_tick keeps the invariant and holds the same processes. */
  lemma TickSound(s: PS)
    requires Sound(s)
    ensures Sound(TickStep(s)) && SameHeld(s, TickStep(s))
  {
    ClockedSound(s);
    var e := Clocked(s);
    assert forall x: Pid :: Held(TickStep(s), x) == Held(e, x);
  }

  /** priority_init leaves an initialized scheduler alone and otherwise holds nothing. */
  lemma InitSound(s: PS)
    requires WellFormed(s) && (s.initialized ==> Sound(s))
    ensures Sound(InitStep(s))
    ensures !s.initialized ==> forall x: Pid :: Held(InitStep(s), x) == 0
  {
    if !s.initialized {
      EmptySound(InitStep(s));
    }
  }

  /** priority_shutdown holds nothing. */
  lemma ShutdownSound(s: PS)
    requires WellFormed(s)
    ensures Sound(ShutdownStep(s)) && forall x: Pid :: Held(ShutdownStep(s), x) == 0
  {
    EmptySound(ShutdownStep(s));
  }

  /** A scheduler with empty queues, an empty blocked list and nothing running holds nothing. */
  lemma EmptySound(r: PS)
    requires WellFormed(r) && r.queues == EmptyQueues() && r.blocked == [] && r.current.None?
    ensures Sound(r) && forall x: Pid :: Held(r, x) == 0
  {
    NoneQueued(r.queues);
    forall x: Pid
      ensures Held(r, x) == 0
    {
      assert multiset(r.blocked)[x] == 0;
    }
  }

  // ---------------------------------------------------------------------------
  // Runs of operations keep the invariant
  // ---------------------------------------------------------------------------

  /** The invariant of every reachable state: exclusivity, placement, slices matching priorities, ages below 100. */
  ghost predicate Good(s: PS)
  {
    Sound(s) && SlicesMatch(s.procs) && AgesBelow(s.procs)
  }

  /** Records changed only as a schedule changes them keep their slices right and their ages low. */
  lemma RescheduledKeeps(a: map<Pid, Proc>, b: map<Pid, Proc>)
    requires RecordsOk(a) && RecordsOk(b) && b.Keys == a.Keys
    requires forall q :: q in a ==> Rescheduled(a[q], b[q])
    ensures SlicesMatch(a) ==> SlicesMatch(b)
    ensures AgesBelow(a) ==> AgesBelow(b)
  {
    assert forall q :: q in b ==> Rescheduled(a[q], b[q]);
  }

  lemma ScheduleKeepsGood(s: PS)
    requires Good(s)
    ensures Good(ScheduleStep(s))
  {
    ScheduleSound(s);
    ScheduleRecords(s);
    RescheduledKeeps(s.procs, ScheduleStep(s).procs);
  }

  lemma YieldKeepsGood(s: PS)
    requires Good(s)
    ensures Good(YieldStep(s))
  {
    YieldSound(s);
    match s.current
      case None =>
        ScheduleKeepsGood(s);
      case Some(c) =>
        var t := s.(procs := s.procs[c := s.procs[c].(remainingSlice := 0)]);
        ScheduleRecords(t);
        RescheduledKeeps(t.procs, YieldStep(s).procs);
  }

  lemma BlockKeepsGood(s: PS, proc: Option<Pid>)
    requires Good(s) && (proc.Some? ==> Blockable(s, proc.value))
    ensures Good(BlockStep(s, proc))
  {
    BlockSound(s, proc);
    BlockRecords(s, proc);
  }

  /** block changes of the records only the blocked flag and what a schedule sets. */
  lemma BlockRecords(s: PS, proc: Option<Pid>)
    requires WellFormed(s) && (proc.Some? ==> Blockable(s, proc.value))
    requires SlicesMatch(s.procs) && AgesBelow(s.procs)
    ensures SlicesMatch(BlockStep(s, proc).procs) && AgesBelow(BlockStep(s, proc).procs)
  {
    if proc.Some? && s.current == proc {
      var p := proc.value;
      var v := Vacated(Rewritten(s, p, s.procs[p].(isBlocked := true)));
      ScheduleRecords(v);
      RescheduledKeeps(v.procs, ScheduleStep(v).procs);
      assert BlockStep(s, proc).procs == ScheduleStep(v).procs;
    }
  }

  lemma TickKeepsGood(s: PS)
    requires Good(s)
    ensures Good(TickStep(s))
  {
    TickSound(s);
    ClockedKeepsRecords(s);
    assert TickStep(s).procs == Clocked(s).procs;
  }

  /** Charging, rescheduling and aging keep the slices right and the ages low. */
  lemma ClockedKeepsRecords(s: PS)
    requires Good(s)
    ensures SlicesMatch(Clocked(s).procs) && AgesBelow(Clocked(s).procs)
  {
    ChargedSound(s);
    var c := Charged(s);
    assert SlicesMatch(c.procs) && AgesBelow(c.procs);
    var d := if Expired(c) then ScheduleStep(c) else c;
    if Expired(c) {
      ScheduleSound(c);
      ScheduleRecords(c);
      RescheduledKeeps(c.procs, d.procs);
    }
    if d.currentTick % AGING_INTERVAL == 0 {
      AgedSound(d);
    }
  }

  lemma AddKeepsGood(s: PS, proc: Option<Pid>, priority: U32)
    requires Good(s) && (proc.Some? ==> Held(s, proc.value) == 0)
    ensures Good(AddStep(s, proc, priority))
  {
    AddSound(s, proc, priority);
  }

  lemma RemoveKeepsGood(s: PS, proc: Option<Pid>)
    requires Good(s)
    requires proc.Some? ==> proc.value in s.procs
    requires proc.Some? && !s.procs[proc.value].isBlocked && !s.procs[proc.value].isRunning ==> Linked(s, proc.value)
    ensures Good(RemoveStep(s, proc))
  {
    RemoveSound(s, proc);
  }

  lemma NextKeepsGood(s: PS)
    requires Good(s)
    ensures Good(NextStep(s).0)
  {
    NextSound(s);
    assert Exclusive(NextStep(s).0);
  }

  lemma UnblockKeepsGood(s: PS, proc: Option<Pid>)
    requires Good(s) && (proc.Some? ==> proc.value in s.procs)
    ensures Good(UnblockStep(s, proc))
  {
    UnblockSound(s, proc);
  }

  lemma SetPriorityKeepsGood(s: PS, proc: Option<Pid>, priority: int)
    requires Good(s)
    requires proc.Some? ==> proc.value in s.procs
    requires proc.Some? && 0 <= priority <= MAX_PRIORITY ==>
               (!s.procs[proc.value].isRunning && !s.procs[proc.value].isBlocked ==> Linked(s, proc.value))
    requires proc.Some? && s.procs[proc.value].isRunning && !s.procs[proc.value].isBlocked ==> Queued(s.queues)[proc.value] == 0
    ensures Good(SetPriorityStep(s, proc, priority))
  {
    SetPrioritySound(s, proc, priority);
  }

  /** The state-changing entries of priority_scheduler_ops. */
  datatype Op =
    | OpInit | OpShutdown | OpAdd(proc: Option<Pid>, priority: U32) | OpRemove(proc: Option<Pid>)
    | OpGetNext | OpSchedule | OpYield | OpBlock(proc: Option<Pid>) | OpUnblock(proc: Option<Pid>)
    | OpTick | OpSetPriority(proc: Option<Pid>, level: int)

  /**
   * What each operation needs of its argument: a record the caller passes
   * exists; add_process gets a process the scheduler does not hold; the
   * unlinks of remove_process, block and set_priority find the process on
   * the level its record names; set_priority is not given a queued process
   * whose running flag block left stale.
   */
  ghost predicate Allowed(s: PS, op: Op)
    requires WellFormed(s)
  {
    match op
    case OpAdd(proc, _) => proc.Some? ==> Held(s, proc.value) == 0
    case OpRemove(proc) =>
      proc.Some? ==> proc.value in s.procs
                     && (!s.procs[proc.value].isBlocked && !s.procs[proc.value].isRunning ==> Linked(s, proc.value))
    case OpBlock(proc) => proc.Some? ==> Blockable(s, proc.value)
    case OpUnblock(proc) => proc.Some? ==> proc.value in s.procs
    case OpSetPriority(proc, level) =>
      proc.Some? ==> proc.value in s.procs
                     && (0 <= level <= MAX_PRIORITY && !s.procs[proc.value].isRunning && !s.procs[proc.value].isBlocked ==> Linked(s, proc.value))
                     && (s.procs[proc.value].isRunning && !s.procs[proc.value].isBlocked ==> Queued(s.queues)[proc.value] == 0)
    case _ => true
  }

  function Step(s: PS, op: Op): (r: PS)
    requires WellFormed(s) && Allowed(s, op)
    ensures WellFormed(r)
  {
    match op
    case OpInit => InitStep(s)
    case OpShutdown => ShutdownStep(s)
    case OpAdd(proc, priority) => AddStep(s, proc, priority)
    case OpRemove(proc) => RemoveStep(s, proc)
    case OpGetNext => NextStep(s).0
    case OpSchedule => ScheduleStep(s)
    case OpYield => YieldStep(s)
    case OpBlock(proc) => BlockStep(s, proc)
    case OpUnblock(proc) => UnblockStep(s, proc)
    case OpTick => TickStep(s)
    case OpSetPriority(proc, level) => SetPriorityStep(s, proc, level)
  }

  /** Every operation keeps the invariant. */
  lemma StepKeepsGood(s: PS, op: Op)
    requires Good(s) && Allowed(s, op)
    ensures Good(Step(s, op))
  {
    match op
    case OpInit => InitSound(s);
    case OpShutdown => ShutdownSound(s);
    case OpAdd(proc, priority) => AddKeepsGood(s, proc, priority);
    case OpRemove(proc) => RemoveKeepsGood(s, proc);
    case OpGetNext => NextKeepsGood(s);
    case OpSchedule => ScheduleKeepsGood(s);
    case OpYield => YieldKeepsGood(s);
    case OpBlock(proc) => BlockKeepsGood(s, proc);
    case OpUnblock(proc) => UnblockKeepsGood(s, proc);
    case OpTick => TickKeepsGood(s);
    case OpSetPriority(proc, level) => SetPriorityKeepsGood(s, proc, level);
  }

  /** The operations of a run each respect Allowed in the state they meet. */
  ghost predicate RunAllowed(s: PS, ops: seq<Op>)
    requires WellFormed(s)
    decreases |ops|
  {
    |ops| == 0 || (Allowed(s, ops[0]) && RunAllowed(Step(s, ops[0]), ops[1..]))
  }

  function Run(s: PS, ops: seq<Op>): (r: PS)
    requires WellFormed(s) && RunAllowed(s, ops)
    ensures WellFormed(r)
    decreases |ops|
  {
    if |ops| == 0 then s else Run(Step(s, ops[0]), ops[1..])
  }

  /** Every run keeps the invariant. */
  lemma {:induction false} RunKeepsGood(s: PS, ops: seq<Op>)
    requires Good(s) && RunAllowed(s, ops)
    ensures Good(Run(s, ops))
    decreases |ops|
  {
    if |ops| > 0 {
      StepKeepsGood(s, ops[0]);
      RunKeepsGood(Step(s, ops[0]), ops[1..]);
    }
  }

  /** From boot, whatever runs, each process is held at most once, in the place its record names. */
  lemma BootRunsGood(ops: seq<Op>)
    requires RunAllowed(Boot(), ops)
    ensures Good(Run(Boot(), ops))
  {
    BootGood();
    RunKeepsGood(Boot(), ops);
  }

  /** The boot state holds nothing. */
  lemma BootGood()
    ensures Good(Boot()) && forall x: Pid :: Held(Boot(), x) == 0
  {
    NoneQueued(Boot().queues);
  }

  // ---------------------------------------------------------------------------
  // What the operations do
  // ---------------------------------------------------------------------------

  /**
   * get_next finds nothing exactly when all 32 queues are empty; otherwise
   * it hands out the head of a level no other queued process outranks, and
   * takes only that head off.
   */
  lemma NextTakesHighest(s: PS)
    requires WellFormed(s) && Levelled(s.procs, s.queues)
    ensures var (t, next) := NextStep(s);
      (next.None? <==> forall L :: 0 <= L < LEVELS ==> s.queues[L] == [])
      && (next.Some? ==>
            var L := s.procs[next.value].priority;
            s.queues[L] != [] && next.value == s.queues[L][0] && t.queues == s.queues[L := s.queues[L][1..]]
            && forall M, i :: 0 <= M < LEVELS && 0 <= i < |s.queues[M]| ==> s.procs[s.queues[M][i]].priority <= L)
  {
    match Highest(s.queues)
      case None =>
      case Some(L) =>
        assert s.queues[L][0] in s.queues[L];
  }

  /**
   * schedule replaces the running process whenever get_next's choice
   * differs from it, whatever their priorities: a running process rejoins
   * the tail of its level, even when nothing else is ready and nothing then
   * runs; the newcomer starts a fresh slice at age 0; one context switch is
   * counted.  Under the invariant the choice can only equal the running
   * slot when both are empty, and then nothing changes.
   */
  lemma ScheduleSwitches(s: PS)
    requires Sound(s)
    ensures var (t, next) := NextStep(s); var r := ScheduleStep(s);
      (next.None? && s.current.None? ==> r == s)
      && (next.Some? || s.current.Some? ==>
            r.current == next && next != s.current && r.contextSwitches == AddU32(s.contextSwitches, 1)
            && r.blocked == s.blocked
            && (next.Some? ==> var n := next.value;
                  r.procs[n] == s.procs[n].(isRunning := true, remainingSlice := s.procs[n].timeSlice, age := 0))
            && (s.current.Some? ==> var c := s.current.value;
                  !r.procs[c].isRunning && r.queues[s.procs[c].priority] == t.queues[s.procs[c].priority] + [c]))
  {
    NextSound(s);
    var (t, next) := NextStep(s);
    if s.current.Some? {
      assert Held(s, s.current.value) <= 1;
      assert Held(t, s.current.value) + (if next == s.current then 1 else 0) == Held(s, s.current.value);
    }
  }

  /** The exported get_next takes the process it returns off its queue without running it: the scheduler then holds it nowhere. */
  lemma NextDropsProcess(s: PS)
    requires Sound(s) && NextStep(s).1.Some?
    ensures var (t, next) := NextStep(s); Held(s, next.value) == 1 && Held(t, next.value) == 0
  {
    NextSound(s);
  }

  /** add_process of the process p: reset record, tail of its level, one more process counted. */
  lemma AddAppends(s: PS, p: Pid, priority: U32)
    requires WellFormed(s)
    ensures var r := AddStep(s, Some(p), priority); var L := r.procs[p].priority;
      L == (if priority > MAX_PRIORITY then DEFAULT_PRIORITY else priority)
      && r.procs[p].originalPriority == L && r.procs[p].age == 0
      && r.procs[p].timeSlice == 10 + 2 * L && r.procs[p].remainingSlice == r.procs[p].timeSlice
      && !r.procs[p].isRunning && !r.procs[p].isBlocked
      && r.queues[L] == s.queues[L] + [p]
      && (forall M :: 0 <= M < LEVELS && M != L ==> r.queues[M] == s.queues[M])
      && r.totalProcesses == AddU32(s.totalProcesses, 1)
  {
  }

  /** block of the running process leaves its running flag set, although it no longer runs and heads the blocked list. */
  lemma BlockKeepsRunningFlag(s: PS, p: Pid)
    requires Sound(s) && s.current == Some(p)
    ensures var r := BlockStep(s, Some(p));
      r.procs[p].isRunning && r.procs[p].isBlocked && r.blocked == [p] + s.blocked && r.current != Some(p)
  {
    var v := Vacated(Rewritten(s, p, s.procs[p].(isBlocked := true)));
    VacatedSound(s, p);
    ScheduleSound(v);
    var w := ScheduleStep(v);
    assert Held(w, p) == 0;
    ScheduleSwitches(v);
    assert w.procs[p] == v.procs[p];
  }

  /** block of a ready process: it leaves its level and heads the blocked list, flagged blocked. */
  lemma BlockReadyMoves(s: PS, p: Pid)
    requires WellFormed(s) && s.current != Some(p) && Linked(s, p) && p !in s.blocked
    ensures var r := BlockStep(s, Some(p)); var L := s.procs[p].priority;
      r.queues == s.queues[L := Unlink(s.queues[L], p)] && r.blocked == [p] + s.blocked
      && r.procs == s.procs[p := s.procs[p].(isBlocked := true)] && r.current == s.current
  {
  }

  /**
   * unblock of a blocked process: it leaves the blocked list and rejoins
   * the tail of its original level, aging undone; anything else is left
   * alone.
   */
  lemma UnblockRestores(s: PS, p: Pid)
    requires WellFormed(s) && p in s.procs
    ensures var r := UnblockStep(s, Some(p)); var o := s.procs[p].originalPriority;
      (!s.procs[p].isBlocked ==> r == s)
      && (s.procs[p].isBlocked ==>
            r.procs[p] == s.procs[p].(isBlocked := false, priority := o, age := 0)
            && r.queues[o] == s.queues[o] + [p]
            && (forall M :: 0 <= M < LEVELS && M != o ==> r.queues[M] == s.queues[M])
            && multiset(r.blocked) == multiset(s.blocked) - multiset{p}
            && r.current == s.current)
  {
    if s.procs[p].isBlocked {
      var rec := s.procs[p];
      var back := rec.(isBlocked := false, priority := rec.originalPriority, age := 0);
      var r := UnblockStep(s, Some(p));
      assert r == s.(blocked := Unlink(s.blocked, p), procs := s.procs[p := back],
                     queues := Enqueue(s.queues, rec.originalPriority, p));
      UnlinkTakesOne(s.blocked, p);
    }
  }

  /** Unlinking takes one occurrence of p off the list, or none when there is none. */
  lemma UnlinkTakesOne(l: seq<Pid>, p: Pid)
    ensures multiset(Unlink(l, p)) == multiset(l) - multiset{p}
  {
    if p in l {
      assert multiset(Unlink(l, p)) + multiset{p} == multiset(l);
    } else {
      assert multiset(l)[p] == 0;
    }
  }

  /**
   * set_priority ignores a level outside 0..31; otherwise the record gets
   * the level as priority and original priority with the matching slice,
   * and a ready process moves from its old level to the tail of the new
   * one, even when the two are the same.
   */
  lemma SetPriorityOutcome(s: PS, p: Pid, level: int)
    requires WellFormed(s) && p in s.procs
    requires 0 <= level <= MAX_PRIORITY && !s.procs[p].isRunning && !s.procs[p].isBlocked ==> Linked(s, p)
    ensures var r := SetPriorityStep(s, Some(p), level);
      (level < 0 || level > MAX_PRIORITY ==> r == s)
      && (0 <= level <= MAX_PRIORITY ==>
            r.procs[p].priority == level && r.procs[p].originalPriority == level
            && r.procs[p].timeSlice == 10 + 2 * level
            && r.blocked == s.blocked && r.current == s.current
            && (s.procs[p].isRunning || s.procs[p].isBlocked ==> r.queues == s.queues)
            && (!s.procs[p].isRunning && !s.procs[p].isBlocked ==>
                  var L := s.procs[p].priority;
                  r.queues == Enqueue(s.queues[L := Unlink(s.queues[L], p)], level, p)))
  {
  }

  /** The wait-time loop of timer_tick at level k: the number of processes queued from level k on, added modulo 2^32. */
  lemma {:induction false} AccrueCounts(total: U32, qs: seq<seq<Pid>>, k: nat)
    requires k <= |qs|
    ensures Accrue(total, qs, k) == ToU32(total + |Queued(qs[k..])|)
    decreases |qs| - k
  {
    if k < |qs| {
      AccrueCounts(ToU32(total + |qs[k]|), qs, k + 1);
      ToU32Add(total + |qs[k]|, |Queued(qs[k + 1..])|);
      assert qs[k..][1..] == qs[k + 1..];
      assert |Queued(qs[k..])| == |qs[k]| + |Queued(qs[k + 1..])|;
    }
  }

  /**
   * timer_tick: one more tick; a positive remaining slice of the running
   * process drops by 1; the processor is rescheduled when that slice is
   * then 0; an aging pass runs on every 100th tick; and the wait total grows
   * by the number of ready processes, modulo 2^32.
   */
  lemma TickOutcome(s: PS)
    requires WellFormed(s)
    ensures var c := Charged(s); var e := Clocked(s);
      c.currentTick == AddU32(s.currentTick, 1)
      && (s.current.Some? ==> var p := s.current.value;
            c.procs[p].remainingSlice == (if s.procs[p].remainingSlice > 0 then s.procs[p].remainingSlice - 1 else 0))
      && (var d := if Expired(c) then ScheduleStep(c) else c;
            e == if d.currentTick % AGING_INTERVAL == 0 then Aged(d) else d)
      && TickStep(s) == e.(totalWaitTime := ToU32(e.totalWaitTime + |Queued(e.queues)|))
  {
    var e := Clocked(s);
    AccrueCounts(e.totalWaitTime, e.queues, 0);
    assert e.queues[0..] == e.queues;
  }

  // ---------------------------------------------------------------------------
  // The scheduler state, updated in place
  // ---------------------------------------------------------------------------

  /**
   * priority_state: the 32 ready queues, the running slot, the blocked list
   * and the counters, together with the process records the scheduler writes.
   */
  class Priority {
    var procs: map<Pid, Proc>
    const readyQueues: array<seq<Pid>>
    var current: Option<Pid>
    var blocked: seq<Pid>
    var totalProcesses: U32
    var contextSwitches: U32
    var totalWaitTime: U32
    var currentTick: U32
    var initialized: bool

    function State(): PS
      reads this, readyQueues
    {
      PS(procs, readyQueues[..], current, blocked, totalProcesses, contextSwitches,
         totalWaitTime, currentTick, initialized)
    }

    ghost predicate Valid()
      reads this, readyQueues
    {
      readyQueues.Length == LEVELS && WellFormed(State())
    }

    /** The zero-initialized static state. */
    constructor ()
      ensures Valid() && State() == Boot()
    {
      procs := map[];
      readyQueues := new seq<Pid>[LEVELS](_ => []);
      current := None;
      blocked := [];
      totalProcesses := 0;
      contextSwitches := 0;
      totalWaitTime := 0;
      currentTick := 0;
      initialized := false;
      new;
      assert readyQueues[..] == EmptyQueues();
    }

    /** enqueue_process on level L. */
    method EnqueueProcess(L: nat, p: Pid)
      requires L < readyQueues.Length
      modifies readyQueues
      ensures readyQueues[..] == Enqueue(old(readyQueues[..]), L, p)
    {
      readyQueues[L] := readyQueues[L] + [p];
    }

    /** dequeue_process on level L: the head leaves the queue, or nothing for an empty one. */
    method DequeueProcess(L: nat) returns (p: Option<Pid>)
      requires L < readyQueues.Length
      modifies readyQueues
      ensures |old(readyQueues[L])| == 0 ==> p.None? && readyQueues[..] == old(readyQueues[..])
      ensures |old(readyQueues[L])| > 0 ==>
        p == Some(old(readyQueues[L])[0]) && readyQueues[..] == old(readyQueues[..])[L := old(readyQueues[L])[1..]]
    {
      if |readyQueues[L]| == 0 {
        return None;
      }
      p := Some(readyQueues[L][0]);
      readyQueues[L] := readyQueues[L][1..];
    }

    /** remove_process_from_queue on level L. */
    method RemoveProcessFromQueue(L: nat, p: Pid)
      requires L < readyQueues.Length
      modifies readyQueues
      ensures readyQueues[..] == Dequeue(old(readyQueues[..]), L, p)
    {
      readyQueues[L] := Unlink(readyQueues[L], p);
    }

    /** find_highest_priority: the highest non-empty level, or -1. */
    method FindHighestPriority() returns (level: int)
      requires readyQueues.Length == LEVELS
      ensures level == -1 <==> Highest(readyQueues[..]).None?
      ensures level != -1 ==> Highest(readyQueues[..]) == Some(level)
    {
      level := MAX_PRIORITY;
      while level >= 0
        invariant -1 <= level <= MAX_PRIORITY
        invariant HighestBelow(readyQueues[..], level + 1) == HighestBelow(readyQueues[..], LEVELS)
      {
        if |readyQueues[level]| > 0 {
          return level;
        }
        level := level - 1;
      }
    }

    /** The first loop of priority_init and the loop of priority_shutdown: every queue emptied. */
    method ClearQueues()
      requires readyQueues.Length == LEVELS
      modifies readyQueues
      ensures readyQueues[..] == EmptyQueues()
    {
      var i := 0;
      while i < LEVELS
        invariant 0 <= i <= LEVELS
        invariant forall L :: 0 <= L < i ==> readyQueues[L] == []
      {
        readyQueues[i] := [];
        i := i + 1;
      }
      assert readyQueues[..] == EmptyQueues();
    }

    method Init() returns (rc: int)
      requires Valid()
      modifies this, readyQueues
      ensures Valid() && rc == 0 && State() == InitStep(old(State()))
    {
      if initialized {
        return 0;
      }
      ClearQueues();
      current := None;
      blocked := [];
      totalProcesses := 0;
      contextSwitches := 0;
      totalWaitTime := 0;
      currentTick := 0;
      initialized := true;
      return 0;
    }

    method Shutdown()
      requires Valid()
      modifies this, readyQueues
      ensures Valid() && State() == ShutdownStep(old(State()))
    {
      ClearQueues();
      current := None;
      blocked := [];
      totalProcesses := 0;
      initialized := false;
    }

    /** add_process, where priority is the value the caller left in the record. */
    method AddProcess(proc: Option<Pid>, priority: U32)
      requires Valid()
      modifies this, readyQueues
      ensures Valid() && State() == AddStep(old(State()), proc, priority)
    {
      if proc.None? {
        return;
      }
      var p := proc.value;
      var level := if priority > MAX_PRIORITY then DEFAULT_PRIORITY else priority;
      var slice := TimeSlice(level);
      procs := procs[p := Proc(level, level, 0, slice, slice, false, false)];
      EnqueueProcess(level, p);
      totalProcesses := AddU32(totalProcesses, 1);
    }

    method RemoveProcess(proc: Option<Pid>)
      requires Valid()
      requires proc.Some? ==> proc.value in procs
      requires proc.Some? && !procs[proc.value].isBlocked && !procs[proc.value].isRunning ==> Linked(State(), proc.value)
      modifies this, readyQueues
      ensures Valid() && State() == RemoveStep(old(State()), proc)
    {
      if proc.None? {
        return;
      }
      var p := proc.value;
      if !procs[p].isBlocked && !procs[p].isRunning {
        RemoveProcessFromQueue(procs[p].priority, p);
      }
      if current == Some(p) {
        current := None;
      }
      totalProcesses := SubU32(totalProcesses, 1);
    }

    method GetNext() returns (next: Option<Pid>)
      requires Valid()
      modifies readyQueues
      ensures Valid() && (State(), next) == NextStep(old(State()))
    {
      var level := FindHighestPriority();
      if level < 0 {
        return None;
      }
      next := DequeueProcess(level);
    }

    method Schedule()
      requires Valid()
      modifies this, readyQueues
      ensures Valid() && State() == ScheduleStep(old(State()))
    {
      var next := GetNext();
      if next != current {
        if current.Some? {
          PreemptCurrent();
        }
        DispatchNext(next);
      }
    }

    /** The running process stops running and, unless blocked, rejoins the tail of its level. */
    method PreemptCurrent()
      requires Valid() && current.Some?
      modifies this`procs, readyQueues
      ensures Valid() && State() == Preempt(old(State()), old(current.value))
    {
      var c := current.value;
      var rec := procs[c].(isRunning := false);
      procs := procs[c := rec];
      if !rec.isBlocked {
        EnqueueProcess(rec.priority, c);
      }
    }

    /** The running slot gets next, which starts a fresh slice at age 0; one more context switch. */
    method DispatchNext(next: Option<Pid>)
      requires Valid() && (next.Some? ==> next.value in procs)
      modifies this`procs, this`current, this`contextSwitches
      ensures Valid() && State() == Dispatch(old(State()), next)
    {
      current := next;
      if next.Some? {
        var n := next.value;
        procs := procs[n := procs[n].(isRunning := true, remainingSlice := procs[n].timeSlice, age := 0)];
      }
      contextSwitches := AddU32(contextSwitches, 1);
    }

    method Yield()
      requires Valid()
      modifies this, readyQueues
      ensures Valid() && State() == YieldStep(old(State()))
    {
      if current.Some? {
        var c := current.value;
        procs := procs[c := procs[c].(remainingSlice := 0)];
      }
      Schedule();
    }

    method Block(proc: Option<Pid>)
      requires Valid()
      requires proc.Some? ==> Blockable(State(), proc.value)
      modifies this, readyQueues
      ensures Valid() && State() == BlockStep(old(State()), proc)
    {
      if proc.None? {
        return;
      }
      var p := proc.value;
      ghost var t := Rewritten(State(), p, procs[p].(isBlocked := true));
      procs := procs[p := procs[p].(isBlocked := true)];
      assert State() == t;
      if current == Some(p) {
        current := None;
        assert State() == Vacated(t);
        Schedule();
      } else {
        RemoveProcessFromQueue(procs[p].priority, p);
        assert State() == Withdrawn(t, p);
      }
      blocked := [p] + blocked;
    }

    method Unblock(proc: Option<Pid>)
      requires Valid()
      requires proc.Some? ==> proc.value in procs
      modifies this, readyQueues
      ensures Valid() && State() == UnblockStep(old(State()), proc)
    {
      if proc.None? || !procs[proc.value].isBlocked {
        return;
      }
      var p := proc.value;
      UnlinkBlocked(p);
      var rec := procs[p];
      procs := procs[p := rec.(isBlocked := false, priority := rec.originalPriority, age := 0)];
      EnqueueProcess(rec.originalPriority, p);
    }

    /** The walk of unblock over the blocked list: the first node of p is unlinked, if any. */
    method UnlinkBlocked(p: Pid)
      requires Valid()
      modifies this`blocked
      ensures Valid() && blocked == Unlink(old(blocked), p)
    {
      var i := 0;
      while i < |blocked| && blocked[i] != p
        invariant 0 <= i <= |blocked|
        invariant forall j :: 0 <= j < i ==> blocked[j] != p
      {
        i := i + 1;
      }
      if i < |blocked| {
        blocked := RemoveAt(blocked, i);
      }
    }

    method TimerTick()
      requires Valid()
      modifies this, readyQueues
      ensures Valid() && State() == TickStep(old(State()))
    {
      Charge();
      if current.Some? && procs[current.value].remainingSlice == 0 {
        Schedule();
      }
      if currentTick % AGING_INTERVAL == 0 {
        AgeProcesses();
      }
      AccrueWait();
    }

    /** The start of timer_tick: one more tick, and one unit less of a positive running slice. */
    method Charge()
      requires Valid()
      modifies this
      ensures Valid() && State() == Charged(old(State()))
    {
      currentTick := AddU32(currentTick, 1);
      if current.Some? {
        var c := current.value;
        if procs[c].remainingSlice > 0 {
          procs := procs[c := procs[c].(remainingSlice := procs[c].remainingSlice - 1)];
        }
      }
    }

    /** The wait-time loop of timer_tick: every queue's count is added to the total wait. */
    method AccrueWait()
      requires Valid()
      modifies this`totalWaitTime
      ensures Valid() && State() == old(State()).(totalWaitTime := Accrue(old(totalWaitTime), readyQueues[..], 0))
    {
      var level := 0;
      var total: U32 := totalWaitTime;
      while level < LEVELS
        invariant 0 <= level <= LEVELS
        invariant Accrue(total, readyQueues[..], level) == Accrue(totalWaitTime, readyQueues[..], 0)
      {
        total := ToU32(total + |readyQueues[level]|);
        level := level + 1;
      }
      totalWaitTime := total;
    }

    /** age_processes: the walks over levels 0 to 30, each over the level as it stands when its walk starts. */
    method AgeProcesses()
      requires Valid()
      modifies this`procs, readyQueues
      ensures Valid() && State() == Aged(old(State()))
    {
      ghost var s0 := State();
      var level := 0;
      while level < MAX_PRIORITY
        invariant 0 <= level <= MAX_PRIORITY
        invariant QueuesIn(readyQueues[..], procs) && RecordsOk(procs) && procs.Keys == s0.procs.Keys
        invariant AgeFrom(procs, readyQueues[..], level) == AgeFrom(s0.procs, s0.queues, 0)
      {
        ghost var m, t := procs, readyQueues[..];
        WalkLevel(level);
        AgeLevelWellFormed(m, t, level);
        level := level + 1;
      }
    }

    /**
     * The walk over one level: each process ages by one, and one whose age
     * reaches 100 is unlinked and appended to the next level up with age 0.
     */
    method WalkLevel(L: nat)
      requires readyQueues.Length == LEVELS && L < MAX_PRIORITY
      requires QueuesIn(readyQueues[..], procs) && RecordsOk(procs)
      modifies this`procs, readyQueues
      ensures (procs, readyQueues[..]) == AgeLevel(old(procs), old(readyQueues[..]), L)
    {
      var q := readyQueues[L];
      ghost var p0, qs0 := procs, readyQueues[..];
      var j := 0;
      var kept := 0;
      while j < |q|
        invariant 0 <= j <= |q|
        invariant kept + (|q| - j) == |readyQueues[L]|
        invariant procs.Keys == p0.Keys
        invariant forall i :: j <= i < |q| ==> q[i] in procs
        invariant Walk(procs, readyQueues[..], L, q[j..], kept) == Walk(p0, qs0, L, q, 0)
      {
        var p := q[j];
        var rec := procs[p];
        var aged := rec.(age := AddU32(rec.age, 1));
        assert q[j..][0] == p && q[j..][1..] == q[j + 1..];
        ghost var qs := readyQueues[..];
        if aged.age >= AGING_INTERVAL {
          // the cap at MAX_PRIORITY never applies: L + 1 <= 31
          procs := procs[p := aged.(priority := L + 1, age := 0)];
          readyQueues[L] := RemoveAt(readyQueues[L], kept);
          readyQueues[L + 1] := readyQueues[L + 1] + [p];
          assert readyQueues[..] == Enqueue(qs[L := RemoveAt(qs[L], kept)], L + 1, p);
        } else {
          procs := procs[p := aged];
          kept := kept + 1;
        }
        j := j + 1;
      }
    }

    /** get_time_slice: the record's slice, 0 for a null process. */
    method GetTimeSlice(proc: Option<Pid>) returns (r: U32)
      requires proc.Some? ==> proc.value in procs
      ensures proc.None? ==> r == 0
      ensures proc.Some? ==> r == procs[proc.value].timeSlice
    {
      if proc.None? {
        return 0;
      }
      return procs[proc.value].timeSlice;
    }

    method SetPriority(proc: Option<Pid>, priority: int)
      requires Valid()
      requires proc.Some? ==> proc.value in procs
      requires proc.Some? && 0 <= priority <= MAX_PRIORITY ==>
                 (!procs[proc.value].isRunning && !procs[proc.value].isBlocked ==> Linked(State(), proc.value))
      modifies this, readyQueues
      ensures Valid() && State() == SetPriorityStep(old(State()), proc, priority)
    {
      if proc.None? || priority < 0 || priority > MAX_PRIORITY {
        return;
      }
      var p := proc.value;
      var rec := procs[p];
      var changed := rec.(priority := priority, originalPriority := priority, timeSlice := TimeSlice(priority));
      if !rec.isRunning && !rec.isBlocked {
        RemoveProcessFromQueue(rec.priority, p);
        procs := procs[p := changed];
        EnqueueProcess(priority, p);
      } else {
        procs := procs[p := changed];
      }
    }

    /** get_priority: the record's priority, -1 for a null process. */
    method GetPriority(proc: Option<Pid>) returns (r: int)
      requires Valid()
      requires proc.Some? ==> proc.value in procs
      ensures r == -1 <==> proc.None?
      ensures proc.Some? ==> r == procs[proc.value].priority && 0 <= r <= MAX_PRIORITY
    {
      if proc.None? {
        return -1;
      }
      return procs[proc.value].priority;
    }

    method GetContextSwitches() returns (r: U32)
      ensures r == contextSwitches
    {
      return contextSwitches;
    }

    /** get_avg_wait_time: the total wait over the ticks, rounded down, 0 before the first tick. */
    method GetAvgWaitTime() returns (r: U32)
      ensures currentTick == 0 ==> r == 0
      ensures currentTick > 0 ==> r * currentTick <= totalWaitTime < (r + 1) * currentTick
    {
      if currentTick == 0 {
        return 0;
      }
      return totalWaitTime / currentTick;
    }
  }
}
