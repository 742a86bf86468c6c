/**
 * The message-queue IPC transport (kernel/ipc/message_queue_ipc.c): 32
 * channel slots, each with a FIFO of at most 16 message entries, and one
 * shared pool of 32 * 16 entries handed out by a rotating cursor and marked
 * in an `entry_used` array.
 *
 * A channel's linked list of entries is the sequence of their pool indices,
 * head first.  The counters the source keeps in uint32_t wrap as they do in
 * C; `active_channels` and `queue_size` are size_t, 32 bits wide on i386.
 */
module MessageQueueIpc {
  import opened Wrappers
  import opened Registry

  const MAX_CHANNELS: nat := 32
  const MAX_QUEUE_DEPTH: nat := 16

  /** The number of entries in the static pool. */
  const POOL_ENTRIES: nat := 512

  /** message_entry_t without its `next` link. */
  datatype Entry = Entry(message: IpcMessage, timestamp: U32)

  /** message_channel_t; `queue` is the list from queue_head to queue_tail. */
  datatype Channel = Channel(
    channelId: U32,
    senderId: U32,
    receiverId: U32,
    queue: seq<nat>,
    queueSize: nat,
    maxQueueSize: nat,
    isBlocking: bool,
    inUse: bool,
    messagesSent: U32,
    messagesReceived: U32,
    messagesDropped: U32)

  /** The whole of mq_state. */
  datatype MQ = MQ(
    channels: seq<Channel>,
    nextChannelId: U32,
    activeChannels: U32,
    currentTick: U32,
    initialized: bool,
    pool: seq<Entry>,
    used: seq<bool>,
    nextEntryIndex: nat)

  /** A slot as the zero-initialized static array holds it. */
  const ZERO_CHANNEL: Channel := Channel(0, 0, 0, [], 0, 0, false, false, 0, 0, 0)

  /** A slot as mq_init leaves it. */
  const IDLE_CHANNEL: Channel := Channel(0, 0, 0, [], 0, MAX_QUEUE_DEPTH, true, false, 0, 0, 0)

  // ---------------------------------------------------------------------------
  // Well-formedness
  // ---------------------------------------------------------------------------

  /**
   * A channel's bookkeeping agrees with its list: the size is the length, no
   * longer than the depth cap; a free slot holds no list; and the entries in a
   * live channel are those sent and not yet received.
   */
  predicate ChannelShape(c: Channel)
  {
    c.queueSize == |c.queue| && |c.queue| <= MAX_QUEUE_DEPTH && c.maxQueueSize <= MAX_QUEUE_DEPTH
    && (forall k :: 0 <= k < |c.queue| ==> c.queue[k] < POOL_ENTRIES)
    && (!c.inUse ==> c.queue == [])
    && (c.inUse ==> SubU32(c.messagesSent, c.messagesReceived) == c.queueSize)
  }

  predicate Shaped(s: MQ)
  {
    |s.channels| == MAX_CHANNELS && |s.pool| == POOL_ENTRIES && |s.used| == POOL_ENTRIES
    && s.nextEntryIndex < POOL_ENTRIES
    && forall i :: 0 <= i < |s.channels| ==> ChannelShape(s.channels[i])
  }

  /** No pool entry is on two lists, or twice on one. */
  ghost predicate Disjoint(cs: seq<Channel>)
  {
    forall i, j, k, l ::
      (0 <= i < |cs| && 0 <= j < |cs| && 0 <= k < |cs[i].queue| && 0 <= l < |cs[j].queue|
       && cs[i].queue[k] == cs[j].queue[l]) ==> i == j && k == l
  }

  /** Every entry on a list is marked used. */
  ghost predicate Loaned(s: MQ)
    requires Shaped(s)
  {
    forall i, k :: 0 <= i < |s.channels| && 0 <= k < |s.channels[i].queue| ==> s.used[s.channels[i].queue[k]]
  }

  /** The number of used flags. */
  function CountTrue(b: seq<bool>): (n: nat)
    ensures n <= |b|
  {
    if b == [] then 0 else CountTrue(b[..|b| - 1]) + (if b[|b| - 1] then 1 else 0)
  }

  /** The sum of queue_size over the slots. */
  function TotalQueued(cs: seq<Channel>): nat
  {
    if cs == [] then 0 else TotalQueued(cs[..|cs| - 1]) + |cs[|cs| - 1].queue|
  }

  /** The number of slots in use. */
  function InUseCount(cs: seq<Channel>): (n: nat)
    ensures n <= |cs|
  {
    if cs == [] then 0 else InUseCount(cs[..|cs| - 1]) + (if cs[|cs| - 1].inUse then 1 else 0)
  }

  /**
   * The invariant of the transport: entries on lists are used and unshared,
   * as many flags are set as entries are queued, and `active_channels`
   * counts the slots in use.
   */
  ghost predicate Wf(s: MQ)
  {
    Shaped(s) && Disjoint(s.channels) && Loaned(s)
    && CountTrue(s.used) == TotalQueued(s.channels)
    && s.activeChannels == InUseCount(s.channels)
  }

  // ---------------------------------------------------------------------------
  // Lookups
  // ---------------------------------------------------------------------------

  predicate HasId(c: Channel, id: U32)
  {
    c.inUse && c.channelId == id
  }

  predicate Joins(c: Channel, sender: U32, receiver: U32)
  {
    c.inUse && c.senderId == sender && c.receiverId == receiver
  }

  /** find_channel_by_id from slot i on: the lowest in-use slot with that id. */
  function FindById(cs: seq<Channel>, id: U32, i: nat := 0): (r: Option<nat>)
    requires i <= |cs|
    decreases |cs| - i
    ensures r.Some? ==> i <= r.value < |cs| && HasId(cs[r.value], id)
    ensures r.Some? ==> forall j :: i <= j < r.value ==> !HasId(cs[j], id)
    ensures r.None? ==> forall j :: i <= j < |cs| ==> !HasId(cs[j], id)
  {
    if i == |cs| then None
    else if HasId(cs[i], id) then Some(i)
    else FindById(cs, id, i + 1)
  }

  /** find_channel_by_participants: the lowest in-use slot for the ordered pair. */
  function FindByPair(cs: seq<Channel>, sender: U32, receiver: U32, i: nat := 0): (r: Option<nat>)
    requires i <= |cs|
    decreases |cs| - i
    ensures r.Some? ==> i <= r.value < |cs| && Joins(cs[r.value], sender, receiver)
    ensures r.None? ==> forall j :: i <= j < |cs| ==> !Joins(cs[j], sender, receiver)
  {
    if i == |cs| then None
    else if Joins(cs[i], sender, receiver) then Some(i)
    else FindByPair(cs, sender, receiver, i + 1)
  }

  /** find_free_channel: the lowest slot not in use. */
  function FindFree(cs: seq<Channel>, i: nat := 0): (r: Option<nat>)
    requires i <= |cs|
    decreases |cs| - i
    ensures r.Some? ==> i <= r.value < |cs| && !cs[r.value].inUse
    ensures r.Some? ==> forall j :: i <= j < r.value ==> cs[j].inUse
    ensures r.None? ==> forall j :: i <= j < |cs| ==> cs[j].inUse
  {
    if i == |cs| then None
    else if !cs[i].inUse then Some(i)
    else FindFree(cs, i + 1)
  }

  /** The i-th entry alloc_message_entry probes when it starts at `start`. */
  function Probe(start: nat, i: nat): (e: nat)
    ensures e < POOL_ENTRIES
  {
    (start + i) % POOL_ENTRIES
  }

  /**
   * The loop of alloc_message_entry from its i-th probe on: the first unused
   * entry at or after `start`, going round the pool once.
   */
  function ScanFree(used: seq<bool>, start: nat, i: nat := 0): (r: Option<nat>)
    requires |used| == POOL_ENTRIES && i <= POOL_ENTRIES
    decreases POOL_ENTRIES - i
    ensures r.Some? ==> r.value < POOL_ENTRIES && !used[r.value]
    ensures r.None? ==> forall j :: i <= j < POOL_ENTRIES ==> used[Probe(start, j)]
  {
    if i == POOL_ENTRIES then None
    else if !used[Probe(start, i)] then Some(Probe(start, i))
    else ScanFree(used, start, i + 1)
  }

  /** The messages held by the entries of list q, head first. */
  function Msgs(pool: seq<Entry>, q: seq<nat>): (r: seq<IpcMessage>)
    requires forall k :: 0 <= k < |q| ==> q[k] < |pool|
    ensures |r| == |q|
    ensures forall k :: 0 <= k < |q| ==> r[k] == pool[q[k]].message
  {
    if q == [] then [] else [pool[q[0]].message] + Msgs(pool, q[1..])
  }

  /** The messages on slot i's list, head first. */
  function Contents(s: MQ, i: nat): (r: seq<IpcMessage>)
    requires Shaped(s) && i < MAX_CHANNELS
    ensures |r| == |s.channels[i].queue|
  {
    Msgs(s.pool, s.channels[i].queue)
  }

  /** The flags left after freeing the entries of list q. */
  function Release(used: seq<bool>, q: seq<nat>): (r: seq<bool>)
    ensures |r| == |used|
  {
    seq(|used|, e requires 0 <= e < |used| => used[e] && e !in q)
  }

  /** All lists, slot by slot, each head first. */
  function Queued(cs: seq<Channel>): (r: seq<nat>)
    ensures |r| == TotalQueued(cs)
  {
    if cs == [] then [] else Queued(cs[..|cs| - 1]) + cs[|cs| - 1].queue
  }

  // ---------------------------------------------------------------------------
  // The operations, as functions of the state
  // ---------------------------------------------------------------------------

  /** The state before mq_init has ever run: the static struct is all zero. */
  function Boot(): (r: MQ)
    ensures Wf(r)
  {
    var r := MQ(seq(MAX_CHANNELS, _ => ZERO_CHANNEL), 0, 0, 0, false,
                seq(POOL_ENTRIES, _ => Entry(ZeroMessage(), 0)), seq(POOL_ENTRIES, _ => false), 0);
    AllIdleCounts(r.channels);
    AllFalseCount(r.used);
    r
  }

  /** alloc_message_entry: the next free entry round the pool, marked used; the cursor moves past it. */
  function AllocEntry(s: MQ): (r: (MQ, Option<nat>))
    requires Shaped(s)
  {
    match ScanFree(s.used, s.nextEntryIndex)
    case None => (s, None)
    case Some(e) => (s.(used := s.used[e := true], nextEntryIndex := (e + 1) % POOL_ENTRIES), Some(e))
  }

  /** mq_init: a second call does nothing; the slots and flags are reset, the entries' contents stay. */
  function InitStep(s: MQ): (r: MQ)
    requires Shaped(s)
  {
    if s.initialized then s
    else s.(channels := seq(MAX_CHANNELS, _ => IDLE_CHANNEL), used := seq(POOL_ENTRIES, _ => false),
            nextChannelId := 1, activeChannels := 0, currentTick := 0, nextEntryIndex := 0,
            initialized := true)
  }

  /** A slot after its list has been drained and it is marked free. */
  function Closed(c: Channel): Channel
  {
    c.(queue := [], queueSize := 0, inUse := false)
  }

  /** mq_shutdown: every list is drained and its entries freed; every slot is marked free. */
  function ShutdownStep(s: MQ): (r: MQ)
    requires Shaped(s)
  {
    s.(channels := seq(MAX_CHANNELS, i requires 0 <= i < MAX_CHANNELS => Closed(s.channels[i])),
       used := Release(s.used, Queued(s.channels)), activeChannels := 0, initialized := false)
  }

  /** mq_create_channel: the existing channel for the ordered pair, or a new one in the lowest free slot. */
  function CreateStep(s: MQ, sender: U32, receiver: U32): (r: (MQ, int))
    requires Shaped(s)
  {
    match FindByPair(s.channels, sender, receiver)
    case Some(i) => (s, AsInt(s.channels[i].channelId))
    case None =>
      match FindFree(s.channels)
      case None => (s, -1)
      case Some(i) =>
        var c := Channel(s.nextChannelId, sender, receiver, [], 0, MAX_QUEUE_DEPTH, true, true, 0, 0, 0);
        (s.(channels := s.channels[i := c], nextChannelId := AddU32(s.nextChannelId, 1),
            activeChannels := AddU32(s.activeChannels, 1)), AsInt(c.channelId))
  }

  /** mq_destroy_channel: the list is drained, its entries freed, and the slot marked free. */
  function DestroyStep(s: MQ, id: int): (r: MQ)
    requires Shaped(s)
  {
    match FindById(s.channels, ToU32(id))
    case None => s
    case Some(i) =>
      s.(channels := s.channels[i := Closed(s.channels[i])], used := Release(s.used, s.channels[i].queue),
         activeChannels := SubU32(s.activeChannels, 1))
  }

  /** One more drop counted on slot i. */
  function Dropped(s: MQ, i: nat): MQ
    requires i < |s.channels|
  {
    s.(channels := s.channels[i := s.channels[i].(messagesDropped := AddU32(s.channels[i].messagesDropped, 1))])
  }

  /**
   * mq_send_message: a null message or an unknown id fails; a full queue or
   * an exhausted pool fails and counts a drop; otherwise the message is copied
   * into a fresh entry stamped with the tick and appended to the list.
   */
  function SendStep(s: MQ, id: int, msg: Option<IpcMessage>): (r: (MQ, int))
    requires Shaped(s)
  {
    if msg.None? then (s, -1)
    else match FindById(s.channels, ToU32(id))
      case None => (s, -1)
      case Some(i) =>
        var c := s.channels[i];
        if c.queueSize >= c.maxQueueSize then (Dropped(s, i), -1)
        else
          var (s1, e) := AllocEntry(s);
          if e.None? then (Dropped(s1, i), -1)
          else
            (s1.(pool := s1.pool[e.value := Entry(msg.value, s.currentTick)],
                 channels := s1.channels[i := c.(queue := c.queue + [e.value], queueSize := c.queueSize + 1,
                                                 messagesSent := AddU32(c.messagesSent, 1))]), 0)
  }

  /**
   * mq_receive_message (and mq_try_receive, which is the same call): a null
   * buffer, an unknown id or an empty list fails; otherwise the head entry is
   * unlinked, copied whole into the caller's buffer and freed.
   */
  function ReceiveStep(s: MQ, id: int, buf: Option<IpcMessage>): (r: (MQ, int, Option<IpcMessage>))
    requires Shaped(s)
  {
    if buf.None? then (s, -1, buf)
    else match FindById(s.channels, ToU32(id))
      case None => (s, -1, buf)
      case Some(i) =>
        var c := s.channels[i];
        if |c.queue| == 0 then (s, -1, buf)
        else
          var e := c.queue[0];
          (s.(channels := s.channels[i := c.(queue := c.queue[1..], queueSize := c.queueSize - 1,
                                             messagesReceived := AddU32(c.messagesReceived, 1))],
              used := s.used[e := false]), 0, Some(s.pool[e].message))
  }

  /** mq_can_send: an open channel with room below its cap. */
  function SendWouldFit(s: MQ, id: int): bool
  {
    match FindById(s.channels, ToU32(id))
    case None => false
    case Some(i) => s.channels[i].queueSize < s.channels[i].maxQueueSize
  }

  /** mq_has_messages. */
  function HasPending(s: MQ, id: int): bool
  {
    match FindById(s.channels, ToU32(id))
    case None => false
    case Some(i) => s.channels[i].queueSize > 0
  }

  /** mq_get_queue_size. */
  function QueueSizeOf(s: MQ, id: int): nat
  {
    match FindById(s.channels, ToU32(id))
    case None => 0
    case Some(i) => s.channels[i].queueSize
  }

  /** mq_check_permission: every pair may communicate. */
  function Permitted(sender: U32, receiver: U32): bool
  {
    true
  }

  /** mq_set_queue_size: a cap above MAX_QUEUE_DEPTH is ignored; a lower cap never truncates a list. */
  function SetQueueSizeStep(s: MQ, id: int, maxSize: nat): (r: MQ)
  {
    match FindById(s.channels, ToU32(id))
    case None => s
    case Some(i) =>
      if maxSize <= MAX_QUEUE_DEPTH then s.(channels := s.channels[i := s.channels[i].(maxQueueSize := maxSize)])
      else s
  }

  /** mq_set_blocking_mode: records the flag; nothing reads it. */
  function SetBlockingStep(s: MQ, id: int, blocking: bool): (r: MQ)
  {
    match FindById(s.channels, ToU32(id))
    case None => s
    case Some(i) => s.(channels := s.channels[i := s.channels[i].(isBlocking := blocking)])
  }

  /** mq_tick. */
  function TickStep(s: MQ): (r: MQ)
  {
    s.(currentTick := AddU32(s.currentTick, 1))
  }

  // ---------------------------------------------------------------------------
  // Counting lemmas
  // ---------------------------------------------------------------------------

  lemma {:induction false} AllFalseCount(b: seq<bool>)
    requires forall e :: 0 <= e < |b| ==> !b[e]
    ensures CountTrue(b) == 0
  {
    if b != [] {
      AllFalseCount(b[..|b| - 1]);
    }
  }

  lemma {:induction false} AllIdleCounts(cs: seq<Channel>)
    requires forall i :: 0 <= i < |cs| ==> cs[i].queue == [] && !cs[i].inUse
    ensures TotalQueued(cs) == 0 && InUseCount(cs) == 0 && Queued(cs) == []
  {
    if cs != [] {
      AllIdleCounts(cs[..|cs| - 1]);
    }
  }

  /** Setting one clear flag adds one to the count; clearing one set flag takes one away. */
  lemma {:induction false} CountFlip(b: seq<bool>, e: nat, v: bool)
    requires e < |b|
    ensures CountTrue(b[e := v]) + (if b[e] then 1 else 0) == CountTrue(b) + (if v then 1 else 0)
  {
    var n := |b| - 1;
    if e < n {
      CountFlip(b[..n], e, v);
      assert b[e := v][..n] == b[..n][e := v];
    } else {
      assert b[e := v][..n] == b[..n];
    }
  }

  /** A count below the length leaves some flag clear. */
  lemma {:induction false} SomeFlagClear(b: seq<bool>)
    requires CountTrue(b) < |b|
    ensures exists e :: 0 <= e < |b| && !b[e]
  {
    var n := |b| - 1;
    if b[n] {
      SomeFlagClear(b[..n]);
      var e :| 0 <= e < n && !b[..n][e];
      assert !b[e];
    }
  }

  /** A zero count means every flag is clear. */
  lemma {:induction false} ZeroCountAllClear(b: seq<bool>)
    requires CountTrue(b) == 0
    ensures forall e :: 0 <= e < |b| ==> !b[e]
  {
    if b != [] {
      ZeroCountAllClear(b[..|b| - 1]);
      assert forall e :: 0 <= e < |b| - 1 ==> b[e] == b[..|b| - 1][e];
    }
  }

  /** Replacing one slot changes the totals by that slot's difference. */
  lemma {:induction false} TotalsUpdate(cs: seq<Channel>, i: nat, c: Channel)
    requires i < |cs|
    ensures TotalQueued(cs[i := c]) + |cs[i].queue| == TotalQueued(cs) + |c.queue|
    ensures InUseCount(cs[i := c]) + (if cs[i].inUse then 1 else 0) == InUseCount(cs) + (if c.inUse then 1 else 0)
  {
    var n := |cs| - 1;
    if i < n {
      TotalsUpdate(cs[..n], i, c);
      assert cs[i := c][..n] == cs[..n][i := c];
    } else {
      assert cs[i := c][..n] == cs[..n];
    }
  }

  /** With every list within the cap and one below it, fewer than 16 * 32 entries are queued. */
  lemma {:induction false} TotalBelowPool(cs: seq<Channel>, i: nat)
    requires i < |cs|
    requires forall j :: 0 <= j < |cs| ==> |cs[j].queue| <= MAX_QUEUE_DEPTH
    requires |cs[i].queue| < MAX_QUEUE_DEPTH
    ensures TotalQueued(cs) < MAX_QUEUE_DEPTH * |cs|
  {
    var n := |cs| - 1;
    if i < n {
      TotalBelowPool(cs[..n], i);
    } else {
      TotalAtMost(cs[..n]);
    }
  }

  lemma {:induction false} TotalAtMost(cs: seq<Channel>)
    requires forall j :: 0 <= j < |cs| ==> |cs[j].queue| <= MAX_QUEUE_DEPTH
    ensures TotalQueued(cs) <= MAX_QUEUE_DEPTH * |cs|
  {
    if cs != [] {
      TotalAtMost(cs[..|cs| - 1]);
    }
  }

  /** Freeing a list of distinct used entries takes exactly its length off the count. */
  lemma {:induction false} CountRelease(b: seq<bool>, q: seq<nat>)
    requires forall k :: 0 <= k < |q| ==> q[k] < |b| && b[q[k]]
    requires forall k, l :: 0 <= k < l < |q| ==> q[k] != q[l]
    ensures CountTrue(Release(b, q)) + |q| == CountTrue(b)
  {
    if q == [] {
      assert Release(b, q) == b;
    } else {
      var n := |q| - 1;
      var e := q[n];
      CountRelease(b, q[..n]);
      var r := Release(b, q[..n]);
      assert r[e] by {
        assert forall k :: 0 <= k < n ==> q[..n][k] != e;
      }
      assert Release(b, q) == r[e := false];
      CountFlip(r, e, false);
    }
  }

  /** Freeing in two steps is freeing the concatenation. */
  lemma ReleaseTwice(b: seq<bool>, p: seq<nat>, q: seq<nat>)
    ensures Release(Release(b, p), q) == Release(b, p + q)
  {
  }

  /** The lists of all slots, concatenated, hold each entry of each list once and only those. */
  lemma {:induction false} QueuedDistinct(cs: seq<Channel>)
    requires Disjoint(cs)
    ensures forall k, l :: 0 <= k < l < |Queued(cs)| ==> Queued(cs)[k] != Queued(cs)[l]
    ensures forall x :: x in Queued(cs) ==> exists i, k :: 0 <= i < |cs| && 0 <= k < |cs[i].queue| && cs[i].queue[k] == x
  {
    if cs != [] {
      var n := |cs| - 1;
      var front := cs[..n];
      assert Disjoint(front);
      QueuedDistinct(front);
      var a := Queued(front);
      var q := cs[n].queue;
      assert Queued(cs) == a + q;
      forall k, l | 0 <= k < l < |a + q| ensures (a + q)[k] != (a + q)[l] {
        if l < |a| {
        } else if k >= |a| {
          assert (a + q)[k] == q[k - |a|] && (a + q)[l] == q[l - |a|];
        } else {
          var x := a[k];
          assert x in a;
          var i, m :| 0 <= i < |front| && 0 <= m < |front[i].queue| && front[i].queue[m] == x;
          assert cs[i].queue[m] == x && (a + q)[l] == cs[n].queue[l - |a|];
        }
      }
      forall x | x in Queued(cs)
        ensures exists i, k :: 0 <= i < |cs| && 0 <= k < |cs[i].queue| && cs[i].queue[k] == x
      {
        if x in a {
          var i, m :| 0 <= i < |front| && 0 <= m < |front[i].queue| && front[i].queue[m] == x;
          assert cs[i].queue[m] == x;
        } else {
          var m :| 0 <= m < |q| && q[m] == x;
          assert cs[n].queue[m] == x;
        }
      }
    }
  }

  // ---------------------------------------------------------------------------
  // The invariant is kept
  // ---------------------------------------------------------------------------

  /** uint32_t difference of the counters after one more send or one more receive. */
  lemma SentMinusReceived(a: U32, b: U32)
    ensures SubU32(a, b) + 1 < U32_BOUND ==> SubU32(AddU32(a, 1), b) == SubU32(a, b) + 1
    ensures SubU32(a, b) >= 1 ==> SubU32(a, AddU32(b, 1)) == SubU32(a, b) - 1
  {
  }

  /** Replacing a slot's list by a suffix of it keeps the lists disjoint. */
  lemma DisjointSuffix(cs: seq<Channel>, i: nat, c: Channel, m: nat)
    requires Disjoint(cs) && i < |cs| && m <= |cs[i].queue| && c.queue == cs[i].queue[m..]
    ensures Disjoint(cs[i := c])
  {
    var cs' := cs[i := c];
    forall a, b, k, l | 0 <= a < |cs'| && 0 <= b < |cs'| && 0 <= k < |cs'[a].queue| && 0 <= l < |cs'[b].queue|
                        && cs'[a].queue[k] == cs'[b].queue[l]
      ensures a == b && k == l
    {
      var k0 := if a == i then k + m else k;
      var l0 := if b == i then l + m else l;
      assert cs'[a].queue[k] == cs[a].queue[k0];
      assert cs'[b].queue[l] == cs[b].queue[l0];
    }
  }

  /** Appending an entry found on no list keeps the lists disjoint. */
  lemma DisjointAppend(cs: seq<Channel>, i: nat, c: Channel, e: nat)
    requires Disjoint(cs) && i < |cs| && c.queue == cs[i].queue + [e]
    requires forall j, k :: 0 <= j < |cs| && 0 <= k < |cs[j].queue| ==> cs[j].queue[k] != e
    ensures Disjoint(cs[i := c])
  {
    var cs' := cs[i := c];
    var n := |cs[i].queue|;
    forall a, k | 0 <= a < |cs'| && 0 <= k < |cs'[a].queue|
      ensures ((a == i && k == n) || k < |cs[a].queue|)
              && cs'[a].queue[k] == if a == i && k == n then e else cs[a].queue[k]
    {
    }
  }

  /** A slot whose list is unchanged keeps the lists disjoint. */
  lemma DisjointSameLists(cs: seq<Channel>, i: nat, c: Channel)
    requires Disjoint(cs) && i < |cs| && c.queue == cs[i].queue
    ensures Disjoint(cs[i := c])
  {
    DisjointSuffix(cs, i, c, 0);
  }

  /** An entry that is not used is on no list. */
  lemma UnusedIsUnlisted(s: MQ, e: nat)
    requires Wf(s) && e < POOL_ENTRIES && !s.used[e]
    ensures forall j, k :: 0 <= j < |s.channels| && 0 <= k < |s.channels[j].queue| ==> s.channels[j].queue[k] != e
  {
  }

  /**
   * While a channel has room below its cap, the pool has an unused entry, so
   * the pool-exhausted branch of mq_send_message is never taken.
   */
  lemma AllocNeverFails(s: MQ, i: nat)
    requires Wf(s) && i < MAX_CHANNELS && s.channels[i].queueSize < s.channels[i].maxQueueSize
    ensures ScanFree(s.used, s.nextEntryIndex).Some?
  {
    TotalBelowPool(s.channels, i);
    SomeFlagClear(s.used);
    var e :| 0 <= e < POOL_ENTRIES && !s.used[e];
    var start := s.nextEntryIndex;
    var j := if e >= start then e - start else e + POOL_ENTRIES - start;
    assert Probe(start, j) == e;
  }

  /**
   * A step that rewrites one slot without touching any list or flag keeps the
   * invariant, when `active_channels` follows the slot's in-use flag.
   */
  lemma SameListsKeepWf(s: MQ, r: MQ, i: nat)
    requires Wf(s) && i < MAX_CHANNELS
    requires |r.channels| == MAX_CHANNELS && r.channels == s.channels[i := r.channels[i]]
    requires r.channels[i].queue == s.channels[i].queue && ChannelShape(r.channels[i])
    requires r.used == s.used && |r.pool| == POOL_ENTRIES && r.nextEntryIndex < POOL_ENTRIES
    requires r.activeChannels + (if s.channels[i].inUse then 1 else 0)
             == s.activeChannels + (if r.channels[i].inUse then 1 else 0)
    ensures Wf(r)
  {
    TotalsUpdate(s.channels, i, r.channels[i]);
    DisjointSameLists(s.channels, i, r.channels[i]);
    assert Shaped(r);
    assert Loaned(r) by {
      forall j, k | 0 <= j < |r.channels| && 0 <= k < |r.channels[j].queue|
        ensures r.used[r.channels[j].queue[k]]
      {
        assert r.channels[j].queue == s.channels[j].queue;
      }
    }
  }

  lemma InitKeepsWf(s: MQ)
    requires Wf(s)
    ensures Wf(InitStep(s))
  {
    if !s.initialized {
      var r := InitStep(s);
      AllIdleCounts(r.channels);
      AllFalseCount(r.used);
    }
  }

  lemma ShutdownKeepsWf(s: MQ)
    requires Wf(s)
    ensures Wf(ShutdownStep(s))
  {
    var r := ShutdownStep(s);
    AllIdleCounts(r.channels);
    ShutdownFreesPool(s);
    AllFalseCount(r.used);
  }

  /** Nothing is leaked: mq_shutdown leaves every entry of the pool unused. */
  lemma ShutdownFreesPool(s: MQ)
    requires Wf(s)
    ensures forall e :: 0 <= e < POOL_ENTRIES ==> !ShutdownStep(s).used[e]
  {
    var q := Queued(s.channels);
    QueuedDistinct(s.channels);
    forall k | 0 <= k < |q| ensures q[k] < |s.used| && s.used[q[k]] {
      assert q[k] in q;
    }
    CountRelease(s.used, q);
    ZeroCountAllClear(Release(s.used, q));
  }

  lemma CreateKeepsWf(s: MQ, sender: U32, receiver: U32)
    requires Wf(s)
    ensures Wf(CreateStep(s, sender, receiver).0)
  {
    if FindByPair(s.channels, sender, receiver).None? && FindFree(s.channels).Some? {
      var i := FindFree(s.channels).value;
      var r := CreateStep(s, sender, receiver).0;
      TotalsUpdate(s.channels, i, r.channels[i]);
      SameListsKeepWf(s, r, i);
    }
  }

  /** Freeing one list's entries clears exactly as many flags as the list is long. */
  lemma ReleaseListCount(s: MQ, i: nat)
    requires Wf(s) && i < MAX_CHANNELS
    ensures CountTrue(Release(s.used, s.channels[i].queue)) + |s.channels[i].queue| == CountTrue(s.used)
  {
    var q := s.channels[i].queue;
    forall k | 0 <= k < |q| ensures q[k] < |s.used| && s.used[q[k]] {
    }
    forall k, l | 0 <= k < l < |q| ensures q[k] != q[l] {
    }
    CountRelease(s.used, q);
  }

  /** Closing a live slot and freeing its list's entries keeps the invariant. */
  lemma CloseKeepsWf(s: MQ, r: MQ, i: nat)
    requires Wf(s) && i < MAX_CHANNELS && s.channels[i].inUse
    requires |r.channels| == MAX_CHANNELS && r.channels == s.channels[i := Closed(s.channels[i])]
    requires r.used == Release(s.used, s.channels[i].queue) && |r.pool| == POOL_ENTRIES
    requires r.nextEntryIndex < POOL_ENTRIES && r.activeChannels == SubU32(s.activeChannels, 1)
    ensures Wf(r)
    ensures CountTrue(r.used) + |s.channels[i].queue| == CountTrue(s.used)
  {
    var q := s.channels[i].queue;
    CloseCounts(s, r, i);
    assert q[|q|..] == [];
    DisjointSuffix(s.channels, i, Closed(s.channels[i]), |q|);
    assert Shaped(r);
    CloseKeepsLoaned(s, r, i);
  }

  /** A close keeps the used flags and the active count in step with the lists. */
  lemma CloseCounts(s: MQ, r: MQ, i: nat)
    requires Wf(s) && i < MAX_CHANNELS && s.channels[i].inUse
    requires r.channels == s.channels[i := Closed(s.channels[i])]
    requires r.used == Release(s.used, s.channels[i].queue)
    requires r.activeChannels == SubU32(s.activeChannels, 1)
    ensures CountTrue(r.used) + |s.channels[i].queue| == CountTrue(s.used)
    ensures CountTrue(r.used) == TotalQueued(r.channels)
    ensures r.activeChannels == InUseCount(r.channels)
  {
    TotalsUpdate(s.channels, i, Closed(s.channels[i]));
    ReleaseListCount(s, i);
  }

  /** Every entry still listed after a close stays marked used. */
  lemma CloseKeepsLoaned(s: MQ, r: MQ, i: nat)
    requires Wf(s) && i < MAX_CHANNELS
    requires |r.channels| == MAX_CHANNELS && r.channels == s.channels[i := Closed(s.channels[i])]
    requires r.used == Release(s.used, s.channels[i].queue)
    requires Shaped(r)
    ensures Loaned(r)
  {
    var q := s.channels[i].queue;
    forall j, k | 0 <= j < |r.channels| && 0 <= k < |r.channels[j].queue|
      ensures r.used[r.channels[j].queue[k]]
    {
      var e := r.channels[j].queue[k];
      assert j != i && e == s.channels[j].queue[k];
      assert e !in q;
    }
  }

  lemma DestroyKeepsWf(s: MQ, id: int)
    requires Wf(s)
    ensures Wf(DestroyStep(s, id))
  {
    match FindById(s.channels, ToU32(id))
    case None =>
    case Some(i) => CloseKeepsWf(s, DestroyStep(s, id), i);
  }

  /** Appending an unused entry to one list, and marking it used, keeps the invariant. */
  lemma AppendKeepsWf(s: MQ, r: MQ, i: nat, e: nat)
    requires Wf(s) && i < MAX_CHANNELS && e < POOL_ENTRIES && !s.used[e]
    requires |r.channels| == MAX_CHANNELS && r.channels == s.channels[i := r.channels[i]]
    requires r.channels[i].queue == s.channels[i].queue + [e] && ChannelShape(r.channels[i])
    requires r.channels[i].inUse == s.channels[i].inUse
    requires r.used == s.used[e := true] && |r.pool| == POOL_ENTRIES && r.nextEntryIndex < POOL_ENTRIES
    requires r.activeChannels == s.activeChannels
    ensures Wf(r)
  {
    UnusedIsUnlisted(s, e);
    TotalsUpdate(s.channels, i, r.channels[i]);
    DisjointAppend(s.channels, i, r.channels[i], e);
    CountFlip(s.used, e, true);
    assert Shaped(r);
    assert Loaned(r) by {
      forall j, k | 0 <= j < |r.channels| && 0 <= k < |r.channels[j].queue|
        ensures r.used[r.channels[j].queue[k]]
      {
        if j != i || k < |s.channels[i].queue| {
          assert r.channels[j].queue[k] == s.channels[j].queue[k];
        }
      }
    }
  }

  /** Unlinking a list's head, and marking it unused, keeps the invariant. */
  lemma PopKeepsWf(s: MQ, r: MQ, i: nat)
    requires Wf(s) && i < MAX_CHANNELS && |s.channels[i].queue| > 0
    requires |r.channels| == MAX_CHANNELS && r.channels == s.channels[i := r.channels[i]]
    requires r.channels[i].queue == s.channels[i].queue[1..] && ChannelShape(r.channels[i])
    requires r.channels[i].inUse == s.channels[i].inUse
    requires r.used == s.used[s.channels[i].queue[0] := false] && |r.pool| == POOL_ENTRIES
    requires r.nextEntryIndex < POOL_ENTRIES && r.activeChannels == s.activeChannels
    ensures Wf(r)
  {
    var e := s.channels[i].queue[0];
    TotalsUpdate(s.channels, i, r.channels[i]);
    DisjointSuffix(s.channels, i, r.channels[i], 1);
    CountFlip(s.used, e, false);
    assert Shaped(r);
    assert Loaned(r) by {
      forall j, k | 0 <= j < |r.channels| && 0 <= k < |r.channels[j].queue|
        ensures r.used[r.channels[j].queue[k]]
      {
        var k0 := if j == i then k + 1 else k;
        assert r.channels[j].queue[k] == s.channels[j].queue[k0];
        assert s.channels[j].queue[k0] != s.channels[i].queue[0];
      }
    }
  }

  lemma SendKeepsWf(s: MQ, id: int, msg: Option<IpcMessage>)
    requires Wf(s)
    ensures Wf(SendStep(s, id, msg).0)
  {
    if msg.Some? && FindById(s.channels, ToU32(id)).Some? {
      var i := FindById(s.channels, ToU32(id)).value;
      var c := s.channels[i];
      if c.queueSize >= c.maxQueueSize {
        SameListsKeepWf(s, Dropped(s, i), i);
      } else {
        AllocNeverFails(s, i);
        var e := ScanFree(s.used, s.nextEntryIndex).value;
        var r := SendStep(s, id, msg).0;
        SentMinusReceived(c.messagesSent, c.messagesReceived);
        AppendKeepsWf(s, r, i, e);
      }
    }
  }

  lemma ReceiveKeepsWf(s: MQ, id: int, buf: Option<IpcMessage>)
    requires Wf(s)
    ensures Wf(ReceiveStep(s, id, buf).0)
  {
    if buf.Some? && FindById(s.channels, ToU32(id)).Some? {
      var i := FindById(s.channels, ToU32(id)).value;
      var c := s.channels[i];
      if |c.queue| > 0 {
        SentMinusReceived(c.messagesSent, c.messagesReceived);
        PopKeepsWf(s, ReceiveStep(s, id, buf).0, i);
      }
    }
  }

  lemma SetQueueSizeKeepsWf(s: MQ, id: int, maxSize: nat)
    requires Wf(s)
    ensures Wf(SetQueueSizeStep(s, id, maxSize))
  {
    if FindById(s.channels, ToU32(id)).Some? && maxSize <= MAX_QUEUE_DEPTH {
      var i := FindById(s.channels, ToU32(id)).value;
      SameListsKeepWf(s, SetQueueSizeStep(s, id, maxSize), i);
    }
  }

  lemma SetBlockingKeepsWf(s: MQ, id: int, blocking: bool)
    requires Wf(s)
    ensures Wf(SetBlockingStep(s, id, blocking))
  {
    if FindById(s.channels, ToU32(id)).Some? {
      var i := FindById(s.channels, ToU32(id)).value;
      SameListsKeepWf(s, SetBlockingStep(s, id, blocking), i);
    }
  }

  // ---------------------------------------------------------------------------
  // What each operation does
  // ---------------------------------------------------------------------------

  /** Steps that keep every slot's in-use flag and id keep the id lookup. */
  lemma {:induction false} FindByIdSame(cs: seq<Channel>, cs': seq<Channel>, id: U32, i: nat := 0)
    requires |cs| == |cs'| && i <= |cs|
    requires forall j :: 0 <= j < |cs| ==> cs[j].inUse == cs'[j].inUse && cs[j].channelId == cs'[j].channelId
    ensures FindById(cs', id, i) == FindById(cs, id, i)
    decreases |cs| - i
  {
    if i < |cs| {
      FindByIdSame(cs, cs', id, i + 1);
    }
  }

  /** A list whose entries hold the same records reads the same messages. */
  lemma ContentsSame(s: MQ, r: MQ, j: nat)
    requires Shaped(s) && Shaped(r) && j < MAX_CHANNELS
    requires r.channels[j].queue == s.channels[j].queue
    requires forall k :: 0 <= k < |s.channels[j].queue| ==> r.pool[s.channels[j].queue[k]] == s.pool[s.channels[j].queue[k]]
    ensures Contents(r, j) == Contents(s, j)
  {
  }

  /** The last element of a list, or 0 for the empty list. */
  function Last(q: seq<nat>): nat
  {
    if q == [] then 0 else q[|q| - 1]
  }

  /**
   * A send with a message to a live channel below its cap succeeds: the
   * message, stamped with the tick, joins the tail of that channel's list and
   * is counted sent, and no other channel changes.
   */
  lemma SendSucceeds(s: MQ, id: int, m: IpcMessage, i: nat)
    requires Wf(s) && FindById(s.channels, ToU32(id)) == Some(i)
    requires s.channels[i].queueSize < s.channels[i].maxQueueSize
    ensures var (r, rc) := SendStep(s, id, Some(m));
      var c := s.channels[i];
      rc == 0 && Shaped(r) && Contents(r, i) == Contents(s, i) + [m]
      && r.pool[Last(r.channels[i].queue)].timestamp == s.currentTick
      && r.channels[i] == c.(queue := r.channels[i].queue, queueSize := c.queueSize + 1,
                             messagesSent := AddU32(c.messagesSent, 1))
      && forall j :: 0 <= j < MAX_CHANNELS && j != i ==>
           r.channels[j] == s.channels[j] && Contents(r, j) == Contents(s, j)
  {
    SendAppends(s, id, m, i);
    SendLeavesOthers(s, id, m, i);
  }

  /** The target channel of a successful send gains the message at its tail. */
  lemma SendAppends(s: MQ, id: int, m: IpcMessage, i: nat)
    requires Wf(s) && FindById(s.channels, ToU32(id)) == Some(i)
    requires s.channels[i].queueSize < s.channels[i].maxQueueSize
    ensures var (r, rc) := SendStep(s, id, Some(m));
      var c := s.channels[i];
      rc == 0 && Shaped(r) && Contents(r, i) == Contents(s, i) + [m]
      && r.pool[Last(r.channels[i].queue)].timestamp == s.currentTick
      && r.channels[i] == c.(queue := r.channels[i].queue, queueSize := c.queueSize + 1,
                             messagesSent := AddU32(c.messagesSent, 1))
  {
    AllocNeverFails(s, i);
    var e := ScanFree(s.used, s.nextEntryIndex).value;
    var r := SendStep(s, id, Some(m)).0;
    SendKeepsWf(s, id, Some(m));
    UnusedIsUnlisted(s, e);
    var q := s.channels[i].queue;
    assert r.channels[i].queue == q + [e];
    assert r.pool == s.pool[e := Entry(m, s.currentTick)];
    assert Contents(r, i) == Contents(s, i) + [m] by {
      forall k | 0 <= k < |q| ensures Contents(r, i)[k] == Contents(s, i)[k] {
        assert q[k] != e;
      }
    }
  }

  /** A successful send changes no channel but its target. */
  lemma SendLeavesOthers(s: MQ, id: int, m: IpcMessage, i: nat)
    requires Wf(s) && FindById(s.channels, ToU32(id)) == Some(i)
    requires s.channels[i].queueSize < s.channels[i].maxQueueSize
    ensures var r := SendStep(s, id, Some(m)).0;
      Shaped(r) && forall j :: 0 <= j < MAX_CHANNELS && j != i ==>
        r.channels[j] == s.channels[j] && Contents(r, j) == Contents(s, j)
  {
    AllocNeverFails(s, i);
    var e := ScanFree(s.used, s.nextEntryIndex).value;
    var r := SendStep(s, id, Some(m)).0;
    SendKeepsWf(s, id, Some(m));
    UnusedIsUnlisted(s, e);
    assert r.pool == s.pool[e := Entry(m, s.currentTick)];
    forall j | 0 <= j < MAX_CHANNELS && j != i
      ensures r.channels[j] == s.channels[j] && Contents(r, j) == Contents(s, j)
    {
      ContentsSame(s, r, j);
    }
  }

  /**
   * mq_send_message: a null message, or an unknown id, fails and changes
   * nothing; a send to a full queue fails and counts one drop; any other send
   * succeeds (see SendSucceeds).
   */
  lemma SendOutcome(s: MQ, id: int, msg: Option<IpcMessage>)
    requires Wf(s)
    ensures var (r, rc) := SendStep(s, id, msg);
      var found := FindById(s.channels, ToU32(id));
      (rc == 0 <==> msg.Some? && found.Some? && s.channels[found.value].queueSize < s.channels[found.value].maxQueueSize)
      && (rc != 0 ==> rc == -1)
      && (msg.None? || found.None? ==> r == s)
      && (msg.Some? && found.Some? && rc != 0 ==> r == Dropped(s, found.value))
  {
    var found := FindById(s.channels, ToU32(id));
    if msg.Some? && found.Some? && s.channels[found.value].queueSize < s.channels[found.value].maxQueueSize {
      SendSucceeds(s, id, msg.value, found.value);
    }
  }

  /**
   * A receive with a buffer from a live channel with a queued message hands
   * back the oldest message, unlinks it, frees its entry and counts it
   * received; no other channel changes.
   */
  lemma ReceiveSucceeds(s: MQ, id: int, buf: IpcMessage, i: nat)
    requires Wf(s) && FindById(s.channels, ToU32(id)) == Some(i) && |s.channels[i].queue| > 0
    ensures var (r, rc, out) := ReceiveStep(s, id, Some(buf));
      var c := s.channels[i];
      rc == 0 && Shaped(r) && out == Some(Contents(s, i)[0])
      && Contents(r, i) == Contents(s, i)[1..]
      && !r.used[c.queue[0]]
      && r.channels[i] == c.(queue := r.channels[i].queue, queueSize := c.queueSize - 1,
                             messagesReceived := AddU32(c.messagesReceived, 1))
      && forall j :: 0 <= j < MAX_CHANNELS && j != i ==>
           r.channels[j] == s.channels[j] && Contents(r, j) == Contents(s, j)
  {
    var r := ReceiveStep(s, id, Some(buf)).0;
    ReceiveKeepsWf(s, id, Some(buf));
    forall j | 0 <= j < MAX_CHANNELS && j != i
      ensures r.channels[j] == s.channels[j] && Contents(r, j) == Contents(s, j)
    {
      ContentsSame(s, r, j);
    }
  }

  /**
   * mq_receive_message and mq_try_receive: without a buffer, for an unknown
   * id or from an empty channel the call fails, leaves the state and the
   * buffer as they were; otherwise it succeeds (see ReceiveSucceeds).
   */
  lemma ReceiveOutcome(s: MQ, id: int, buf: Option<IpcMessage>)
    requires Wf(s)
    ensures var (r, rc, out) := ReceiveStep(s, id, buf);
      var found := FindById(s.channels, ToU32(id));
      (rc == 0 <==> buf.Some? && found.Some? && |Contents(s, found.value)| > 0)
      && (rc != 0 ==> rc == -1 && r == s && out == buf)
  {
    var found := FindById(s.channels, ToU32(id));
    if buf.Some? && found.Some? && |s.channels[found.value].queue| > 0 {
      ReceiveSucceeds(s, id, buf.value, found.value);
    }
  }

  /** The sends of the messages in `ms`, in order. */
  function SendAll(s: MQ, id: int, ms: seq<IpcMessage>): MQ
    decreases |ms|
  {
    if ms == [] || !Shaped(s) then s
    else SendAll(SendStep(s, id, Some(ms[0])).0, id, ms[1..])
  }

  /** n receives into the same buffer; the messages of the successful ones, in order. */
  function ReceiveAll(s: MQ, id: int, n: nat, buf: IpcMessage): (MQ, seq<IpcMessage>)
    decreases n
  {
    if n == 0 || !Shaped(s) then (s, [])
    else
      var (s1, rc, out) := ReceiveStep(s, id, Some(buf));
      var (s2, rest) := ReceiveAll(s1, id, n - 1, buf);
      (s2, (if rc == 0 && out.Some? then [out.value] else []) + rest)
  }

  /** One send that fits: the channel stays where it was and holds one more message at its tail. */
  lemma SendStepOne(s: MQ, id: int, m: IpcMessage, i: nat)
    requires Wf(s) && FindById(s.channels, ToU32(id)) == Some(i)
    requires s.channels[i].queueSize < s.channels[i].maxQueueSize
    ensures var r := SendStep(s, id, Some(m)).0;
      Wf(r) && FindById(r.channels, ToU32(id)) == Some(i)
      && r.channels[i].maxQueueSize == s.channels[i].maxQueueSize
      && r.channels[i].queueSize == s.channels[i].queueSize + 1
      && Contents(r, i) == Contents(s, i) + [m]
  {
    var r := SendStep(s, id, Some(m)).0;
    SendSucceeds(s, id, m, i);
    SendKeepsWf(s, id, Some(m));
    FindByIdSame(s.channels, r.channels, ToU32(id));
  }

  /** One receive from a non-empty channel: the channel stays where it was and hands back its head. */
  lemma ReceiveStepOne(s: MQ, id: int, buf: IpcMessage, i: nat)
    requires Wf(s) && FindById(s.channels, ToU32(id)) == Some(i) && |Contents(s, i)| > 0
    ensures var (r, rc, out) := ReceiveStep(s, id, Some(buf));
      Wf(r) && FindById(r.channels, ToU32(id)) == Some(i)
      && rc == 0 && out == Some(Contents(s, i)[0]) && Contents(r, i) == Contents(s, i)[1..]
  {
    var r := ReceiveStep(s, id, Some(buf)).0;
    ReceiveSucceeds(s, id, buf, i);
    ReceiveKeepsWf(s, id, Some(buf));
    FindByIdSame(s.channels, r.channels, ToU32(id));
  }

  lemma ConsAppend<T>(a: seq<T>, ms: seq<T>)
    requires ms != []
    ensures a + [ms[0]] + ms[1..] == a + ms
  {
    assert [ms[0]] + ms[1..] == ms;
  }

  lemma TakeCons<T>(a: seq<T>, n: nat)
    requires 0 < n <= |a|
    ensures a[..n] == [a[0]] + a[1..][..n - 1]
  {
  }

  /** Sends that all fit append their messages to the channel, in order. */
  lemma {:induction false} SendAllAppends(s: MQ, id: int, ms: seq<IpcMessage>, i: nat)
    requires Wf(s) && FindById(s.channels, ToU32(id)) == Some(i)
    requires s.channels[i].queueSize + |ms| <= s.channels[i].maxQueueSize
    ensures var r := SendAll(s, id, ms);
      Wf(r) && FindById(r.channels, ToU32(id)) == Some(i)
      && r.channels[i].maxQueueSize == s.channels[i].maxQueueSize
      && Contents(r, i) == Contents(s, i) + ms
    decreases |ms|
  {
    if ms != [] {
      var s1 := SendStep(s, id, Some(ms[0])).0;
      SendStepOne(s, id, ms[0], i);
      SendAllAppends(s1, id, ms[1..], i);
      assert SendAll(s, id, ms) == SendAll(s1, id, ms[1..]);
      ConsAppend(Contents(s, i), ms);
    }
  }

  /** n receives from a channel holding at least n messages hand them back oldest first. */
  lemma {:induction false} ReceiveAllTakes(s: MQ, id: int, n: nat, buf: IpcMessage, i: nat)
    requires Wf(s) && FindById(s.channels, ToU32(id)) == Some(i)
    requires n <= |Contents(s, i)|
    ensures ReceiveAll(s, id, n, buf).1 == Contents(s, i)[..n]
    decreases n
  {
    if n > 0 {
      var s1 := ReceiveStep(s, id, Some(buf)).0;
      ReceiveStepOne(s, id, buf, i);
      ReceiveAllTakes(s1, id, n - 1, buf, i);
      TakeCons(Contents(s, i), n);
    }
  }

  /**
   * Per-channel FIFO: messages sent to an empty channel without overflowing
   * it come back from as many receives in the order they were sent, with
   * identical contents.
   */
  lemma FifoDelivery(s: MQ, id: int, ms: seq<IpcMessage>, buf: IpcMessage)
    requires Wf(s) && FindById(s.channels, ToU32(id)).Some?
    requires QueueSizeOf(s, id) == 0
    requires |ms| <= s.channels[FindById(s.channels, ToU32(id)).value].maxQueueSize
    ensures ReceiveAll(SendAll(s, id, ms), id, |ms|, buf).1 == ms
  {
    var i := FindById(s.channels, ToU32(id)).value;
    SendAllAppends(s, id, ms, i);
    ReceiveAllTakes(SendAll(s, id, ms), id, |ms|, buf, i);
  }

  /**
   * Flow control: can_send holds exactly when a send would succeed,
   * has_messages exactly when a receive would, and get_queue_size is the
   * number of messages queued, which is the number sent less the number
   * received.  Unknown ids answer false, false and 0.
   */
  lemma FlowControl(s: MQ, id: int, m: IpcMessage, buf: IpcMessage)
    requires Wf(s)
    ensures SendWouldFit(s, id) <==> SendStep(s, id, Some(m)).1 == 0
    ensures HasPending(s, id) <==> ReceiveStep(s, id, Some(buf)).1 == 0
    ensures match FindById(s.channels, ToU32(id))
      case None => !SendWouldFit(s, id) && !HasPending(s, id) && QueueSizeOf(s, id) == 0
      case Some(i) =>
        QueueSizeOf(s, id) == |Contents(s, i)|
        == SubU32(s.channels[i].messagesSent, s.channels[i].messagesReceived)
  {
    SendOutcome(s, id, Some(m));
    ReceiveOutcome(s, id, Some(buf));
  }

  /**
   * mq_destroy_channel of a live channel: its queued entries go back to the
   * pool, the slot is free, one fewer channel is active, and no other
   * channel changes; an unknown id is a no-op.
   */
  lemma DestroyOutcome(s: MQ, id: int)
    requires Wf(s)
    ensures var r := DestroyStep(s, id);
      match FindById(s.channels, ToU32(id))
      case None => r == s
      case Some(i) =>
        !r.channels[i].inUse && r.activeChannels == s.activeChannels - 1
        && CountTrue(r.used) == CountTrue(s.used) - |s.channels[i].queue|
        && (forall k :: 0 <= k < |s.channels[i].queue| ==> !r.used[s.channels[i].queue[k]])
        && forall j :: 0 <= j < MAX_CHANNELS && j != i ==> r.channels[j] == s.channels[j] && Contents(r, j) == Contents(s, j)
  {
    match FindById(s.channels, ToU32(id))
    case None =>
    case Some(i) =>
      var r := DestroyStep(s, id);
      ReleaseListCount(s, i);
      TotalsUpdate(s.channels, i, r.channels[i]);
      assert r.pool == s.pool;
  }

  // ---------------------------------------------------------------------------
  // Channel creation and ids
  // ---------------------------------------------------------------------------

  /** Live channel ids were all issued below next_channel_id, and no two live channels share one. */
  ghost predicate FreshIds(s: MQ)
  {
    (forall j :: 0 <= j < |s.channels| && s.channels[j].inUse ==> s.channels[j].channelId < s.nextChannelId)
    && forall j, k ::
         (0 <= j < |s.channels| && 0 <= k < |s.channels| && s.channels[j].inUse && s.channels[k].inUse
          && s.channels[j].channelId == s.channels[k].channelId) ==> j == k
  }

  /**
   * A create for a pair with no channel, with a slot free, opens an empty
   * channel for the ordered pair in the lowest free slot under
   * next_channel_id, which then grows, and counts one more active channel.
   */
  lemma CreateOpens(s: MQ, sender: U32, receiver: U32)
    requires Wf(s) && FindByPair(s.channels, sender, receiver).None? && FindFree(s.channels).Some?
    ensures var (r, rc) := CreateStep(s, sender, receiver);
      var i := FindFree(s.channels).value;
      rc == AsInt(s.nextChannelId) && !s.channels[i].inUse
      && (forall j :: 0 <= j < i ==> s.channels[j].inUse)
      && Joins(r.channels[i], sender, receiver) && r.channels[i].queue == []
      && r.channels[i].maxQueueSize == MAX_QUEUE_DEPTH
      && r.nextChannelId == AddU32(s.nextChannelId, 1)
      && r.activeChannels == s.activeChannels + 1
      && forall j :: 0 <= j < MAX_CHANNELS && j != i ==> r.channels[j] == s.channels[j]
  {
    var i := FindFree(s.channels).value;
    TotalsUpdate(s.channels, i, CreateStep(s, sender, receiver).0.channels[i]);
  }

  /**
   * mq_create_channel: the channel of an in-use slot with the same ordered
   * pair is returned as it is; with every slot in use the call fails and
   * changes nothing; otherwise a channel opens (see CreateOpens).
   */
  lemma CreateOutcome(s: MQ, sender: U32, receiver: U32)
    requires Wf(s)
    ensures var (r, rc) := CreateStep(s, sender, receiver);
      match FindByPair(s.channels, sender, receiver)
      case Some(i) => r == s && rc == AsInt(s.channels[i].channelId)
      case None =>
        ((forall j :: 0 <= j < MAX_CHANNELS ==> s.channels[j].inUse) ==> rc == -1 && r == s)
        && (!(forall j :: 0 <= j < MAX_CHANNELS ==> s.channels[j].inUse) ==>
              r.activeChannels == s.activeChannels + 1 && ToU32(rc) == s.nextChannelId)
  {
    if FindByPair(s.channels, sender, receiver).None? && FindFree(s.channels).Some? {
      CreateOpens(s, sender, receiver);
    }
  }

  /** A second create for the same ordered pair returns the same id and changes nothing. */
  lemma CreateIdempotent(s: MQ, sender: U32, receiver: U32)
    requires Wf(s)
    ensures var (r, rc) := CreateStep(s, sender, receiver);
      rc != -1 ==> CreateStep(r, sender, receiver) == (r, rc)
  {
    var (r, rc) := CreateStep(s, sender, receiver);
    if FindByPair(s.channels, sender, receiver).None? && FindFree(s.channels).Some? {
      var i := FindFree(s.channels).value;
      CreateOpens(s, sender, receiver);
      assert Joins(r.channels[i], sender, receiver);
    }
  }

  /**
   * While next_channel_id has not wrapped, ids stay fresh, and the id a
   * create returns names the channel of the requested pair.
   */
  lemma CreateKeepsFreshIds(s: MQ, sender: U32, receiver: U32)
    requires Wf(s) && FreshIds(s) && s.nextChannelId + 1 < U32_BOUND
    ensures FreshIds(CreateStep(s, sender, receiver).0)
    ensures var (r, rc) := CreateStep(s, sender, receiver);
      rc != -1 ==> FindById(r.channels, ToU32(rc)).Some?
                   && Joins(r.channels[FindById(r.channels, ToU32(rc)).value], sender, receiver)
  {
    var (r, rc) := CreateStep(s, sender, receiver);
    match FindByPair(s.channels, sender, receiver)
    case Some(i) =>
      assert HasId(r.channels[i], ToU32(rc));
      var f := FindById(r.channels, ToU32(rc)).value;
      assert f == i;
    case None =>
      if FindFree(s.channels).Some? {
        var i := FindFree(s.channels).value;
        CreateOpens(s, sender, receiver);
        assert r.channels[i].channelId == s.nextChannelId == ToU32(rc);
        assert HasId(r.channels[i], ToU32(rc));
        var f := FindById(r.channels, ToU32(rc)).value;
      }
  }

  /** After destroy, the id names no live channel, so a send to it fails. */
  lemma DestroyedIdIsGone(s: MQ, id: int, m: IpcMessage)
    requires Wf(s) && FreshIds(s)
    ensures FindById(DestroyStep(s, id).channels, ToU32(id)).None?
    ensures SendStep(DestroyStep(s, id), id, Some(m)).1 == -1
  {
    DestroyKeepsWf(s, id);
    var r := DestroyStep(s, id);
    match FindById(s.channels, ToU32(id))
    case None =>
    case Some(i) =>
      forall j | 0 <= j < MAX_CHANNELS ensures !HasId(r.channels[j], ToU32(id)) {
        if j != i {
          assert r.channels[j] == s.channels[j];
        }
      }
  }

  /**
   * The channel-idempotence scenario: after init, create(5, 9) twice returns
   * channel 1 both times with one active channel, and create(9, 5) is a
   * different channel, 2.
   */
  lemma CreateScenario(s: MQ)
    requires Shaped(s) && !s.initialized
    ensures var s0 := InitStep(s);
      var (s1, a) := CreateStep(s0, 5, 9);
      var (s2, b) := CreateStep(s1, 5, 9);
      var (s3, c) := CreateStep(s2, 9, 5);
      a == 1 && b == 1 && s2.activeChannels == 1 && c == 2 && s3.activeChannels == 2
  {
    var s0 := InitStep(s);
    assert !s0.channels[0].inUse;
    assert FindFree(s0.channels) == Some(0);
    var (s1, a) := CreateStep(s0, 5, 9);
    assert Joins(s1.channels[0], 5, 9);
    assert FindByPair(s1.channels, 5, 9) == Some(0);
    var (s2, b) := CreateStep(s1, 5, 9);
    assert s2 == s1;
    assert s2.channels[0].inUse && !s2.channels[1].inUse;
    assert FindFree(s2.channels) == Some(1);
  }

  // ---------------------------------------------------------------------------
  // Helpers for the loops of the imperative model
  // ---------------------------------------------------------------------------

  /** Freeing one more entry of a list extends the freed prefix. */
  lemma ReleaseStep(b: seq<bool>, q: seq<nat>, k: nat)
    requires k < |q| && q[k] < |b|
    ensures Release(b, q[..k])[q[k] := false] == Release(b, q[..k + 1])
  {
    assert forall e :: e in q[..k + 1] <==> e in q[..k] || e == q[k];
  }

  /** The lists of the first i + 1 slots are those of the first i, then slot i's. */
  lemma QueuedStep(cs: seq<Channel>, i: nat)
    requires i < |cs|
    ensures Queued(cs[..i + 1]) == Queued(cs[..i]) + cs[i].queue
  {
    assert cs[..i + 1][..i] == cs[..i];
  }

  /** mq_state: the channel slots, the entry pool and its flags, as fixed-size arrays. */
  class MessageQueue {
    const channels: array<Channel>
    const pool: array<Entry>
    const used: array<bool>
    var nextChannelId: U32
    var activeChannels: U32
    var currentTick: U32
    var initialized: bool
    var nextEntryIndex: nat

    function State(): MQ
      reads this, channels, pool, used
    {
      MQ(channels[..], nextChannelId, activeChannels, currentTick, initialized, pool[..], used[..], nextEntryIndex)
    }

    ghost predicate Valid()
      reads this, channels, pool, used
    {
      Wf(State())
    }

    /** The zero-initialized static state. */
    constructor ()
      ensures Valid() && State() == Boot()
    {
      channels := new Channel[MAX_CHANNELS](_ => ZERO_CHANNEL);
      pool := new Entry[POOL_ENTRIES](_ => Entry(ZeroMessage(), 0));
      used := new bool[POOL_ENTRIES](_ => false);
      nextChannelId := 0;
      activeChannels := 0;
      currentTick := 0;
      initialized := false;
      nextEntryIndex := 0;
      new;
      assert channels[..] == seq(MAX_CHANNELS, _ => ZERO_CHANNEL);
      assert pool[..] == seq(POOL_ENTRIES, _ => Entry(ZeroMessage(), 0));
      assert used[..] == seq(POOL_ENTRIES, _ => false);
      assert State() == Boot();
    }

    /** find_channel_by_id. */
    method FindChannelById(id: int) returns (r: Option<nat>)
      ensures r == FindById(channels[..], ToU32(id))
    {
      var i := 0;
      while i < channels.Length
        invariant 0 <= i <= channels.Length
        invariant FindById(channels[..], ToU32(id)) == FindById(channels[..], ToU32(id), i)
      {
        if channels[i].inUse && channels[i].channelId == ToU32(id) {
          return Some(i);
        }
        i := i + 1;
      }
      return None;
    }

    /** find_channel_by_participants. */
    method FindChannelByParticipants(sender: U32, receiver: U32) returns (r: Option<nat>)
      ensures r == FindByPair(channels[..], sender, receiver)
    {
      var i := 0;
      while i < channels.Length
        invariant 0 <= i <= channels.Length
        invariant FindByPair(channels[..], sender, receiver) == FindByPair(channels[..], sender, receiver, i)
      {
        var ch := channels[i];
        if ch.inUse && ch.senderId == sender && ch.receiverId == receiver {
          return Some(i);
        }
        i := i + 1;
      }
      return None;
    }

    /** find_free_channel: a slot index, or -1. */
    method FindFreeChannel() returns (r: int)
      ensures -1 <= r && FindFree(channels[..]) == if r < 0 then None else Some(r as nat)
    {
      var i := 0;
      while i < channels.Length
        invariant 0 <= i <= channels.Length
        invariant FindFree(channels[..]) == FindFree(channels[..], i)
      {
        if !channels[i].inUse {
          return i;
        }
        i := i + 1;
      }
      return -1;
    }

    /** alloc_message_entry: probes the pool round from the cursor. */
    method AllocMessageEntry() returns (e: Option<nat>)
      requires Valid()
      modifies this, used
      ensures (State(), e) == AllocEntry(old(State()))
    {
      var i := 0;
      while i < POOL_ENTRIES
        invariant 0 <= i <= POOL_ENTRIES
        invariant ScanFree(used[..], nextEntryIndex) == ScanFree(used[..], nextEntryIndex, i)
      {
        var index := (nextEntryIndex + i) % POOL_ENTRIES;
        if !used[index] {
          used[index] := true;
          nextEntryIndex := (index + 1) % POOL_ENTRIES;
          return Some(index);
        }
        i := i + 1;
      }
      return None;
    }

    /** free_message_entry: a null entry, or one outside the pool, is ignored. */
    method FreeMessageEntry(e: Option<nat>)
      modifies used
      ensures used[..] == if e.Some? && e.value < used.Length then old(used[..])[e.value := false] else old(used[..])
    {
      if e.None? {
        return;
      }
      if e.value < used.Length {
        used[e.value] := false;
      }
    }

    /** enqueue_message: the entry is stamped with the tick and linked at the tail. */
    method EnqueueMessage(i: nat, e: nat)
      requires i < channels.Length && e < pool.Length
      modifies channels, pool
      ensures channels[..] == old(channels[..])[i := old(channels[i]).(queue := old(channels[i].queue) + [e],
                                                                        queueSize := old(channels[i].queueSize) + 1)]
      ensures pool[..] == old(pool[..])[e := old(pool[e]).(timestamp := currentTick)]
    {
      pool[e] := pool[e].(timestamp := currentTick);
      var c := channels[i];
      channels[i] := c.(queue := c.queue + [e], queueSize := c.queueSize + 1);
    }

    /** dequeue_message: the head entry, unlinked, or none from an empty list. */
    method DequeueMessage(i: nat) returns (e: Option<nat>)
      requires i < channels.Length && channels[i].queueSize == |channels[i].queue|
      modifies channels
      ensures old(channels[i].queue) == [] ==> e.None? && channels[..] == old(channels[..])
      ensures old(channels[i].queue) != [] ==>
        e == Some(old(channels[i].queue[0]))
        && channels[..] == old(channels[..])[i := old(channels[i]).(queue := old(channels[i].queue[1..]),
                                                                      queueSize := old(channels[i].queueSize) - 1)]
    {
      var c := channels[i];
      if c.queue == [] {
        return None;
      }
      e := Some(c.queue[0]);
      channels[i] := c.(queue := c.queue[1..], queueSize := c.queueSize - 1);
    }

    /**
     * The `while (ch->queue_head)` loop of mq_shutdown and mq_destroy_channel:
     * every entry of slot i's list is unlinked and freed.
     */
    method DrainChannel(i: nat)
      requires i < channels.Length && used.Length == POOL_ENTRIES && ChannelShape(channels[i])
      modifies channels, used
      ensures channels[..] == old(channels[..])[i := old(channels[i]).(queue := [], queueSize := 0)]
      ensures used[..] == Release(old(used[..]), old(channels[i].queue))
    {
      ghost var q := channels[i].queue;
      ghost var k := 0;
      assert q[..0] == [];
      assert Release(used[..], []) == used[..];
      while channels[i].queue != []
        invariant 0 <= k <= |q| && channels[i].queue == q[k..] && channels[i].queueSize == |q| - k
        invariant forall j :: 0 <= j < |q| ==> q[j] < POOL_ENTRIES
        invariant channels[..] == old(channels[..])[i := old(channels[i]).(queue := q[k..], queueSize := |q| - k)]
        invariant used[..] == Release(old(used[..]), q[..k])
        decreases |q| - k
      {
        var e := DequeueMessage(i);
        ReleaseStep(old(used[..]), q, k);
        FreeMessageEntry(e);
        k := k + 1;
      }
      assert q[..k] == q;
    }

    /** mq_init. */
    method Init() returns (rc: int)
      requires Valid()
      modifies this, channels, used
      ensures Valid() && rc == 0 && State() == InitStep(old(State()))
    {
      if initialized {
        return 0;
      }
      InitKeepsWf(State());
      for i := 0 to MAX_CHANNELS
        invariant forall j :: 0 <= j < i ==> channels[j] == IDLE_CHANNEL
        modifies channels
      {
        channels[i] := IDLE_CHANNEL;
      }
      for i := 0 to POOL_ENTRIES
        invariant forall j :: 0 <= j < i ==> !used[j]
        modifies used
      {
        used[i] := false;
      }
      nextChannelId := 1;
      activeChannels := 0;
      currentTick := 0;
      nextEntryIndex := 0;
      initialized := true;
      assert channels[..] == seq(MAX_CHANNELS, _ => IDLE_CHANNEL);
      assert used[..] == seq(POOL_ENTRIES, _ => false);
      return 0;
    }

    /** Drains slot i and marks it free, as both mq_shutdown and mq_destroy_channel do. */
    method CloseChannel(i: nat)
      requires i < channels.Length && used.Length == POOL_ENTRIES && ChannelShape(channels[i])
      modifies channels, used
      ensures channels[..] == old(channels[..])[i := Closed(old(channels[i]))]
      ensures used[..] == Release(old(used[..]), old(channels[i].queue))
    {
      DrainChannel(i);
      channels[i] := channels[i].(inUse := false);
    }

    /** mq_shutdown. */
    method Shutdown()
      requires Valid()
      modifies this, channels, used
      ensures Valid() && State() == ShutdownStep(old(State()))
    {
      ghost var s := State();
      ShutdownKeepsWf(s);
      CloseAll();
      activeChannels := 0;
      initialized := false;
      assert State() == ShutdownStep(s);
    }

    /** The loop of mq_shutdown: every slot drained and closed, in index order. */
    method CloseAll()
      requires channels.Length == MAX_CHANNELS && used.Length == POOL_ENTRIES
      requires forall j :: 0 <= j < MAX_CHANNELS ==> ChannelShape(channels[j])
      modifies channels, used
      ensures channels[..] == seq(MAX_CHANNELS, j requires 0 <= j < MAX_CHANNELS => Closed(old(channels[j])))
      ensures used[..] == Release(old(used[..]), Queued(old(channels[..])))
    {
      ghost var cs := channels[..];
      ghost var u := used[..];
      for i := 0 to MAX_CHANNELS
        invariant forall j :: 0 <= j < i ==> channels[j] == Closed(cs[j])
        invariant forall j :: i <= j < MAX_CHANNELS ==> channels[j] == cs[j]
        invariant used[..] == Release(u, Queued(cs[..i]))
        modifies channels, used
      {
        CloseChannel(i);
        QueuedStep(cs, i);
        ReleaseTwice(u, Queued(cs[..i]), cs[i].queue);
      }
      assert cs[..MAX_CHANNELS] == cs;
    }

    /** mq_create_channel. */
    method CreateChannel(sender: U32, receiver: U32) returns (rc: int)
      requires Valid()
      modifies this, channels
      ensures Valid() && (State(), rc) == CreateStep(old(State()), sender, receiver)
    {
      CreateKeepsWf(State(), sender, receiver);
      var existing := FindChannelByParticipants(sender, receiver);
      if existing.Some? {
        return AsInt(channels[existing.value].channelId);
      }
      var index := FindFreeChannel();
      if index < 0 {
        return -1;
      }
      var id := nextChannelId;
      nextChannelId := AddU32(nextChannelId, 1);
      channels[index] := Channel(id, sender, receiver, [], 0, MAX_QUEUE_DEPTH, true, true, 0, 0, 0);
      activeChannels := AddU32(activeChannels, 1);
      return AsInt(id);
    }

    /** mq_destroy_channel. */
    method DestroyChannel(id: int)
      requires Valid()
      modifies this, channels, used
      ensures Valid() && State() == DestroyStep(old(State()), id)
    {
      ghost var s := State();
      DestroyKeepsWf(s, id);
      var found := FindChannelById(id);
      if found.None? {
        return;
      }
      var i := found.value;
      CloseChannel(i);
      activeChannels := SubU32(activeChannels, 1);
      assert State() == DestroyStep(s, id);
    }

    /** The tail of a successful mq_send_message: copy into entry e, link it, count the send. */
    method Deliver(i: nat, e: nat, m: IpcMessage)
      requires i < channels.Length && e < pool.Length
      modifies channels, pool
      ensures channels[..] == old(channels[..])[i := old(channels[i]).(queue := old(channels[i].queue) + [e],
                                                  queueSize := old(channels[i].queueSize) + 1,
                                                  messagesSent := AddU32(old(channels[i].messagesSent), 1))]
      ensures pool[..] == old(pool[..])[e := Entry(m, currentTick)]
    {
      pool[e] := Entry(m, currentTick);
      EnqueueMessage(i, e);
      channels[i] := channels[i].(messagesSent := AddU32(channels[i].messagesSent, 1));
    }

    /** mq_send_message; a null message is None. */
    method SendMessage(id: int, msg: Option<IpcMessage>) returns (rc: int)
      requires Valid()
      modifies this, channels, pool, used
      ensures Valid() && (State(), rc) == SendStep(old(State()), id, msg)
    {
      ghost var s := State();
      SendKeepsWf(s, id, msg);
      if msg.None? {
        return -1;
      }
      var found := FindChannelById(id);
      if found.None? {
        return -1;
      }
      var i := found.value;
      var c := channels[i];
      if c.queueSize >= c.maxQueueSize {
        channels[i] := c.(messagesDropped := AddU32(c.messagesDropped, 1));
        assert State() == Dropped(s, i);
        return -1;
      }
      var e := AllocMessageEntry();
      ghost var s1 := State();
      if e.None? {
        channels[i] := c.(messagesDropped := AddU32(c.messagesDropped, 1));
        assert State() == Dropped(s1, i);
        return -1;
      }
      Deliver(i, e.value, msg.value);
      assert State() == SendStep(s, id, msg).0;
      return 0;
    }

    /** The middle of a successful mq_receive_message: unlink the head, count it, free its entry. */
    method Take(i: nat) returns (e: nat)
      requires i < channels.Length && used.Length == POOL_ENTRIES && ChannelShape(channels[i]) && channels[i].queue != []
      modifies channels, used
      ensures e == old(channels[i].queue[0])
      ensures channels[..] == old(channels[..])[i := old(channels[i]).(queue := old(channels[i].queue[1..]),
                                                  queueSize := old(channels[i].queueSize) - 1,
                                                  messagesReceived := AddU32(old(channels[i].messagesReceived), 1))]
      ensures used[..] == old(used[..])[e := false]
    {
      var head := DequeueMessage(i);
      e := head.value;
      channels[i] := channels[i].(messagesReceived := AddU32(channels[i].messagesReceived, 1));
      FreeMessageEntry(head);
    }

    /** mq_receive_message; a null buffer is None, and the buffer comes back filled on success. */
    method ReceiveMessage(id: int, buf: Option<IpcMessage>) returns (rc: int, out: Option<IpcMessage>)
      requires Valid()
      modifies channels, used
      ensures Valid() && (State(), rc, out) == ReceiveStep(old(State()), id, buf)
    {
      ghost var s := State();
      ReceiveKeepsWf(s, id, buf);
      if buf.None? {
        return -1, buf;
      }
      var found := FindChannelById(id);
      if found.None? {
        return -1, buf;
      }
      var i := found.value;
      if channels[i].queue == [] {
        return -1, buf;
      }
      var e := Take(i);
      out := Some(pool[e].message);
      rc := 0;
      assert State() == ReceiveStep(s, id, buf).0;
    }

    /** mq_try_receive: the same call as mq_receive_message. */
    method TryReceive(id: int, buf: Option<IpcMessage>) returns (rc: int, out: Option<IpcMessage>)
      requires Valid()
      modifies channels, used
      ensures Valid() && (State(), rc, out) == ReceiveStep(old(State()), id, buf)
    {
      rc, out := ReceiveMessage(id, buf);
    }

    /** mq_can_send. */
    method CanSend(id: int) returns (b: bool)
      requires Valid()
      ensures b <==> SendStep(State(), id, Some(ZeroMessage())).1 == 0
      ensures b == SendWouldFit(State(), id)
    {
      FlowControl(State(), id, ZeroMessage(), ZeroMessage());
      var found := FindChannelById(id);
      if found.None? {
        return false;
      }
      return channels[found.value].queueSize < channels[found.value].maxQueueSize;
    }

    /** mq_has_messages. */
    method HasMessages(id: int) returns (b: bool)
      requires Valid()
      ensures b <==> ReceiveStep(State(), id, Some(ZeroMessage())).1 == 0
      ensures b == HasPending(State(), id)
    {
      FlowControl(State(), id, ZeroMessage(), ZeroMessage());
      var found := FindChannelById(id);
      if found.None? {
        return false;
      }
      return channels[found.value].queueSize > 0;
    }

    /** mq_get_queue_size. */
    method GetQueueSize(id: int) returns (n: nat)
      requires Valid()
      ensures n == QueueSizeOf(State(), id)
      ensures match FindById(channels[..], ToU32(id))
        case None => n == 0
        case Some(i) => n == |Contents(State(), i)| <= MAX_QUEUE_DEPTH
    {
      var found := FindChannelById(id);
      if found.None? {
        return 0;
      }
      return channels[found.value].queueSize;
    }

    /** mq_check_permission: every pair may communicate. */
    method CheckPermission(sender: U32, receiver: U32) returns (b: bool)
      ensures b
    {
      return true;
    }

    /** mq_grant_capability: accepted and ignored. */
    method GrantCapability(grantor: U32, grantee: U32, rights: U32)
    {
    }

    /** mq_set_blocking_mode. */
    method SetBlockingMode(id: int, blocking: bool)
      requires Valid()
      modifies channels
      ensures Valid() && State() == SetBlockingStep(old(State()), id, blocking)
    {
      SetBlockingKeepsWf(State(), id, blocking);
      var found := FindChannelById(id);
      if found.Some? {
        channels[found.value] := channels[found.value].(isBlocking := blocking);
      }
    }

    /** mq_set_queue_size. */
    method SetQueueSize(id: int, maxSize: nat)
      requires Valid()
      modifies channels
      ensures Valid() && State() == SetQueueSizeStep(old(State()), id, maxSize)
    {
      SetQueueSizeKeepsWf(State(), id, maxSize);
      var found := FindChannelById(id);
      if found.Some? && maxSize <= MAX_QUEUE_DEPTH {
        channels[found.value] := channels[found.value].(maxQueueSize := maxSize);
      }
    }

    /** mq_tick. */
    method Tick()
      requires Valid()
      modifies this
      ensures Valid() && State() == TickStep(old(State()))
    {
      currentTick := AddU32(currentTick, 1);
    }
  }
}
