/**
 * The shared-memory IPC transport (kernel/ipc/shared_memory_ipc.c): 64
 * regions, each shared by up to 8 participants, with a single message slot
 * overlaid on its backing memory and a lock flag around every access.
 *
 * Backing memory comes from a static bump pool of 64 * 4096 bytes whose
 * offset is never reset, so no two regions ever receive the same block; the
 * model therefore keeps each region's message slot inside the region record,
 * and the pool only as its offset.  The lock is a plain flag: there is one
 * thread, so `acquire_lock` finds it clear.
 */
module SharedMemoryIpc {
  import opened Wrappers
  import opened Registry

  const MAX_SHARED_REGIONS: nat := 64
  const MAX_PROCESSES_PER_REGION: nat := 8
  const SHARED_REGION_SIZE: nat := 4096
  /** MAX_MESSAGE_SIZE of this transport: the payload a region's slot holds. */
  const SLOT_DATA_SIZE: nat := 1024
  /** sizeof(shared_pool) in allocate_shared_memory. */
  const SHARED_POOL_SIZE: nat := MAX_SHARED_REGIONS * SHARED_REGION_SIZE

  /** The write bit send asks for, and the bits create grants. */
  const PERM_WRITE: bv32 := 0x2
  const PERM_READ_WRITE: bv32 := 0x3

  /** shared_message_t, the slot at the start of a region's memory. */
  datatype SharedMessage = SharedMessage(
    senderId: U32,
    receiverId: U32,
    messageId: U32,
    size: nat,
    data: seq<bv8>,
    valid: bool)

  /** The slot of freshly zeroed memory. */
  const ZERO_SLOT: SharedMessage := SharedMessage(0, 0, 0, 0, ZeroBytes(SLOT_DATA_SIZE), false)

  /** n zero bytes. */
  function ZeroBytes(n: nat): (z: seq<bv8>)
    ensures |z| == n && forall i :: 0 <= i < n ==> z[i] == 0
  {
    if n == 0 then [] else ZeroBytes(n - 1) + [0]
  }

  /** shared_region_t; `memory` is the block's offset in the bump pool, or NULL. */
  datatype Region = Region(
    regionId: U32,
    creatorId: U32,
    participants: seq<U32>,
    participantCount: nat,
    memory: Option<nat>,
    size: nat,
    permissions: bv32,
    inUse: bool,
    lock: bool,
    readIndex: U32,
    writeIndex: U32,
    hasData: bool,
    slot: SharedMessage)

  /** shm_state, with the static pool_offset of allocate_shared_memory. */
  datatype SHM = SHM(
    regions: seq<Region>,
    nextRegionId: U32,
    activeRegions: U32,
    totalSent: U32,
    totalReceived: U32,
    initialized: bool,
    poolOffset: nat)

  /** A region as the zero-initialized static array holds it. */
  const ZERO_REGION: Region :=
    Region(0, 0, seq(MAX_PROCESSES_PER_REGION, _ => 0), 0, None, 0, 0, false, false, 0, 0, false, ZERO_SLOT)

  function Min(a: nat, b: nat): (m: nat)
    ensures m <= a && m <= b && (m == a || m == b)
  {
    if a < b then a else b
  }

  // ---------------------------------------------------------------------------
  // Well-formedness
  // ---------------------------------------------------------------------------

  /**
   * A region's fixed-size parts keep their sizes, the count stays within the
   * participant array, the lock is released, and only a region in use holds
   * memory.
   */
  predicate RegionShape(r: Region)
  {
    |r.participants| == MAX_PROCESSES_PER_REGION && r.participantCount <= MAX_PROCESSES_PER_REGION
    && !r.lock && |r.slot.data| == SLOT_DATA_SIZE && r.slot.size <= SLOT_DATA_SIZE
    && (r.inUse <==> r.memory.Some?)
  }

  predicate Shaped(s: SHM)
  {
    |s.regions| == MAX_SHARED_REGIONS && s.poolOffset <= SHARED_POOL_SIZE
    && forall i :: 0 <= i < |s.regions| ==> RegionShape(s.regions[i])
  }

  /** The number of regions in use. */
  function InUseCount(rs: seq<Region>): (n: nat)
    ensures n <= |rs|
  {
    if rs == [] then 0 else InUseCount(rs[..|rs| - 1]) + (if rs[|rs| - 1].inUse then 1 else 0)
  }

  /** Every region in use owns a whole block below the pool offset, and no two own the same one. */
  ghost predicate OwnBlocks(s: SHM)
    requires Shaped(s)
  {
    (forall i :: 0 <= i < |s.regions| && s.regions[i].inUse ==>
       s.regions[i].memory.value + SHARED_REGION_SIZE <= s.poolOffset)
    && forall i, j ::
         (0 <= i < |s.regions| && 0 <= j < |s.regions| && i != j
          && s.regions[i].inUse && s.regions[j].inUse) ==> s.regions[i].memory != s.regions[j].memory
  }

  /**
   * Region ids: `nextRegionId` moves only when a block is handed out, so it
   * stays at most one past the blocks taken; every region in use carries an
   * id below it, and no two regions in use carry the same id.
   */
  ghost predicate IdsFresh(s: SHM)
  {
    s.nextRegionId * SHARED_REGION_SIZE <= s.poolOffset + SHARED_REGION_SIZE
    && (forall i :: 0 <= i < |s.regions| && s.regions[i].inUse ==> s.regions[i].regionId < s.nextRegionId)
    && forall i, j ::
         (0 <= i < |s.regions| && 0 <= j < |s.regions| && i != j
          && s.regions[i].inUse && s.regions[j].inUse) ==> s.regions[i].regionId != s.regions[j].regionId
  }

  /** The invariant of the transport: shapes, owned blocks, fresh ids, and the active count. */
  ghost predicate Wf(s: SHM)
  {
    Shaped(s) && OwnBlocks(s) && IdsFresh(s) && s.activeRegions == InUseCount(s.regions)
  }

  /** In a region in use, has_data and the slot's valid flag agree. */
  ghost predicate SlotAgrees(s: SHM)
  {
    forall i :: 0 <= i < |s.regions| && s.regions[i].inUse ==> s.regions[i].hasData == s.regions[i].slot.valid
  }

  // ---------------------------------------------------------------------------
  // Lookups
  // ---------------------------------------------------------------------------

  /** The participants recorded in a region. */
  function Members(r: Region): (m: seq<U32>)
    ensures |m| <= |r.participants|
  {
    if r.participantCount <= |r.participants| then r.participants[..r.participantCount] else r.participants
  }

  predicate HasId(r: Region, id: U32)
  {
    r.inUse && r.regionId == id
  }

  predicate Shares(r: Region, a: U32, b: U32)
  {
    r.inUse && a in Members(r) && b in Members(r)
  }

  /** The loop of send, receive, destroy, can_send and has_messages: the lowest in-use region with that id. */
  function FindRegion(rs: seq<Region>, id: U32, i: nat := 0): (r: Option<nat>)
    requires i <= |rs|
    decreases |rs| - i
    ensures r.Some? ==> i <= r.value < |rs| && HasId(rs[r.value], id)
    ensures r.Some? ==> forall j :: i <= j < r.value ==> !HasId(rs[j], id)
    ensures r.None? ==> forall j :: i <= j < |rs| ==> !HasId(rs[j], id)
  {
    if i == |rs| then None
    else if HasId(rs[i], id) then Some(i)
    else FindRegion(rs, id, i + 1)
  }

  /** find_region_by_participants: the lowest in-use region listing both ids, in either role. */
  function FindByPair(rs: seq<Region>, a: U32, b: U32, i: nat := 0): (r: Option<nat>)
    requires i <= |rs|
    decreases |rs| - i
    ensures r.Some? ==> i <= r.value < |rs| && Shares(rs[r.value], a, b)
    ensures r.None? ==> forall j :: i <= j < |rs| ==> !Shares(rs[j], a, b)
  {
    if i == |rs| then None
    else if Shares(rs[i], a, b) then Some(i)
    else FindByPair(rs, a, b, i + 1)
  }

  /** find_free_region: the lowest region not in use. */
  function FindFree(rs: seq<Region>, i: nat := 0): (r: Option<nat>)
    requires i <= |rs|
    decreases |rs| - i
    ensures r.Some? ==> i <= r.value < |rs| && !rs[r.value].inUse
    ensures r.Some? ==> forall j :: i <= j < r.value ==> rs[j].inUse
    ensures r.None? ==> forall j :: i <= j < |rs| ==> rs[j].inUse
  {
    if i == |rs| then None
    else if !rs[i].inUse then Some(i)
    else FindFree(rs, i + 1)
  }

  /** The permission bits grant one of the required bits. */
  predicate Allows(permissions: bv32, required: bv32)
  {
    permissions & required != 0
  }

  /** The permission bits after `rights` are or-ed into them. */
  function WithRights(permissions: bv32, rights: bv32): bv32
  {
    permissions | rights
  }

  /** The participant loop of check_region_permission from index j on. */
  function PermissionFrom(r: Region, pid: U32, required: bv32, j: nat): bool
    requires j <= |Members(r)|
    decreases |Members(r)| - j
  {
    if j == |Members(r)| then false
    else if Members(r)[j] == pid then Allows(r.permissions, required)
    else PermissionFrom(r, pid, required, j + 1)
  }

  /** check_region_permission on a region (the null-region case is the caller's). */
  function Permits(r: Region, pid: U32, required: bv32): bool
  {
    r.inUse && PermissionFrom(r, pid, required, 0)
  }

  /** allocate_shared_memory: the next block of the bump pool, or none once it would overflow. */
  function Allocate(offset: nat, size: nat): (r: (nat, Option<nat>))
  {
    if offset + size > SHARED_POOL_SIZE then (offset, None) else (offset + size, Some(offset))
  }

  // ---------------------------------------------------------------------------
  // The operations, as functions of the state
  // ---------------------------------------------------------------------------

  /** The state before shm_init has ever run: the static struct is all zero. */
  function Boot(): (r: SHM)
    ensures Wf(r) && SlotAgrees(r)
  {
    var r := SHM(seq(MAX_SHARED_REGIONS, _ => ZERO_REGION), 0, 0, 0, 0, false, 0);
    NoneInUse(r.regions);
    r
  }

  /** A region as shm_init resets it; the memory it pointed to, and so the slot, is left as it was. */
  function Reset(r: Region): Region
  {
    r.(regionId := 0, creatorId := 0, participantCount := 0, memory := None, size := 0, permissions := 0,
       inUse := false, lock := false, readIndex := 0, writeIndex := 0, hasData := false,
       participants := seq(MAX_PROCESSES_PER_REGION, _ => 0))
  }

  /** shm_init: a second call does nothing. */
  function InitStep(s: SHM): (r: SHM)
    requires Shaped(s)
  {
    if s.initialized then s
    else s.(regions := seq(MAX_SHARED_REGIONS, i requires 0 <= i < MAX_SHARED_REGIONS => Reset(s.regions[i])),
            nextRegionId := 1, activeRegions := 0, totalSent := 0, totalReceived := 0, initialized := true)
  }

  /** A region released by shm_shutdown or shm_destroy_channel: its block is dropped, never returned. */
  function Released(r: Region): Region
  {
    r.(inUse := false, memory := None)
  }

  /** shm_shutdown: every region is released; the pool offset stays. */
  function ShutdownStep(s: SHM): (r: SHM)
    requires Shaped(s)
  {
    s.(regions := seq(MAX_SHARED_REGIONS, i requires 0 <= i < MAX_SHARED_REGIONS => Released(s.regions[i])),
       activeRegions := 0, initialized := false)
  }

  /** The region shm_create_channel sets up in a free slot, on the block at `offset`. */
  function Opened(r: Region, id: U32, sender: U32, receiver: U32, offset: nat): Region
    requires |r.participants| == MAX_PROCESSES_PER_REGION
  {
    Region(id, sender, r.participants[0 := sender][1 := receiver], 2, Some(offset), SHARED_REGION_SIZE,
           PERM_READ_WRITE, true, false, 0, 0, false, ZERO_SLOT)
  }

  /**
   * shm_create_channel: the id of a region already shared by the two ids;
   * else a new region in the lowest free slot on a fresh block; -1 when no
   * slot is free or the pool is used up (the slot's pointer is then set to
   * NULL, which it already was).
   */
  function CreateStep(s: SHM, sender: U32, receiver: U32): (r: (SHM, int))
    requires Shaped(s)
  {
    match FindByPair(s.regions, sender, receiver)
    case Some(i) => (s, AsInt(s.regions[i].regionId))
    case None =>
      match FindFree(s.regions)
      case None => (s, -1)
      case Some(i) =>
        var alloc := Allocate(s.poolOffset, SHARED_REGION_SIZE);
        if alloc.1.None? then (s.(regions := s.regions[i := s.regions[i].(memory := None)]), -1)
        else
          var region := Opened(s.regions[i], s.nextRegionId, sender, receiver, alloc.1.value);
          (s.(regions := s.regions[i := region], nextRegionId := AddU32(s.nextRegionId, 1),
              activeRegions := AddU32(s.activeRegions, 1), poolOffset := alloc.0), AsInt(region.regionId))
  }

  /** shm_destroy_channel: the first in-use region with the id is released; an unknown id is a no-op. */
  function DestroyStep(s: SHM, id: int): (r: SHM)
    requires Shaped(s)
  {
    match FindRegion(s.regions, ToU32(id))
    case None => s
    case Some(i) =>
      s.(regions := s.regions[i := Released(s.regions[i])], activeRegions := SubU32(s.activeRegions, 1))
  }

  /** The slot after send copies `m` into it: min(size, 1024) bytes, the older bytes after them stay. */
  function Written(old_slot: SharedMessage, m: IpcMessage): (w: SharedMessage)
    requires WellFormedMessage(m) && |old_slot.data| == SLOT_DATA_SIZE
    ensures |w.data| == SLOT_DATA_SIZE && w.size <= SLOT_DATA_SIZE
  {
    var n := Min(m.size, SLOT_DATA_SIZE);
    SharedMessage(m.senderId, m.receiverId, m.messageId, n, m.data[..n] + old_slot.data[n..], true)
  }

  /** The caller's buffer after receive copies the slot into it: type, timestamp and flags stay. */
  function Delivered(buf: IpcMessage, w: SharedMessage): IpcMessage
    requires WellFormedMessage(buf) && w.size <= |w.data| && w.size <= IPC_MAX_MESSAGE_SIZE
  {
    buf.(senderId := w.senderId, receiverId := w.receiverId, messageId := w.messageId, size := w.size,
         data := w.data[..w.size] + buf.data[w.size..])
  }

  /**
   * shm_send_message: a null message, an unknown id, or a sender without the
   * write bit fails; a region still holding a message fails; otherwise the
   * message is copied into the slot, which becomes valid and pending.
   */
  function SendStep(s: SHM, id: int, msg: Option<IpcMessage>): (r: (SHM, int))
    requires Shaped(s) && (msg.Some? ==> WellFormedMessage(msg.value))
  {
    if msg.None? then (s, -1)
    else match FindRegion(s.regions, ToU32(id))
      case None => (s, -1)
      case Some(i) =>
        var g := s.regions[i];
        if !Permits(g, msg.value.senderId, PERM_WRITE) then (s, -1)
        else if g.hasData then (s, -1)
        else
          (s.(regions := s.regions[i := g.(slot := Written(g.slot, msg.value), hasData := true)],
              totalSent := AddU32(s.totalSent, 1)), 0)
  }

  /**
   * shm_receive_message (and shm_try_receive, the same call): a null buffer,
   * an unknown id, no pending message or an invalid slot fails; otherwise the
   * slot is copied out and consumed.  No permission is checked.
   */
  function ReceiveStep(s: SHM, id: int, buf: Option<IpcMessage>): (r: (SHM, int, Option<IpcMessage>))
    requires Shaped(s) && (buf.Some? ==> WellFormedMessage(buf.value))
  {
    if buf.None? then (s, -1, buf)
    else match FindRegion(s.regions, ToU32(id))
      case None => (s, -1, buf)
      case Some(i) =>
        var g := s.regions[i];
        if !g.hasData then (s, -1, buf)
        else if !g.slot.valid then (s, -1, buf)
        else
          (s.(regions := s.regions[i := g.(slot := g.slot.(valid := false), hasData := false)],
              totalReceived := AddU32(s.totalReceived, 1)), 0, Some(Delivered(buf.value, g.slot)))
  }

  /** shm_can_send. */
  function SendWouldFit(s: SHM, id: int): bool
  {
    match FindRegion(s.regions, ToU32(id))
    case None => false
    case Some(i) => !s.regions[i].hasData
  }

  /** shm_has_messages. */
  function HasPending(s: SHM, id: int): bool
  {
    match FindRegion(s.regions, ToU32(id))
    case None => false
    case Some(i) => s.regions[i].hasData
  }

  /** shm_get_queue_size: one pending message or none. */
  function QueueSizeOf(s: SHM, id: int): nat
  {
    if HasPending(s, id) then 1 else 0
  }

  /** shm_check_permission: every pair may communicate. */
  function Permitted(sender: U32, receiver: U32): bool
  {
    true
  }

  /**
   * One region under shm_grant_capability: a region in use, created by the
   * grantor, with room, that does not list the grantee gains it as a
   * participant, and the rights join its region-wide permissions.
   */
  function Granted(r: Region, grantor: U32, grantee: U32, rights: bv32): Region
    requires r.participantCount <= |r.participants|
  {
    if r.inUse && r.creatorId == grantor && r.participantCount < |r.participants| && grantee !in Members(r) then
      r.(participants := r.participants[r.participantCount := grantee], participantCount := r.participantCount + 1,
         permissions := WithRights(r.permissions, rights))
    else r
  }

  /** shm_grant_capability: every region is considered independently. */
  function GrantStep(s: SHM, grantor: U32, grantee: U32, rights: bv32): (r: SHM)
    requires Shaped(s)
  {
    s.(regions := seq(MAX_SHARED_REGIONS, i requires 0 <= i < MAX_SHARED_REGIONS =>
                        Granted(s.regions[i], grantor, grantee, rights)))
  }

  // ---------------------------------------------------------------------------
  // Counting
  // ---------------------------------------------------------------------------

  lemma {:induction false} NoneInUse(rs: seq<Region>)
    requires forall i :: 0 <= i < |rs| ==> !rs[i].inUse
    ensures InUseCount(rs) == 0
  {
    if rs != [] {
      NoneInUse(rs[..|rs| - 1]);
    }
  }

  /** Replacing one region changes the count by that region's difference. */
  lemma {:induction false} CountUpdate(rs: seq<Region>, i: nat, g: Region)
    requires i < |rs|
    ensures InUseCount(rs[i := g]) + (if rs[i].inUse then 1 else 0) == InUseCount(rs) + (if g.inUse then 1 else 0)
  {
    var n := |rs| - 1;
    if i < n {
      CountUpdate(rs[..n], i, g);
      assert rs[i := g][..n] == rs[..n][i := g];
    } else {
      assert rs[i := g][..n] == rs[..n];
    }
  }

  /** Regions with the same in-use flags count the same. */
  lemma {:induction false} SameFlagsCount(rs: seq<Region>, ts: seq<Region>)
    requires |rs| == |ts| && forall i :: 0 <= i < |rs| ==> rs[i].inUse == ts[i].inUse
    ensures InUseCount(rs) == InUseCount(ts)
  {
    if rs != [] {
      SameFlagsCount(rs[..|rs| - 1], ts[..|ts| - 1]);
    }
  }

  /** With every region in use, the count is 64. */
  lemma {:induction false} AllInUse(rs: seq<Region>)
    requires forall i :: 0 <= i < |rs| ==> rs[i].inUse
    ensures InUseCount(rs) == |rs|
  {
    if rs != [] {
      AllInUse(rs[..|rs| - 1]);
    }
  }

  /** A region in use makes the count positive. */
  lemma CountPositive(rs: seq<Region>, i: nat)
    requires i < |rs| && rs[i].inUse
    ensures InUseCount(rs) >= 1
  {
    CountUpdate(rs, i, Released(rs[i]));
  }

  // ---------------------------------------------------------------------------
  // Each operation keeps the invariant
  // ---------------------------------------------------------------------------

  lemma InitKeepsWf(s: SHM)
    requires Wf(s)
    ensures var r := InitStep(s);
      Wf(r) && (SlotAgrees(s) ==> SlotAgrees(r)) && r.poolOffset == s.poolOffset
      && (!s.initialized ==> r.initialized && r.activeRegions == 0
                             && forall i :: 0 <= i < |r.regions| ==> !r.regions[i].inUse)
  {
    if !s.initialized {
      NoneInUse(InitStep(s).regions);
    }
  }

  lemma ShutdownKeepsWf(s: SHM)
    requires Wf(s)
    ensures var r := ShutdownStep(s);
      Wf(r) && SlotAgrees(r) && r.poolOffset == s.poolOffset && !r.initialized && r.activeRegions == 0
      && forall i :: 0 <= i < |r.regions| ==> !r.regions[i].inUse
  {
    NoneInUse(ShutdownStep(s).regions);
  }

  /** The invariant after a region is replaced by one with the same in-use flag, memory and id. */
  lemma SameFlagsKeepWf(s: SHM, r: SHM, i: nat, g: Region)
    requires Wf(s) && i < |s.regions| && RegionShape(g)
    requires g.inUse == s.regions[i].inUse && g.memory == s.regions[i].memory && g.regionId == s.regions[i].regionId
    requires r == s.(regions := s.regions[i := g], totalSent := r.totalSent, totalReceived := r.totalReceived)
    ensures Wf(r)
  {
    CountUpdate(s.regions, i, g);
  }

  lemma DestroyKeepsWf(s: SHM, id: int)
    requires Wf(s)
    ensures var r := DestroyStep(s, id);
      Wf(r) && (SlotAgrees(s) ==> SlotAgrees(r)) && r.poolOffset == s.poolOffset
  {
    match FindRegion(s.regions, ToU32(id))
    case None =>
    case Some(i) =>
      CountUpdate(s.regions, i, Released(s.regions[i]));
  }

  lemma SendKeepsWf(s: SHM, id: int, msg: Option<IpcMessage>)
    requires Wf(s) && (msg.Some? ==> WellFormedMessage(msg.value))
    ensures var r := SendStep(s, id, msg).0;
      Wf(r) && (SlotAgrees(s) ==> SlotAgrees(r)) && r.poolOffset == s.poolOffset
  {
    if msg.Some? {
      match FindRegion(s.regions, ToU32(id))
      case None =>
      case Some(i) =>
        var g := s.regions[i];
        if Permits(g, msg.value.senderId, PERM_WRITE) && !g.hasData {
          SameFlagsKeepWf(s, SendStep(s, id, msg).0, i, g.(slot := Written(g.slot, msg.value), hasData := true));
        }
    }
  }

  lemma ReceiveKeepsWf(s: SHM, id: int, buf: Option<IpcMessage>)
    requires Wf(s) && (buf.Some? ==> WellFormedMessage(buf.value))
    ensures var r := ReceiveStep(s, id, buf).0;
      Wf(r) && (SlotAgrees(s) ==> SlotAgrees(r)) && r.poolOffset == s.poolOffset
  {
    if buf.Some? {
      match FindRegion(s.regions, ToU32(id))
      case None =>
      case Some(i) =>
        var g := s.regions[i];
        if g.hasData && g.slot.valid {
          SameFlagsKeepWf(s, ReceiveStep(s, id, buf).0, i, g.(slot := g.slot.(valid := false), hasData := false));
        }
    }
  }

  /** A grant touches only the participants and the permissions of a region. */
  lemma GrantedKeepsShape(r: Region, grantor: U32, grantee: U32, rights: bv32)
    requires RegionShape(r)
    ensures var g := Granted(r, grantor, grantee, rights);
      RegionShape(g) && g.inUse == r.inUse && g.memory == r.memory && g.regionId == r.regionId
      && g.hasData == r.hasData && g.slot == r.slot
  {
  }

  lemma GrantKeepsWf(s: SHM, grantor: U32, grantee: U32, rights: bv32)
    requires Wf(s)
    ensures var r := GrantStep(s, grantor, grantee, rights);
      Wf(r) && (SlotAgrees(s) ==> SlotAgrees(r)) && r.poolOffset == s.poolOffset
  {
    var r := GrantStep(s, grantor, grantee, rights);
    forall i | 0 <= i < |s.regions|
      ensures RegionShape(r.regions[i]) && r.regions[i].inUse == s.regions[i].inUse
      ensures r.regions[i].memory == s.regions[i].memory && r.regions[i].regionId == s.regions[i].regionId
      ensures r.regions[i].hasData == s.regions[i].hasData && r.regions[i].slot == s.regions[i].slot
    {
      GrantedKeepsShape(s.regions[i], grantor, grantee, rights);
    }
    SameFlagsCount(s.regions, r.regions);
  }

  /** A new region on the next block keeps every block owned once and every id fresh. */
  lemma OpenKeepsWf(s: SHM, a: U32, b: U32, i: nat)
    requires Wf(s) && i < |s.regions| && !s.regions[i].inUse
    requires s.poolOffset + SHARED_REGION_SIZE <= SHARED_POOL_SIZE
    ensures var r := s.(regions := s.regions[i := Opened(s.regions[i], s.nextRegionId, a, b, s.poolOffset)],
                        nextRegionId := AddU32(s.nextRegionId, 1), activeRegions := AddU32(s.activeRegions, 1),
                        poolOffset := s.poolOffset + SHARED_REGION_SIZE);
      Wf(r) && (SlotAgrees(s) ==> SlotAgrees(r))
  {
    var g := Opened(s.regions[i], s.nextRegionId, a, b, s.poolOffset);
    CountUpdate(s.regions, i, g);
  }

  lemma CreateKeepsWf(s: SHM, a: U32, b: U32)
    requires Wf(s)
    ensures var r := CreateStep(s, a, b).0;
      Wf(r) && (SlotAgrees(s) ==> SlotAgrees(r))
      && (r.poolOffset == s.poolOffset || r.poolOffset == s.poolOffset + SHARED_REGION_SIZE)
  {
    if FindByPair(s.regions, a, b).None? {
      match FindFree(s.regions)
      case None =>
      case Some(i) =>
        if s.poolOffset + SHARED_REGION_SIZE > SHARED_POOL_SIZE {
          assert s.regions[i].(memory := None) == s.regions[i];
          assert s.regions[i := s.regions[i]] == s.regions;
        } else {
          OpenKeepsWf(s, a, b, i);
        }
    }
  }

  // ---------------------------------------------------------------------------
  // Permissions and lookups
  // ---------------------------------------------------------------------------

  lemma {:induction false} PermissionFromIff(r: Region, pid: U32, required: bv32, j: nat)
    requires j <= |Members(r)|
    decreases |Members(r)| - j
    ensures PermissionFrom(r, pid, required, j) <==> pid in Members(r)[j..] && Allows(r.permissions, required)
  {
    if j < |Members(r)| {
      PermissionFromIff(r, pid, required, j + 1);
      assert Members(r)[j..] == [Members(r)[j]] + Members(r)[j + 1..];
    }
  }

  /**
   * check_region_permission: a process may use a region in use exactly when
   * it is one of its participants and the region-wide permissions hold one of
   * the required bits.
   */
  lemma PermissionIff(r: Region, pid: U32, required: bv32)
    ensures Permits(r, pid, required) <==> r.inUse && pid in Members(r) && Allows(r.permissions, required)
  {
    PermissionFromIff(r, pid, required, 0);
    assert Members(r)[0..] == Members(r);
  }

  /** Ids are unique among regions in use, so the lookup finds the one region carrying the id. */
  lemma FindUnique(s: SHM, id: U32, i: nat)
    requires Wf(s) && i < |s.regions| && HasId(s.regions[i], id)
    ensures FindRegion(s.regions, id) == Some(i)
  {
    var f := FindRegion(s.regions, id);
    assert f.Some?;
    assert HasId(s.regions[f.value], id);
  }

  // ---------------------------------------------------------------------------
  // Send and receive
  // ---------------------------------------------------------------------------

  /**
   * Send succeeds exactly when there is a message, a region in use carries
   * the id, the message's sender is one of its participants with the write
   * bit, and the region's slot is empty; any failure returns -1 and changes
   * nothing.
   */
  lemma SendOutcome(s: SHM, id: int, msg: Option<IpcMessage>)
    requires Wf(s) && (msg.Some? ==> WellFormedMessage(msg.value))
    ensures var (r, rc) := SendStep(s, id, msg);
      (rc == 0 || (rc == -1 && r == s))
      && (rc == 0 <==> msg.Some? && (exists i :: 0 <= i < |s.regions| && HasId(s.regions[i], ToU32(id))
                                      && msg.value.senderId in Members(s.regions[i])
                                      && Allows(s.regions[i].permissions, PERM_WRITE) && !s.regions[i].hasData))
      && (rc == 0 ==> HasPending(r, id) && !SendWouldFit(r, id) && r.totalSent == AddU32(s.totalSent, 1))
  {
    if msg.Some? {
      match FindRegion(s.regions, ToU32(id))
      case None =>
      case Some(i) =>
        PermissionIff(s.regions[i], msg.value.senderId, PERM_WRITE);
        forall k | 0 <= k < |s.regions| && HasId(s.regions[k], ToU32(id))
          ensures k == i
        {
          FindUnique(s, ToU32(id), k);
        }
        var r := SendStep(s, id, msg).0;
        if r != s {
          SlotOnly(s, r, i);
        }
    }
  }

  /** A region keeps its id and flags once its slot is the only thing changed. */
  lemma SlotOnly(s: SHM, r: SHM, i: nat)
    requires Wf(s) && i < |s.regions| && |r.regions| == |s.regions| && s.nextRegionId == r.nextRegionId
    requires forall k :: 0 <= k < |s.regions| && k != i ==> r.regions[k] == s.regions[k]
    requires r.regions[i].inUse == s.regions[i].inUse && r.regions[i].regionId == s.regions[i].regionId
    ensures FindRegion(r.regions, s.regions[i].regionId) == FindRegion(s.regions, s.regions[i].regionId)
  {
    var id := s.regions[i].regionId;
    if HasId(s.regions[i], id) {
      FindUnique(s, id, i);
    }
  }

  /**
   * Receive succeeds exactly when there is a buffer and the region with the
   * id holds a message, whoever asks; a failure returns -1 and leaves the
   * state and the buffer alone; a success empties the slot.
   */
  lemma ReceiveOutcome(s: SHM, id: int, buf: Option<IpcMessage>)
    requires Wf(s) && SlotAgrees(s) && (buf.Some? ==> WellFormedMessage(buf.value))
    ensures var (r, rc, out) := ReceiveStep(s, id, buf);
      (rc == 0 || (rc == -1 && r == s && out == buf))
      && (rc == 0 <==> buf.Some? && HasPending(s, id))
      && (rc == 0 ==> !HasPending(r, id) && SendWouldFit(r, id) && r.totalReceived == AddU32(s.totalReceived, 1))
  {
    if buf.Some? {
      match FindRegion(s.regions, ToU32(id))
      case None =>
      case Some(i) =>
        var r := ReceiveStep(s, id, buf).0;
        if s.regions[i].hasData {
          SlotOnly(s, r, i);
        }
    }
  }

  /**
   * A message sent into an empty region comes back out of it: ids, the size
   * cut to the slot's 1024 bytes, and those bytes; the rest of the caller's
   * buffer, its type, timestamp and flags are untouched, and the region is
   * empty again.
   */
  lemma RoundTrip(s: SHM, id: int, m: IpcMessage, buf: IpcMessage)
    requires Wf(s) && WellFormedMessage(m) && WellFormedMessage(buf)
    requires SendStep(s, id, Some(m)).1 == 0
    ensures var s1 := SendStep(s, id, Some(m)).0;
      var (s2, rc, out) := ReceiveStep(s1, id, Some(buf));
      var n := Min(m.size, SLOT_DATA_SIZE);
      rc == 0 && out.Some?
      && out.value.senderId == m.senderId && out.value.receiverId == m.receiverId
      && out.value.messageId == m.messageId && out.value.size == n
      && out.value.data[..n] == m.data[..n] && out.value.data[n..] == buf.data[n..]
      && out.value.kind == buf.kind && out.value.timestamp == buf.timestamp && out.value.flags == buf.flags
      && SendWouldFit(s2, id) && !HasPending(s2, id)
  {
    var i := FindRegion(s.regions, ToU32(id)).value;
    var s1 := SendStep(s, id, Some(m)).0;
    SendKeepsWf(s, id, Some(m));
    SlotOnly(s, s1, i);
    var s2 := ReceiveStep(s1, id, Some(buf)).0;
    SlotOnly(s1, s2, i);
  }

  /** The slot holds one message: a second send fails until it is received. */
  lemma SlotHoldsOne(s: SHM, id: int, m: IpcMessage, m2: IpcMessage)
    requires Wf(s) && WellFormedMessage(m) && WellFormedMessage(m2)
    requires SendStep(s, id, Some(m)).1 == 0
    ensures SendStep(SendStep(s, id, Some(m)).0, id, Some(m2)) == (SendStep(s, id, Some(m)).0, -1)
  {
    SendOutcome(s, id, Some(m));
  }

  /** A received message is gone: a second receive fails. */
  lemma ReceiveConsumes(s: SHM, id: int, buf: IpcMessage, buf2: IpcMessage)
    requires Wf(s) && SlotAgrees(s) && WellFormedMessage(buf) && WellFormedMessage(buf2)
    requires ReceiveStep(s, id, Some(buf)).1 == 0
    ensures var r := ReceiveStep(s, id, Some(buf)).0;
      ReceiveStep(r, id, Some(buf2)) == (r, -1, Some(buf2))
  {
    ReceiveOutcome(s, id, Some(buf));
    var r := ReceiveStep(s, id, Some(buf)).0;
    ReceiveKeepsWf(s, id, Some(buf));
    ReceiveOutcome(r, id, Some(buf2));
  }

  /**
   * can_send, has_messages and get_queue_size: a known id has exactly one of
   * room and a pending message, the queue size is that message, and an
   * unknown id has neither.
   */
  lemma FlowControl(s: SHM, id: int)
    ensures QueueSizeOf(s, id) <= 1 && (QueueSizeOf(s, id) == 1 <==> HasPending(s, id))
    ensures !(SendWouldFit(s, id) && HasPending(s, id))
    ensures (SendWouldFit(s, id) || HasPending(s, id))
            <==> exists i :: 0 <= i < |s.regions| && HasId(s.regions[i], ToU32(id))
  {
    match FindRegion(s.regions, ToU32(id))
    case None =>
    case Some(i) =>
  }

  // ---------------------------------------------------------------------------
  // Create and destroy
  // ---------------------------------------------------------------------------

  /** Some region in use already lists both ids. */
  predicate Shared(s: SHM, a: U32, b: U32)
  {
    exists i :: 0 <= i < |s.regions| && Shares(s.regions[i], a, b)
  }

  /** create opens a new region: none lists both ids, a slot is free, and the pool has a block left. */
  predicate Opens(s: SHM, a: U32, b: U32)
  {
    !Shared(s, a, b) && (exists i :: 0 <= i < |s.regions| && !s.regions[i].inUse)
    && s.poolOffset + SHARED_REGION_SIZE <= SHARED_POOL_SIZE
  }

  lemma {:induction false} FindPairSymmetric(rs: seq<Region>, a: U32, b: U32, i: nat)
    requires i <= |rs|
    decreases |rs| - i
    ensures FindByPair(rs, a, b, i) == FindByPair(rs, b, a, i)
  {
    if i < |rs| {
      FindPairSymmetric(rs, a, b, i + 1);
    }
  }

  /** A pair that already shares a region gets that region's id back, in either order, and nothing changes. */
  lemma CreateExisting(s: SHM, a: U32, b: U32)
    requires Wf(s) && Shared(s, a, b)
    ensures var (r, rc) := CreateStep(s, a, b);
      r == s && CreateStep(s, b, a) == (s, rc) && 0 <= rc < U32_BOUND
      && exists i :: 0 <= i < |s.regions| && Shares(s.regions[i], a, b) && HasId(s.regions[i], rc)
  {
    FindPairSymmetric(s.regions, a, b, 0);
  }

  /**
   * A new pair gets the next id on a fresh region in the lowest free slot,
   * listing the two ids with read and write, on the next block of the pool;
   * no other region changes.
   */
  lemma CreateOpens(s: SHM, a: U32, b: U32)
    requires Wf(s) && Opens(s, a, b)
    ensures var (r, rc) := CreateStep(s, a, b);
      rc == s.nextRegionId && r.nextRegionId == s.nextRegionId + 1
      && r.poolOffset == s.poolOffset + SHARED_REGION_SIZE && r.activeRegions == s.activeRegions + 1
      && exists i :: 0 <= i < |s.regions| && !s.regions[i].inUse
           && HasId(r.regions[i], s.nextRegionId) && Members(r.regions[i]) == [a, b]
           && r.regions[i].creatorId == a && r.regions[i].permissions == PERM_READ_WRITE
           && !r.regions[i].hasData && r.regions[i].memory == Some(s.poolOffset)
           && forall k :: 0 <= k < |s.regions| && k != i ==> r.regions[k] == s.regions[k]
  {
    var i := FindFree(s.regions).value;
    var r := CreateStep(s, a, b).0;
    assert r.regions[i].participants[..2] == [a, b];
  }

  /** Otherwise create returns -1 and changes nothing (a free slot's pointer is already null). */
  lemma CreateFails(s: SHM, a: U32, b: U32)
    requires Wf(s) && !Shared(s, a, b) && !Opens(s, a, b)
    ensures CreateStep(s, a, b) == (s, -1)
  {
    match FindFree(s.regions)
    case None =>
    case Some(i) =>
      assert s.regions[i].(memory := None) == s.regions[i];
      assert s.regions[i := s.regions[i]] == s.regions;
  }

  /**
   * create fails exactly when the pair shares no region and no new one can
   * be opened; ids stay far below 0x8000_0000, so -1 is never a region id.
   * Only an opened region takes a block of the pool.
   */
  lemma CreateOutcome(s: SHM, a: U32, b: U32)
    requires Wf(s)
    ensures var (r, rc) := CreateStep(s, a, b);
      (rc == -1 <==> !Shared(s, a, b) && !Opens(s, a, b)) && (rc == -1 ==> r == s)
      && r.poolOffset == if Opens(s, a, b) then s.poolOffset + SHARED_REGION_SIZE else s.poolOffset
  {
    if Shared(s, a, b) {
      CreateExisting(s, a, b);
    } else if Opens(s, a, b) {
      CreateOpens(s, a, b);
    } else {
      CreateFails(s, a, b);
    }
  }

  /** Asking again, in either order, returns the same id and changes nothing. */
  lemma CreateIdempotent(s: SHM, a: U32, b: U32)
    requires Wf(s) && CreateStep(s, a, b).1 != -1
    ensures var (r, rc) := CreateStep(s, a, b);
      CreateStep(r, a, b) == (r, rc) && CreateStep(r, b, a) == (r, rc)
  {
    CreateOutcome(s, a, b);
    CreateKeepsWf(s, a, b);
    var (r, rc) := CreateStep(s, a, b);
    FindPairSymmetric(r.regions, a, b, 0);
    if !Shared(s, a, b) {
      CreateOpens(s, a, b);
      var i := FindFree(s.regions).value;
      assert Shares(r.regions[i], a, b);
      var f := FindByPair(r.regions, a, b);
      assert f == Some(i) by {
        assert f.Some?;
        assert Shares(r.regions[f.value], a, b);
      }
    }
  }

  /**
   * destroy releases the one region in use carrying the id, and leaves no
   * region with it; an unknown id changes nothing.  The block is not
   * returned to the pool.
   */
  lemma DestroyOutcome(s: SHM, id: int)
    requires Wf(s)
    ensures var r := DestroyStep(s, id);
      FindRegion(r.regions, ToU32(id)).None? && !SendWouldFit(r, id) && !HasPending(r, id)
      && r.poolOffset == s.poolOffset && r.nextRegionId == s.nextRegionId
      && (forall i :: 0 <= i < |s.regions| && !HasId(s.regions[i], ToU32(id)) ==> r.regions[i] == s.regions[i])
      && (FindRegion(s.regions, ToU32(id)).Some? ==> r.activeRegions == s.activeRegions - 1)
      && (FindRegion(s.regions, ToU32(id)).None? ==> r == s)
  {
    match FindRegion(s.regions, ToU32(id))
    case None =>
    case Some(i) =>
      CountPositive(s.regions, i);
      CountUpdate(s.regions, i, Released(s.regions[i]));
      var r := DestroyStep(s, id);
      forall k | 0 <= k < |s.regions| && k != i
        ensures !HasId(s.regions[k], ToU32(id))
      {
        FindUnique(s, ToU32(id), i);
      }
  }

  // ---------------------------------------------------------------------------
  // Grant
  // ---------------------------------------------------------------------------

  /**
   * grant_capability, region by region: only a region in use created by the
   * grantor changes; it gains the grantee as its last participant when it
   * has room and lacks it, and its permissions for every participant gain
   * the rights; the grantee then holds any write right granted.
   */
  lemma GrantOutcome(s: SHM, grantor: U32, grantee: U32, rights: bv32, i: nat)
    requires Wf(s) && i < |s.regions|
    ensures var o := s.regions[i];
      var g := GrantStep(s, grantor, grantee, rights).regions[i];
      (g == o || (o.inUse && o.creatorId == grantor && grantee !in Members(o)
                  && Members(g) == Members(o) + [grantee] && g.permissions == o.permissions | rights))
      && (o.inUse && o.creatorId == grantor && |Members(o)| < MAX_PROCESSES_PER_REGION ==> grantee in Members(g))
      && (g != o && Allows(rights, PERM_WRITE) ==> Permits(g, grantee, PERM_WRITE))
  {
    var o := s.regions[i];
    var g := Granted(o, grantor, grantee, rights);
    if g != o {
      assert g.participants[..o.participantCount + 1] == o.participants[..o.participantCount] + [grantee];
      PermissionIff(g, grantee, PERM_WRITE);
      if Allows(rights, PERM_WRITE) {
        WriteSurvivesWithRights(o.permissions, rights);
      }
    }
  }

  lemma WriteSurvivesWithRights(p: bv32, q: bv32)
    requires Allows(q, PERM_WRITE)
    ensures Allows(WithRights(p, q), PERM_WRITE)
  {
  }

  // ---------------------------------------------------------------------------
  // The pool over the transport's lifetime
  // ---------------------------------------------------------------------------

  /** One call into the transport. */
  datatype Op =
    | InitOp
    | ShutdownOp
    | CreateOp(sender: U32, receiver: U32)
    | DestroyOp(id: int)
    | SendOp(id: int, msg: Option<IpcMessage>)
    | ReceiveOp(id: int, buf: Option<IpcMessage>)
    | GrantOp(grantor: U32, grantee: U32, rights: bv32)

  /** The state after one call; a message buffer of the wrong capacity, which C cannot pass, does nothing. */
  function Apply(s: SHM, op: Op): SHM
    requires Shaped(s)
  {
    match op
    case InitOp => InitStep(s)
    case ShutdownOp => ShutdownStep(s)
    case CreateOp(a, b) => CreateStep(s, a, b).0
    case DestroyOp(id) => DestroyStep(s, id)
    case SendOp(id, msg) => if msg.Some? && !WellFormedMessage(msg.value) then s else SendStep(s, id, msg).0
    case ReceiveOp(id, buf) => if buf.Some? && !WellFormedMessage(buf.value) then s else ReceiveStep(s, id, buf).0
    case GrantOp(grantor, grantee, rights) => GrantStep(s, grantor, grantee, rights)
  }

  /** The state after a sequence of calls. */
  function Run(s: SHM, ops: seq<Op>): SHM
    decreases |ops|
  {
    if ops == [] || !Shaped(s) then s else Run(Apply(s, ops[0]), ops[1..])
  }

  /** How many calls of the sequence open a new region. */
  function Creations(s: SHM, ops: seq<Op>): nat
    decreases |ops|
  {
    if ops == [] || !Shaped(s) then 0
    else (if ops[0].CreateOp? && Opens(s, ops[0].sender, ops[0].receiver) then 1 else 0) + Creations(Apply(s, ops[0]), ops[1..])
  }

  lemma ApplyKeepsWf(s: SHM, op: Op)
    requires Wf(s)
    ensures Wf(Apply(s, op))
    ensures Apply(s, op).poolOffset
            == s.poolOffset + if op.CreateOp? && Opens(s, op.sender, op.receiver) then SHARED_REGION_SIZE else 0
  {
    match op
    case InitOp => InitKeepsWf(s);
    case ShutdownOp => ShutdownKeepsWf(s);
    case CreateOp(a, b) => CreateKeepsWf(s, a, b); CreateOutcome(s, a, b);
    case DestroyOp(id) => DestroyKeepsWf(s, id);
    case SendOp(id, msg) => if !(msg.Some? && !WellFormedMessage(msg.value)) { SendKeepsWf(s, id, msg); }
    case ReceiveOp(id, buf) => if !(buf.Some? && !WellFormedMessage(buf.value)) { ReceiveKeepsWf(s, id, buf); }
    case GrantOp(grantor, grantee, rights) => GrantKeepsWf(s, grantor, grantee, rights);
  }

  /** Every opened region takes its own block, and shutdown, init and destroy return none. */
  lemma {:induction false} RunTakesBlocks(s: SHM, ops: seq<Op>)
    requires Wf(s)
    decreases |ops|
    ensures Wf(Run(s, ops))
    ensures Run(s, ops).poolOffset == s.poolOffset + SHARED_REGION_SIZE * Creations(s, ops)
  {
    if ops != [] {
      ApplyKeepsWf(s, ops[0]);
      RunTakesBlocks(Apply(s, ops[0]), ops[1..]);
    }
  }

  /** From the zeroed state, no sequence of calls opens more than 64 regions in all. */
  lemma LifetimeLimit(ops: seq<Op>)
    ensures Creations(Boot(), ops) <= MAX_SHARED_REGIONS
  {
    RunTakesBlocks(Boot(), ops);
  }


  // ---------------------------------------------------------------------------
  // The transport as the kernel runs it: the region array updated in place
  // ---------------------------------------------------------------------------

  /** n bytes of `src` over the start of `dst`: the byte-copy loops of send and receive. */
  method CopyPayload(src: seq<bv8>, dst: seq<bv8>, n: nat) returns (r: seq<bv8>)
    requires n <= |src| && n <= |dst|
    ensures |r| == |dst| && r[..n] == src[..n] && r[n..] == dst[n..]
  {
    r := dst;
    for i := 0 to n
      invariant |r| == |dst|
      invariant r[..i] == src[..i] && r[i..] == dst[i..]
    {
      r := r[i := src[i]];
      assert r[..i + 1] == r[..i] + [src[i]];
      assert src[..i + 1] == src[..i] + [src[i]];
    }
  }

  /** check_region_permission; the region is passed by value, or none for a null pointer. */
  method CheckRegionPermission(region: Option<Region>, pid: U32, required: bv32) returns (b: bool)
    requires region.Some? ==> RegionShape(region.value)
    ensures b == (region.Some? && Permits(region.value, pid, required))
  {
    if region.None? || !region.value.inUse {
      return false;
    }
    var r := region.value;
    assert |Members(r)| == r.participantCount;
    for i := 0 to r.participantCount
      invariant Permits(r, pid, required) == PermissionFrom(r, pid, required, i)
    {
      assert Members(r)[i] == r.participants[i];
      if r.participants[i] == pid {
        return Allows(r.permissions, required);
      }
    }
    return false;
  }

  /** The clearing loop of create over a region's bytes, on the part the slot holds. */
  method ZeroFill(data: seq<bv8>) returns (z: seq<bv8>)
    ensures z == ZeroBytes(|data|)
  {
    z := data;
    for i := 0 to |data|
      invariant |z| == |data| && forall k :: 0 <= k < i ==> z[k] == 0
    {
      z := z[i := 0];
    }
  }

  class SharedMemory {
    const regions: array<Region>
    var nextRegionId: U32
    var activeRegions: U32
    var totalSent: U32
    var totalReceived: U32
    var initialized: bool
    /** The static pool_offset of allocate_shared_memory. */
    var poolOffset: nat

    function State(): SHM
      reads this, regions
    {
      SHM(regions[..], nextRegionId, activeRegions, totalSent, totalReceived, initialized, poolOffset)
    }

    ghost predicate Valid()
      reads this, regions
    {
      Wf(State())
    }

    /** The zero-initialized static state. */
    constructor ()
      ensures Valid() && State() == Boot()
    {
      regions := new Region[MAX_SHARED_REGIONS](_ => ZERO_REGION);
      nextRegionId := 0;
      activeRegions := 0;
      totalSent := 0;
      totalReceived := 0;
      initialized := false;
      poolOffset := 0;
      new;
      assert regions[..] == seq(MAX_SHARED_REGIONS, _ => ZERO_REGION);
      assert State() == Boot();
    }

    /** acquire_lock: with one thread the lock is found clear, and is taken. */
    method AcquireLock(i: nat)
      requires i < regions.Length && !regions[i].lock
      modifies regions
      ensures regions[..] == old(regions[..])[i := old(regions[i]).(lock := true)]
    {
      regions[i] := regions[i].(lock := true);
    }

    /** release_lock. */
    method ReleaseLock(i: nat)
      requires i < regions.Length
      modifies regions
      ensures regions[..] == old(regions[..])[i := old(regions[i]).(lock := false)]
    {
      regions[i] := regions[i].(lock := false);
    }

    /** find_free_region: a slot index, or -1. */
    method FindFreeRegion() returns (r: int)
      ensures -1 <= r && FindFree(regions[..]) == if r < 0 then None else Some(r as nat)
    {
      var i := 0;
      while i < regions.Length
        invariant 0 <= i <= regions.Length
        invariant FindFree(regions[..]) == FindFree(regions[..], i)
      {
        if !regions[i].inUse {
          return i;
        }
        i := i + 1;
      }
      return -1;
    }

    /** find_region_by_participants: each region in use is scanned for both ids. */
    method FindRegionByParticipants(sender: U32, receiver: U32) returns (r: Option<nat>)
      requires Valid()
      ensures r == FindByPair(regions[..], sender, receiver)
    {
      var i := 0;
      while i < regions.Length
        invariant 0 <= i <= regions.Length
        invariant FindByPair(regions[..], sender, receiver) == FindByPair(regions[..], sender, receiver, i)
      {
        var region := regions[i];
        if region.inUse {
          var senderFound, receiverFound := false, false;
          for j := 0 to region.participantCount
            invariant senderFound == (sender in region.participants[..j])
            invariant receiverFound == (receiver in region.participants[..j])
          {
            assert region.participants[..j + 1] == region.participants[..j] + [region.participants[j]];
            if region.participants[j] == sender {
              senderFound := true;
            }
            if region.participants[j] == receiver {
              receiverFound := true;
            }
          }
          if senderFound && receiverFound {
            return Some(i);
          }
        }
        i := i + 1;
      }
      return None;
    }

    /** The lookup loop that send, receive, destroy, can_send and has_messages each write out. */
    method FindRegionById(id: int) returns (r: Option<nat>)
      ensures r == FindRegion(regions[..], ToU32(id))
    {
      var i := 0;
      while i < regions.Length
        invariant 0 <= i <= regions.Length
        invariant FindRegion(regions[..], ToU32(id)) == FindRegion(regions[..], ToU32(id), i)
      {
        if regions[i].inUse && regions[i].regionId == ToU32(id) {
          return Some(i);
        }
        i := i + 1;
      }
      return None;
    }

    /** allocate_shared_memory: the next block of the static pool, or none. */
    method AllocateSharedMemory(size: nat) returns (p: Option<nat>)
      modifies this
      ensures (poolOffset, p) == Allocate(old(poolOffset), size)
      ensures nextRegionId == old(nextRegionId) && activeRegions == old(activeRegions)
      ensures totalSent == old(totalSent) && totalReceived == old(totalReceived) && initialized == old(initialized)
    {
      if poolOffset + size > SHARED_POOL_SIZE {
        return None;
      }
      p := Some(poolOffset);
      poolOffset := poolOffset + size;
    }

    /** One region as shm_init resets it, its participant array cleared element by element. */
    method ResetRegion(i: nat)
      requires i < regions.Length && |regions[i].participants| == MAX_PROCESSES_PER_REGION
      modifies regions
      ensures regions[..] == old(regions[..])[i := Reset(old(regions[i]))]
    {
      var region := regions[i].(regionId := 0, creatorId := 0, participantCount := 0, memory := None, size := 0,
                                permissions := 0, inUse := false, lock := false, readIndex := 0, writeIndex := 0,
                                hasData := false);
      var ps := region.participants;
      for j := 0 to MAX_PROCESSES_PER_REGION
        invariant |ps| == MAX_PROCESSES_PER_REGION && forall k :: 0 <= k < j ==> ps[k] == 0
      {
        ps := ps[j := 0];
      }
      assert ps == seq(MAX_PROCESSES_PER_REGION, _ => 0);
      regions[i] := region.(participants := ps);
    }

    /** shm_init: 0, and a second call does nothing. */
    method Init() returns (rc: int)
      requires Valid()
      modifies this, regions
      ensures rc == 0 && Valid() && State() == InitStep(old(State()))
    {
      if initialized {
        return 0;
      }
      ghost var s := State();
      InitKeepsWf(s);
      for i := 0 to regions.Length
        modifies regions
        invariant forall k :: 0 <= k < i ==> regions[k] == Reset(s.regions[k])
        invariant forall k :: i <= k < regions.Length ==> regions[k] == s.regions[k]
      {
        ResetRegion(i);
      }
      nextRegionId := 1;
      activeRegions := 0;
      totalSent := 0;
      totalReceived := 0;
      initialized := true;
      assert regions[..] == InitStep(s).regions;
      return 0;
    }

    /** shm_shutdown. */
    method Shutdown()
      requires Valid()
      modifies this, regions
      ensures Valid() && State() == ShutdownStep(old(State()))
    {
      ghost var s := State();
      ShutdownKeepsWf(s);
      for i := 0 to regions.Length
        modifies regions
        invariant forall k :: 0 <= k < i ==> regions[k] == Released(s.regions[k])
        invariant forall k :: i <= k < regions.Length ==> regions[k] == s.regions[k]
      {
        regions[i] := regions[i].(inUse := false, memory := None);
      }
      activeRegions := 0;
      initialized := false;
      assert regions[..] == ShutdownStep(s).regions;
    }

    /** shm_create_channel. */
    method CreateChannel(sender: U32, receiver: U32) returns (rc: int)
      requires Valid()
      modifies this, regions
      ensures Valid() && (State(), rc) == CreateStep(old(State()), sender, receiver)
    {
      ghost var s := State();
      CreateKeepsWf(s, sender, receiver);
      var existing := FindRegionByParticipants(sender, receiver);
      if existing.Some? {
        return AsInt(regions[existing.value].regionId);
      }
      var index := FindFreeRegion();
      if index < 0 {
        return -1;
      }
      var memory := AllocateSharedMemory(SHARED_REGION_SIZE);
      regions[index] := regions[index].(memory := memory);
      if memory.None? {
        assert regions[..] == s.regions[index := s.regions[index].(memory := None)];
        return -1;
      }
      var id := OpenRegion(index, sender, receiver);
      assert regions[..] == s.regions[index := Opened(s.regions[index], s.nextRegionId, sender, receiver, s.poolOffset)];
      return AsInt(id);
    }

    /** The rest of create once the block is in place: the region set up and cleared, and the counters. */
    method OpenRegion(index: nat, sender: U32, receiver: U32) returns (id: U32)
      requires index < regions.Length && regions[index].memory.Some?
      requires |regions[index].participants| == MAX_PROCESSES_PER_REGION && |regions[index].slot.data| == SLOT_DATA_SIZE
      modifies this, regions
      ensures regions[..] == old(regions[..])[index := Opened(old(regions[index]), old(nextRegionId), sender, receiver,
                                                             old(regions[index].memory.value))]
      ensures id == old(nextRegionId) && nextRegionId == AddU32(old(nextRegionId), 1)
      ensures activeRegions == AddU32(old(activeRegions), 1)
      ensures poolOffset == old(poolOffset) && totalSent == old(totalSent) && totalReceived == old(totalReceived)
      ensures initialized == old(initialized)
    {
      var region := regions[index];
      id := nextRegionId;
      nextRegionId := AddU32(nextRegionId, 1);
      var cleared := ZeroFill(region.slot.data);
      regions[index] := Region(id, sender, region.participants[0 := sender][1 := receiver], 2, region.memory,
                               SHARED_REGION_SIZE, PERM_READ_WRITE, true, false, 0, 0, false,
                               SharedMessage(0, 0, 0, 0, cleared, false));
      activeRegions := AddU32(activeRegions, 1);
    }

    /** shm_destroy_channel. */
    method DestroyChannel(id: int)
      requires Valid()
      modifies this, regions
      ensures Valid() && State() == DestroyStep(old(State()), id)
    {
      ghost var s := State();
      DestroyKeepsWf(s, id);
      var found := FindRegionById(id);
      if found.Some? {
        var i := found.value;
        regions[i] := regions[i].(inUse := false, memory := None);
        activeRegions := SubU32(activeRegions, 1);
      }
    }

    /** shm_send_message. */
    method SendMessage(id: int, msg: Option<IpcMessage>) returns (rc: int)
      requires Valid() && (msg.Some? ==> WellFormedMessage(msg.value))
      modifies this, regions
      ensures Valid() && (State(), rc) == SendStep(old(State()), id, msg)
    {
      if msg.None? {
        return -1;
      }
      ghost var s := State();
      SendKeepsWf(s, id, msg);
      var m := msg.value;
      var found := FindRegionById(id);
      if found.None? {
        return -1;
      }
      var i := found.value;
      var allowed := CheckRegionPermission(Some(regions[i]), m.senderId, PERM_WRITE);
      if !allowed {
        return -1;
      }
      var posted := Post(i, m);
      if !posted {
        return -1;
      }
      totalSent := AddU32(totalSent, 1);
      assert regions[..] == s.regions[i := s.regions[i].(slot := Written(s.regions[i].slot, m), hasData := true)];
      return 0;
    }

    /** The locked part of shm_send_message: a free slot takes the message, a pending one refuses it. */
    method Post(i: nat, m: IpcMessage) returns (ok: bool)
      requires i < regions.Length && !regions[i].lock && WellFormedMessage(m)
      requires |regions[i].slot.data| == SLOT_DATA_SIZE
      modifies regions
      ensures ok == !old(regions[i]).hasData
      ensures ok ==> regions[..] == old(regions[..])[i := old(regions[i]).(slot := Written(old(regions[i].slot), m),
                                                                             hasData := true)]
      ensures !ok ==> regions[..] == old(regions[..])
    {
      AcquireLock(i);
      if regions[i].hasData {
        ReleaseLock(i);
        assert regions[..] == old(regions[..]);
        return false;
      }
      Deliver(i, m);
      ReleaseLock(i);
      assert regions[i] == old(regions[i]).(slot := Written(old(regions[i].slot), m), hasData := true);
      assert regions[..] == old(regions[..])[i := regions[i]];
      return true;
    }

    /** The copy of a message into a region's slot, which becomes valid and pending. */
    method Deliver(i: nat, m: IpcMessage)
      requires i < regions.Length && WellFormedMessage(m) && |regions[i].slot.data| == SLOT_DATA_SIZE
      modifies regions
      ensures regions[..] == old(regions[..])[i := old(regions[i]).(slot := Written(old(regions[i].slot), m),
                                                                      hasData := true)]
    {
      var slot := regions[i].slot;
      var n := if m.size < SLOT_DATA_SIZE then m.size else SLOT_DATA_SIZE;
      var data := CopyPayload(m.data, slot.data, n);
      assert data == m.data[..n] + slot.data[n..];
      regions[i] := regions[i].(slot := SharedMessage(m.senderId, m.receiverId, m.messageId, n, data, true),
                                hasData := true);
    }

    /** shm_receive_message: the caller's buffer comes back as `out`. */
    method ReceiveMessage(id: int, buf: Option<IpcMessage>) returns (rc: int, out: Option<IpcMessage>)
      requires Valid() && (buf.Some? ==> WellFormedMessage(buf.value))
      modifies this, regions
      ensures Valid() && (State(), rc, out) == ReceiveStep(old(State()), id, buf)
    {
      out := buf;
      if buf.None? {
        return -1, out;
      }
      ghost var s := State();
      ReceiveKeepsWf(s, id, buf);
      var found := FindRegionById(id);
      if found.None? {
        return -1, out;
      }
      var i := found.value;
      var ok, m := Consume(i, buf.value);
      if !ok {
        return -1, out;
      }
      out := Some(m);
      totalReceived := AddU32(totalReceived, 1);
      assert regions[..] == s.regions[i := s.regions[i].(slot := s.regions[i].slot.(valid := false), hasData := false)];
      return 0, out;
    }

    /**
     * The locked part of shm_receive_message: a pending, valid slot is copied
     * into the buffer and consumed; otherwise nothing changes.
     */
    method Consume(i: nat, m: IpcMessage) returns (ok: bool, out: IpcMessage)
      requires i < regions.Length && !regions[i].lock && WellFormedMessage(m)
      requires regions[i].slot.size <= |regions[i].slot.data| && regions[i].slot.size <= IPC_MAX_MESSAGE_SIZE
      modifies regions
      ensures ok == (old(regions[i]).hasData && old(regions[i]).slot.valid)
      ensures ok ==> out == Delivered(m, old(regions[i].slot))
      ensures ok ==> regions[..] == old(regions[..])[i := old(regions[i]).(slot := old(regions[i].slot).(valid := false),
                                                                             hasData := false)]
      ensures !ok ==> regions[..] == old(regions[..])
    {
      out := m;
      AcquireLock(i);
      if !regions[i].hasData {
        ReleaseLock(i);
        assert regions[..] == old(regions[..]);
        return false, out;
      }
      var w := regions[i].slot;
      if !w.valid {
        ReleaseLock(i);
        assert regions[..] == old(regions[..]);
        return false, out;
      }
      out := Take(i, m);
      ReleaseLock(i);
      assert regions[i] == old(regions[i]).(slot := old(regions[i].slot).(valid := false), hasData := false);
      assert regions[..] == old(regions[..])[i := regions[i]];
      return true, out;
    }

    /** The copy out of a valid slot into the caller's buffer, and the slot consumed. */
    method Take(i: nat, m: IpcMessage) returns (out: IpcMessage)
      requires i < regions.Length && WellFormedMessage(m)
      requires regions[i].slot.size <= |regions[i].slot.data| && regions[i].slot.size <= IPC_MAX_MESSAGE_SIZE
      modifies regions
      ensures out == Delivered(m, old(regions[i].slot))
      ensures regions[..] == old(regions[..])[i := old(regions[i]).(slot := old(regions[i].slot).(valid := false),
                                                                      hasData := false)]
    {
      var w := regions[i].slot;
      var data := CopyPayload(w.data, m.data, w.size);
      assert data == w.data[..w.size] + m.data[w.size..];
      out := m.(senderId := w.senderId, receiverId := w.receiverId, messageId := w.messageId, size := w.size,
                data := data);
      regions[i] := regions[i].(slot := w.(valid := false), hasData := false);
    }

    /** shm_try_receive: the same call as receive. */
    method TryReceive(id: int, buf: Option<IpcMessage>) returns (rc: int, out: Option<IpcMessage>)
      requires Valid() && (buf.Some? ==> WellFormedMessage(buf.value))
      modifies this, regions
      ensures Valid() && (State(), rc, out) == ReceiveStep(old(State()), id, buf)
    {
      rc, out := ReceiveMessage(id, buf);
    }

    /** shm_can_send. */
    method CanSend(id: int) returns (b: bool)
      ensures b == SendWouldFit(State(), id)
    {
      var found := FindRegionById(id);
      if found.None? {
        return false;
      }
      return !regions[found.value].hasData;
    }

    /** shm_has_messages. */
    method HasMessages(id: int) returns (b: bool)
      ensures b == HasPending(State(), id)
    {
      var found := FindRegionById(id);
      if found.None? {
        return false;
      }
      return regions[found.value].hasData;
    }

    /** shm_get_queue_size. */
    method GetQueueSize(id: int) returns (n: nat)
      ensures n <= 1 && n == QueueSizeOf(State(), id)
    {
      var has := HasMessages(id);
      return if has then 1 else 0;
    }

    /** shm_check_permission: every pair is allowed. */
    method CheckPermission(sender: U32, receiver: U32) returns (b: bool)
      ensures b == Permitted(sender, receiver) && b
    {
      return true;
    }

    /** One region under shm_grant_capability: the participant scan stops at the grantee. */
    method GrantRegion(i: nat, grantor: U32, grantee: U32, rights: bv32)
      requires i < regions.Length && RegionShape(regions[i])
      modifies regions
      ensures regions[..] == old(regions[..])[i := Granted(old(regions[i]), grantor, grantee, rights)]
    {
      var region := regions[i];
      if region.inUse && region.creatorId == grantor && region.participantCount < MAX_PROCESSES_PER_REGION {
        var already := false;
        var j := 0;
        while j < region.participantCount && !already
          invariant 0 <= j <= region.participantCount
          invariant already ==> grantee in Members(region)
          invariant !already ==> grantee !in region.participants[..j]
        {
          assert region.participants[..j + 1] == region.participants[..j] + [region.participants[j]];
          if region.participants[j] == grantee {
            already := true;
          }
          j := j + 1;
        }
        assert Members(region) == region.participants[..region.participantCount];
        assert already == (grantee in Members(region));
        if !already {
          regions[i] := region.(participants := region.participants[region.participantCount := grantee],
                                participantCount := region.participantCount + 1,
                                permissions := WithRights(region.permissions, rights));
        }
      }
    }

    /** shm_grant_capability. */
    method GrantCapability(grantor: U32, grantee: U32, rights: bv32)
      requires Valid()
      modifies regions
      ensures Valid() && State() == GrantStep(old(State()), grantor, grantee, rights)
    {
      ghost var s := State();
      GrantKeepsWf(s, grantor, grantee, rights);
      for i := 0 to regions.Length
        invariant forall k :: 0 <= k < i ==> regions[k] == Granted(s.regions[k], grantor, grantee, rights)
        invariant forall k :: i <= k < regions.Length ==> regions[k] == s.regions[k]
      {
        GrantRegion(i, grantor, grantee, rights);
      }
      assert regions[..] == GrantStep(s, grantor, grantee, rights).regions;
    }
  }
}
