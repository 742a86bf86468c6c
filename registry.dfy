/**
 * The kernel's capability registry (kernel/interfaces/kernel_interfaces.c and
 * kernel_interfaces.h): one optional implementation per service category,
 * the `register_*` setters, `switch_component`, which picks an implementation
 * from the first one or two characters of two C strings, and the default set
 * installed at boot.
 *
 * An ops record is a table of function pointers.  The implementations that
 * exist in the kernel are named by a tag per category; the operations a
 * category's record provides are listed by an operation datatype, and each
 * implementation's behaviour is modelled by its own module.
 */
module Registry {
  import opened Wrappers

  // ---------------------------------------------------------------------------
  // Implementations and their operation sets
  // ---------------------------------------------------------------------------

  datatype PhysAllocImpl = Bitmap | Buddy
  datatype SchedulerImpl = RoundRobin | Priority
  datatype IpcImpl = MessageQueue | SharedMemory

  /**
   * An ops record of a category with no implementation in the kernel (virtual
   * memory, heap, process loader, device driver), identified by its address.
   */
  datatype ExternalOps = ExternalOps(address: nat)

  /** The `name` field of each ops record. */
  function PhysAllocName(i: PhysAllocImpl): string
  {
    match i
    case Bitmap => "bitmap"
    case Buddy => "buddy"
  }

  function SchedulerName(i: SchedulerImpl): string
  {
    match i
    case RoundRobin => "round_robin"
    case Priority => "priority"
  }

  function IpcName(i: IpcImpl): string
  {
    match i
    case MessageQueue => "message_queue"
    case SharedMemory => "shared_memory"
  }

  /** The entries of physical_allocator_ops_t. */
  datatype PhysAllocOp =
    | PhysInit | AllocPage | AllocPages | FreePage | FreePages
    | GetFreePages | GetTotalPages | PhysPrintStats | AllocAligned | IsAvailable

  /** The entries of scheduler_ops_t. */
  datatype SchedulerOp =
    | SchedInit | SchedShutdown | AddProcess | RemoveProcess | GetNext
    | Schedule | Yield | Block | Unblock | TimerTick | GetTimeSlice
    | SetPriority | GetPriority | SchedPrintStats | GetContextSwitches | GetAvgWaitTime

  /** The entries of ipc_transport_ops_t. */
  datatype IpcOp =
    | IpcInit | IpcShutdown | CreateChannel | DestroyChannel
    | SendMessage | ReceiveMessage | TryReceive
    | CanSend | HasMessages | GetQueueSize
    | CheckPermission | GrantCapability | IpcPrintStats

  /**
   * The entries a physical allocator's designated initializer names, in the
   * order it names them (bitmap_allocator_ops, buddy_allocator_ops).  An entry
   * an initializer leaves out would hold a null pointer.
   */
  function PhysAllocEntries(i: PhysAllocImpl): seq<PhysAllocOp>
  {
    match i
    case Bitmap =>
      [PhysInit, AllocPage, AllocPages, FreePage, FreePages,
       GetFreePages, GetTotalPages, PhysPrintStats, AllocAligned, IsAvailable]
    case Buddy =>
      [PhysInit, AllocPage, AllocPages, FreePage, FreePages,
       GetFreePages, GetTotalPages, PhysPrintStats, AllocAligned, IsAvailable]
  }

  /** The entries of round_robin_scheduler_ops and priority_scheduler_ops. */
  function SchedulerEntries(i: SchedulerImpl): seq<SchedulerOp>
  {
    match i
    case RoundRobin =>
      [SchedInit, SchedShutdown, AddProcess, RemoveProcess, GetNext, Schedule, Yield, Block,
       Unblock, TimerTick, GetTimeSlice, SetPriority, GetPriority, SchedPrintStats,
       GetContextSwitches, GetAvgWaitTime]
    case Priority =>
      [SchedInit, SchedShutdown, AddProcess, RemoveProcess, GetNext, Schedule, Yield, Block,
       Unblock, TimerTick, GetTimeSlice, SetPriority, GetPriority, SchedPrintStats,
       GetContextSwitches, GetAvgWaitTime]
  }

  /** The entries of message_queue_ipc_ops and shared_memory_ipc_ops. */
  function IpcEntries(i: IpcImpl): seq<IpcOp>
  {
    match i
    case MessageQueue =>
      [IpcInit, IpcShutdown, CreateChannel, DestroyChannel, SendMessage, ReceiveMessage,
       TryReceive, CanSend, HasMessages, GetQueueSize, CheckPermission, GrantCapability, IpcPrintStats]
    case SharedMemory =>
      [IpcInit, IpcShutdown, CreateChannel, DestroyChannel, SendMessage, ReceiveMessage,
       TryReceive, CanSend, HasMessages, GetQueueSize, CheckPermission, GrantCapability, IpcPrintStats]
  }

  /** An implementation supplies an operation when its initializer fills that entry. */
  predicate PhysAllocProvides(i: PhysAllocImpl, op: PhysAllocOp)
  {
    op in PhysAllocEntries(i)
  }

  predicate SchedulerProvides(i: SchedulerImpl, op: SchedulerOp)
  {
    op in SchedulerEntries(i)
  }

  predicate IpcProvides(i: IpcImpl, op: IpcOp)
  {
    op in IpcEntries(i)
  }

  /** The position of each entry in physical_allocator_ops_t, counting function pointers only. */
  function PhysAllocField(op: PhysAllocOp): nat
  {
    match op
    case PhysInit => 0 case AllocPage => 1 case AllocPages => 2 case FreePage => 3 case FreePages => 4
    case GetFreePages => 5 case GetTotalPages => 6 case PhysPrintStats => 7 case AllocAligned => 8
    case IsAvailable => 9
  }

  /** The position of each entry in scheduler_ops_t. */
  function SchedulerField(op: SchedulerOp): nat
  {
    match op
    case SchedInit => 0 case SchedShutdown => 1 case AddProcess => 2 case RemoveProcess => 3
    case GetNext => 4 case Schedule => 5 case Yield => 6 case Block => 7 case Unblock => 8
    case TimerTick => 9 case GetTimeSlice => 10 case SetPriority => 11 case GetPriority => 12
    case SchedPrintStats => 13 case GetContextSwitches => 14 case GetAvgWaitTime => 15
  }

  /** The position of each entry in ipc_transport_ops_t. */
  function IpcField(op: IpcOp): nat
  {
    match op
    case IpcInit => 0 case IpcShutdown => 1 case CreateChannel => 2 case DestroyChannel => 3
    case SendMessage => 4 case ReceiveMessage => 5 case TryReceive => 6 case CanSend => 7
    case HasMessages => 8 case GetQueueSize => 9 case CheckPermission => 10
    case GrantCapability => 11 case IpcPrintStats => 12
  }

  /** No entry is named twice in an initializer. */
  predicate NoRepeats<T(==)>(l: seq<T>)
  {
    forall a, b :: 0 <= a < b < |l| ==> l[a] != l[b]
  }

  /** Each physical allocator's initializer names all ten entries, each once. */
  lemma PhysAllocOpsComplete(i: PhysAllocImpl)
    ensures forall op :: PhysAllocProvides(i, op)
    ensures |PhysAllocEntries(i)| == 10 && NoRepeats(PhysAllocEntries(i))
  {
    var e := PhysAllocEntries(i);
    forall op
      ensures PhysAllocProvides(i, op)
    {
      assert PhysAllocField(op) < 10 && e[PhysAllocField(op)] == op;
    }
    assert forall k :: 0 <= k < |e| ==> PhysAllocField(e[k]) == k;
  }

  /** Each scheduler's initializer names all sixteen entries, each once. */
  lemma SchedulerOpsComplete(i: SchedulerImpl)
    ensures forall op :: SchedulerProvides(i, op)
    ensures |SchedulerEntries(i)| == 16 && NoRepeats(SchedulerEntries(i))
  {
    var e := SchedulerEntries(i);
    forall op
      ensures SchedulerProvides(i, op)
    {
      assert SchedulerField(op) < 16 && e[SchedulerField(op)] == op;
    }
    assert forall k :: 0 <= k < |e| ==> SchedulerField(e[k]) == k;
  }

  /** Each IPC transport's initializer names all thirteen entries, each once. */
  lemma IpcOpsComplete(i: IpcImpl)
    ensures forall op :: IpcProvides(i, op)
    ensures |IpcEntries(i)| == 13 && NoRepeats(IpcEntries(i))
  {
    var e := IpcEntries(i);
    forall op
      ensures IpcProvides(i, op)
    {
      assert IpcField(op) < 13 && e[IpcField(op)] == op;
    }
    assert forall k :: 0 <= k < |e| ==> IpcField(e[k]) == k;
  }

  /** The implementations of a category are interchangeable: they supply the same operations. */
  lemma SameOperationSets(op1: PhysAllocOp, op2: SchedulerOp, op3: IpcOp)
    ensures forall i, j :: PhysAllocProvides(i, op1) <==> PhysAllocProvides(j, op1)
    ensures forall i, j :: SchedulerProvides(i, op2) <==> SchedulerProvides(j, op2)
    ensures forall i, j :: IpcProvides(i, op3) <==> IpcProvides(j, op3)
  {
    forall i: PhysAllocImpl { PhysAllocOpsComplete(i); }
    forall i: SchedulerImpl { SchedulerOpsComplete(i); }
    forall i: IpcImpl { IpcOpsComplete(i); }
  }

  // ---------------------------------------------------------------------------
  // The message record both transports carry
  // ---------------------------------------------------------------------------

  /** IPC_MAX_MESSAGE_SIZE: the capacity of a message's data array. */
  const IPC_MAX_MESSAGE_SIZE: nat := 4096

  /**
   * ipc_message_t.  `size` is the payload length the sender claims; `data`
   * is the whole fixed-size array, of which only a prefix may be meaningful.
   */
  datatype IpcMessage = IpcMessage(
    senderId: U32,
    receiverId: U32,
    messageId: U32,
    kind: U32,
    size: U32,
    data: seq<bv8>,
    timestamp: U32,
    flags: U32)

  /** A message whose data array has the declared capacity. */
  predicate WellFormedMessage(m: IpcMessage)
  {
    |m.data| == IPC_MAX_MESSAGE_SIZE
  }

  /** An all-zero message, as a zero-initialized static record holds. */
  function ZeroMessage(): (m: IpcMessage)
    ensures WellFormedMessage(m) && m.size == 0
  {
    IpcMessage(0, 0, 0, 0, 0, seq(IPC_MAX_MESSAGE_SIZE, _ => 0 as bv8), 0, 0)
  }

  // ---------------------------------------------------------------------------
  // The registry
  // ---------------------------------------------------------------------------

  /** The contents of kernel_registry_t: at most one reference per category. */
  datatype Slots = Slots(
    physicalAllocator: Option<PhysAllocImpl>,
    virtualMemory: Option<ExternalOps>,
    heapAllocator: Option<ExternalOps>,
    scheduler: Option<SchedulerImpl>,
    processLoader: Option<ExternalOps>,
    ipcTransport: Option<IpcImpl>,
    numDrivers: nat)

  const EMPTY: Slots := Slots(None, None, None, None, None, None, 0)

  /** The category and implementation a successful switch installs. */
  datatype Component = Phys(p: PhysAllocImpl) | Sched(s: SchedulerImpl) | Ipc(c: IpcImpl)

  /** The byte at position i of a NUL-terminated C string held as its chars before the NUL. */
  function CharAt(s: string, i: nat): char
  {
    if i < |s| then s[i] else '\0'
  }

  /**
   * The decision switch_component makes: a null argument or an unmatched
   * prefix selects nothing; otherwise the first one or two chars of the type
   * and the name select the category and the implementation.
   */
  function SwitchTarget(componentType: Option<string>, componentName: Option<string>): (r: Option<Component>)
    ensures componentType.None? || componentName.None? ==> r.None?
  {
    if componentType.None? || componentName.None? then None
    else
      var t := componentType.value;
      var n := componentName.value;
      if CharAt(t, 0) == 'p' && CharAt(t, 1) == 'h' then
        (if CharAt(n, 0) == 'b' && CharAt(n, 1) == 'i' then Some(Phys(Bitmap))
         else if CharAt(n, 0) == 'b' && CharAt(n, 1) == 'u' then Some(Phys(Buddy))
         else None)
      else if CharAt(t, 0) == 's' then
        (if CharAt(n, 0) == 'r' then Some(Sched(RoundRobin))
         else if CharAt(n, 0) == 'p' then Some(Sched(Priority))
         else None)
      else if CharAt(t, 0) == 'i' then
        (if CharAt(n, 0) == 'm' then Some(Ipc(MessageQueue))
         else if CharAt(n, 0) == 's' then Some(Ipc(SharedMemory))
         else None)
      else None
  }

  /** The registry after installing a component: its own slot changes, and nothing else. */
  function Install(s: Slots, c: Component): (r: Slots)
  {
    match c
    case Phys(p) => s.(physicalAllocator := Some(p))
    case Sched(i) => s.(scheduler := Some(i))
    case Ipc(i) => s.(ipcTransport := Some(i))
  }

  /** switch_component as a function of the registry: the new registry and the return code. */
  function Switch(s: Slots, componentType: Option<string>, componentName: Option<string>): (Slots, int)
  {
    match SwitchTarget(componentType, componentName)
    case None => (s, -1)
    case Some(c) => (Install(s, c), 0)
  }

  /** Each implementation is selected by its category's name and its own name. */
  lemma {:induction false} SwitchByFullNames(p: PhysAllocImpl, sc: SchedulerImpl, ic: IpcImpl)
    ensures SwitchTarget(Some("physical_allocator"), Some(PhysAllocName(p))) == Some(Phys(p))
    ensures SwitchTarget(Some("scheduler"), Some(SchedulerName(sc))) == Some(Sched(sc))
    ensures SwitchTarget(Some("ipc_transport"), Some(IpcName(ic))) == Some(Ipc(ic))
  {
    assert CharAt("physical_allocator", 0) == 'p' && CharAt("physical_allocator", 1) == 'h';
    assert CharAt(PhysAllocName(p), 0) == 'b';
    assert CharAt("scheduler", 0) == 's';
    assert CharAt("ipc_transport", 0) == 'i';
  }

  /** Only the prefixes are read: "shared" names the scheduler category and "pq" the priority scheduler. */
  lemma SwitchReadsPrefixesOnly()
    ensures SwitchTarget(Some("shared"), Some("pq")) == Some(Sched(Priority))
    ensures SwitchTarget(Some("phone"), Some("bully")) == Some(Phys(Buddy))
    ensures SwitchTarget(Some("physical_allocator"), Some("b")) == None
    ensures SwitchTarget(Some(""), Some("bitmap")) == None
  {
    assert CharAt("shared", 0) == 's';
    assert CharAt("pq", 0) == 'p';
    assert CharAt("phone", 0) == 'p' && CharAt("phone", 1) == 'h';
    assert CharAt("bully", 0) == 'b' && CharAt("bully", 1) == 'u';
    assert CharAt("physical_allocator", 0) == 'p' && CharAt("physical_allocator", 1) == 'h';
    assert CharAt("b", 1) == '\0';
  }

  /** A switch touches only the slot of the selected category, and an unmatched one changes nothing. */
  lemma SwitchChangesOwnSlotOnly(s: Slots, t: Option<string>, n: Option<string>)
    ensures var (s', rc) := Switch(s, t, n);
      (rc == 0 || rc == -1)
      && (rc == -1 <==> SwitchTarget(t, n).None?)
      && (rc == -1 ==> s' == s)
      && s'.virtualMemory == s.virtualMemory && s'.heapAllocator == s.heapAllocator
      && s'.processLoader == s.processLoader && s'.numDrivers == s.numDrivers
      && (SwitchTarget(t, n).Some? && SwitchTarget(t, n).value.Phys? ==>
            s'.scheduler == s.scheduler && s'.ipcTransport == s.ipcTransport)
      && (SwitchTarget(t, n).Some? && SwitchTarget(t, n).value.Sched? ==>
            s'.physicalAllocator == s.physicalAllocator && s'.ipcTransport == s.ipcTransport)
      && (SwitchTarget(t, n).Some? && SwitchTarget(t, n).value.Ipc? ==>
            s'.physicalAllocator == s.physicalAllocator && s'.scheduler == s.scheduler)
  {
  }

  /** Repeating a switch is idempotent. */
  lemma SwitchIdempotent(s: Slots, t: Option<string>, n: Option<string>)
    ensures Switch(Switch(s, t, n).0, t, n) == Switch(s, t, n)
  {
  }

  // ---------------------------------------------------------------------------
  // Dispatch through the current slot
  // ---------------------------------------------------------------------------

  /**
   * Where PHYS_ALLOC()->op(...) lands: the implementation in the slot, or None
   * when the slot is empty (the C macro would dereference a null pointer).
   */
  function RoutePhysAlloc(s: Slots, op: PhysAllocOp): (r: Option<PhysAllocImpl>)
    ensures r.Some? ==> PhysAllocProvides(r.value, op)
    ensures r == s.physicalAllocator
  {
    if s.physicalAllocator.Some? then PhysAllocOpsComplete(s.physicalAllocator.value); s.physicalAllocator
    else None
  }

  function RouteScheduler(s: Slots, op: SchedulerOp): (r: Option<SchedulerImpl>)
    ensures r.Some? ==> SchedulerProvides(r.value, op)
    ensures r == s.scheduler
  {
    if s.scheduler.Some? then SchedulerOpsComplete(s.scheduler.value); s.scheduler
    else None
  }

  function RouteIpc(s: Slots, op: IpcOp): (r: Option<IpcImpl>)
    ensures r.Some? ==> IpcProvides(r.value, op)
    ensures r == s.ipcTransport
  {
    if s.ipcTransport.Some? then IpcOpsComplete(s.ipcTransport.value); s.ipcTransport
    else None
  }

  /** After a switch, the same call reaches the newly installed implementation. */
  lemma RouteFollowsSwitch(s: Slots, t: Option<string>, n: Option<string>, op1: PhysAllocOp, op2: SchedulerOp, op3: IpcOp)
    requires SwitchTarget(t, n).Some?
    ensures var s' := Switch(s, t, n).0;
      match SwitchTarget(t, n).value
      case Phys(p) => RoutePhysAlloc(s', op1) == Some(p)
      case Sched(i) => RouteScheduler(s', op2) == Some(i)
      case Ipc(i) => RouteIpc(s', op3) == Some(i)
  {
  }

  /** The global g_kernel_registry. */
  class KernelRegistry {
    var physicalAllocator: Option<PhysAllocImpl>
    var virtualMemory: Option<ExternalOps>
    var heapAllocator: Option<ExternalOps>
    var scheduler: Option<SchedulerImpl>
    var processLoader: Option<ExternalOps>
    var ipcTransport: Option<IpcImpl>
    var numDrivers: nat

    function Contents(): Slots
      reads this
    {
      Slots(physicalAllocator, virtualMemory, heapAllocator, scheduler, processLoader, ipcTransport, numDrivers)
    }

    /** The zero initializer: every slot starts empty. */
    constructor ()
      ensures Contents() == EMPTY
    {
      physicalAllocator := None;
      virtualMemory := None;
      heapAllocator := None;
      scheduler := None;
      processLoader := None;
      ipcTransport := None;
      numDrivers := 0;
    }

    method RegisterPhysicalAllocator(ops: Option<PhysAllocImpl>) returns (rc: int)
      modifies this
      ensures ops.None? ==> rc == -1 && Contents() == old(Contents())
      ensures ops.Some? ==> rc == 0 && Contents() == old(Contents()).(physicalAllocator := ops)
    {
      if ops.None? {
        return -1;
      }
      physicalAllocator := ops;
      return 0;
    }

    method RegisterVirtualMemory(ops: Option<ExternalOps>) returns (rc: int)
      modifies this
      ensures ops.None? ==> rc == -1 && Contents() == old(Contents())
      ensures ops.Some? ==> rc == 0 && Contents() == old(Contents()).(virtualMemory := ops)
    {
      if ops.None? {
        return -1;
      }
      virtualMemory := ops;
      return 0;
    }

    method RegisterHeapAllocator(ops: Option<ExternalOps>) returns (rc: int)
      modifies this
      ensures ops.None? ==> rc == -1 && Contents() == old(Contents())
      ensures ops.Some? ==> rc == 0 && Contents() == old(Contents()).(heapAllocator := ops)
    {
      if ops.None? {
        return -1;
      }
      heapAllocator := ops;
      return 0;
    }

    method RegisterScheduler(ops: Option<SchedulerImpl>) returns (rc: int)
      modifies this
      ensures ops.None? ==> rc == -1 && Contents() == old(Contents())
      ensures ops.Some? ==> rc == 0 && Contents() == old(Contents()).(scheduler := ops)
    {
      if ops.None? {
        return -1;
      }
      scheduler := ops;
      return 0;
    }

    method RegisterProcessLoader(ops: Option<ExternalOps>) returns (rc: int)
      modifies this
      ensures ops.None? ==> rc == -1 && Contents() == old(Contents())
      ensures ops.Some? ==> rc == 0 && Contents() == old(Contents()).(processLoader := ops)
    {
      if ops.None? {
        return -1;
      }
      processLoader := ops;
      return 0;
    }

    method RegisterIpcTransport(ops: Option<IpcImpl>) returns (rc: int)
      modifies this
      ensures ops.None? ==> rc == -1 && Contents() == old(Contents())
      ensures ops.Some? ==> rc == 0 && Contents() == old(Contents()).(ipcTransport := ops)
    {
      if ops.None? {
        return -1;
      }
      ipcTransport := ops;
      return 0;
    }

    /** Accepts any non-null driver but stores nothing. */
    method RegisterDeviceDriver(ops: Option<ExternalOps>) returns (rc: int)
      ensures rc == (if ops.None? then -1 else 0)
    {
      if ops.None? {
        return -1;
      }
      return 0;
    }

    method SwitchComponent(componentType: Option<string>, componentName: Option<string>) returns (rc: int)
      modifies this
      ensures (Contents(), rc) == Switch(old(Contents()), componentType, componentName)
    {
      if componentType.None? || componentName.None? {
        return -1;
      }
      var t := componentType.value;
      var n := componentName.value;
      if CharAt(t, 0) == 'p' && CharAt(t, 1) == 'h' {
        if CharAt(n, 0) == 'b' && CharAt(n, 1) == 'i' {
          rc := RegisterPhysicalAllocator(Some(Bitmap));
          return;
        } else if CharAt(n, 0) == 'b' && CharAt(n, 1) == 'u' {
          rc := RegisterPhysicalAllocator(Some(Buddy));
          return;
        }
      } else if CharAt(t, 0) == 's' {
        if CharAt(n, 0) == 'r' {
          rc := RegisterScheduler(Some(RoundRobin));
          return;
        } else if CharAt(n, 0) == 'p' {
          rc := RegisterScheduler(Some(Priority));
          return;
        }
      } else if CharAt(t, 0) == 'i' {
        if CharAt(n, 0) == 'm' {
          rc := RegisterIpcTransport(Some(MessageQueue));
          return;
        } else if CharAt(n, 0) == 's' {
          rc := RegisterIpcTransport(Some(SharedMemory));
          return;
        }
      }
      return -1;
    }

    /** init_kernel_registry: installs the default bitmap, round-robin and message-queue implementations. */
    method InitKernelRegistry()
      modifies this
      ensures Contents() == old(Contents()).(physicalAllocator := Some(Bitmap),
                                             scheduler := Some(RoundRobin),
                                             ipcTransport := Some(MessageQueue))
    {
      var _ := RegisterPhysicalAllocator(Some(Bitmap));
      var _ := RegisterScheduler(Some(RoundRobin));
      var _ := RegisterIpcTransport(Some(MessageQueue));
    }
  }
}
