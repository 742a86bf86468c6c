# A verified model of the MTOS service layer

MTOS (Modular Teaching OS) is a small x86 teaching kernel whose services are
pluggable: a capability registry holds one implementation per service
category, and the kernel reaches the current one through dispatch macros.
This project models, in Dafny, the part of the kernel and userspace that
carries logic:

- **Registry** (`registry.dfy`): the global `kernel_registry_t`, the
  `register_*` setters, `switch_component` (which selects an implementation
  from the first one or two characters of a type and a name),
  `init_kernel_registry`, the dispatch macros, and the operation sets each
  ops record provides. The class `KernelRegistry` holds the slots as fields.
- **Physical page allocators**: the bitmap allocator (`bitmap.dfy`, class
  `Bitmap` over an array of 32-bit words) and the buddy allocator
  (`buddy.dfy`, class `Buddy` over the block-metadata array and the
  per-order free lists).
- **Schedulers**: round robin (`round_robin.dfy`, class `RoundRobin` with
  the 64-node pool and the ready and blocked lists) and the 32-level
  priority scheduler with aging (`priority.dfy`, class `Priority` with an
  array of ready queues).
- **IPC transports**: message queues (`message_queue.dfy`, class
  `MessageQueue` with the channel slots, the entry pool and its used flags)
  and shared memory (`shared_memory.dfy`, class `SharedMemory` with the
  region table, the single-message slots and the bump pool).
- **MMU helpers** (`mmu.dfy`): the address-splitting macros of `mmu.h` and
  the segment-descriptor initializers, on 32-bit bit-vectors.
- **Userspace**: the runtime's `format_u32`, `format` and system-call result
  decoding (`runtime.dfy`), the shell's `parse_u32`, `calc` and command
  dispatch (`shell.dfy`), and the calculator's factorial, Fibonacci,
  primality test, prime scan and its own formatter (`calculator.dfy`).
- `wrappers.dfy` holds `Option`, `Result`, and `uint32_t` arithmetic
  (`ToU32`, `AddU32`, `SubU32`) with wrap-around written out.

Each kernel component is modelled twice, in two layers that are proved to
agree. The first layer is a value-level state (`MQ`, `SHM`, `RR`, `PS`, ...)
with one step function per C operation. The lemmas about behaviour are
stated over these step functions: FIFO delivery, the round trip through a
shared-memory slot, the free-count invariant of the bitmap, buddy
coalescing, and scheduler exclusivity. The second layer is a class whose
fields are the C module's static state. Its methods carry the C loops with
their invariants, and each method's postcondition is that the new state is
the step function applied to the old one. Userspace loops (`format_u32`,
`parse_u32`, `is_prime`, ...) are methods proved against a specification
function.

The model follows the code wherever the code departs from its comments or
from what a reader might expect:

- `format` replaces every `{}`, although its comment says it replaces only
  the first.
- `fibonacci` is iterative, although its comment says it is recursive.
- The buddy allocator's init lays down blocks that are not aligned to their
  size.
- The round-robin node pool is never reset.
- The shared-memory bump pool is never given back.
- The priority scheduler preempts in favour of a lower-priority process.
- `mq_create_channel` can return an id that equals the error code -1.

User-visible counters are `uint32_t` and wrap modulo 2^32 (`AddU32`). The
userspace crates are built in release mode, so `+` and `*` on `u32` wrap
as well.

## Model

| member | source | states |
|---|---|---|
| Registry.PhysAllocOpsComplete | kernel/memory/bitmap_allocator.c:218-231 | `bitmap_allocator_ops`, and likewise `buddy_allocator_ops` (buddy_allocator.c:350-363), names each of the ten function entries of `physical_allocator_ops_t` exactly once, so none is left null |
| Registry.SchedulerOpsComplete | kernel/scheduler/round_robin_scheduler.c:399-418 | `round_robin_scheduler_ops`, and likewise `priority_scheduler_ops` (priority_scheduler.c:405-424), names each of the sixteen function entries of `scheduler_ops_t` exactly once |
| Registry.IpcOpsComplete | kernel/ipc/message_queue_ipc.c:393-409 | `message_queue_ipc_ops`, and likewise `shared_memory_ipc_ops` (shared_memory_ipc.c:405-421), names each of the thirteen function entries of `ipc_transport_ops_t` exactly once |
| Registry.SameOperationSets | kernel/interfaces/kernel_interfaces.h:42-233 | the two initializers of a category fill the same entries, for all three categories, so either implementation can stand in the slot |
| Registry.ZeroMessage | kernel/interfaces/kernel_interfaces.h:21-30 | a zeroed message record has the full 4096-byte data array and size 0 |
| Registry.SwitchTarget | kernel/interfaces/kernel_interfaces.c:64-90 | a null type or null name selects nothing |
| Registry.SwitchByFullNames | kernel/interfaces/kernel_interfaces.c:70-88 | each implementation is selected by its category's name and its own ops-record name |
| Registry.SwitchReadsPrefixesOnly | kernel/interfaces/kernel_interfaces.c:70-90 | only the first one or two characters are read: "shared"/"pq" picks the priority scheduler, "phone"/"bully" the buddy allocator; a one-character "b" or an empty type selects nothing |
| Registry.SwitchChangesOwnSlotOnly | kernel/interfaces/kernel_interfaces.c:65-90 | switch returns 0 or -1; -1 exactly when nothing is selected, and then the registry is unchanged; on 0 only the selected category's slot changes, to the selected implementation |
| Registry.SwitchIdempotent | kernel/interfaces/kernel_interfaces.c:71-86 | repeating a switch gives the same registry and return code |
| Registry.RoutePhysAlloc | kernel/interfaces/kernel_interfaces.h:336-346 | `PHYS_ALLOC()->op` reaches the allocator in the slot, and the entry it calls is one that allocator's initializer fills |
| Registry.RouteScheduler | kernel/interfaces/kernel_interfaces.h:339 | `SCHEDULER()->op` reaches the scheduler in the slot, and the entry it calls is one that scheduler's initializer fills |
| Registry.RouteIpc | kernel/interfaces/kernel_interfaces.h:340 | `IPC_TRANSPORT()->op` reaches the transport in the slot, and the entry it calls is one that transport's initializer fills |
| Registry.RouteFollowsSwitch | kernel/interfaces/kernel_interfaces.h:336-346 | after a successful switch the same dispatch reaches the newly installed implementation |
| Registry.KernelRegistry.constructor | kernel/interfaces/kernel_interfaces.c:9 | every slot starts empty |
| Registry.KernelRegistry.RegisterPhysicalAllocator | kernel/interfaces/kernel_interfaces.c:20-24 | null gives -1 and no change; otherwise 0 and only the physical-allocator slot is set |
| Registry.KernelRegistry.RegisterVirtualMemory | kernel/interfaces/kernel_interfaces.c:26-30 | null gives -1 and no change; otherwise 0 and only the virtual-memory slot is set |
| Registry.KernelRegistry.RegisterHeapAllocator | kernel/interfaces/kernel_interfaces.c:32-36 | null gives -1 and no change; otherwise 0 and only the heap slot is set |
| Registry.KernelRegistry.RegisterScheduler | kernel/interfaces/kernel_interfaces.c:38-42 | null gives -1 and no change; otherwise 0 and only the scheduler slot is set |
| Registry.KernelRegistry.RegisterProcessLoader | kernel/interfaces/kernel_interfaces.c:44-48 | null gives -1 and no change; otherwise 0 and only the loader slot is set |
| Registry.KernelRegistry.RegisterIpcTransport | kernel/interfaces/kernel_interfaces.c:50-54 | null gives -1 and no change; otherwise 0 and only the IPC slot is set |
| Registry.KernelRegistry.RegisterDeviceDriver | kernel/interfaces/kernel_interfaces.c:56-61 | null gives -1, anything else 0, and the registry never changes |
| Registry.KernelRegistry.SwitchComponent | kernel/interfaces/kernel_interfaces.c:64-91 | the registry and return code are those of the switch decision, whose properties are the lemmas above |
| Registry.KernelRegistry.InitKernelRegistry | kernel/interfaces/kernel_interfaces.c:94-99 | installs bitmap, round-robin and message-queue and leaves the other four slots as they were |
| BitmapAllocator.WordSet | kernel/memory/bitmap_allocator.c:22-26 | or-ing a page's mask into its word makes that bit used and leaves every other bit of the word alone |
| BitmapAllocator.WordClear | kernel/memory/bitmap_allocator.c:28-32 | and-ing out a page's mask makes that bit free and leaves every other bit alone |
| BitmapAllocator.SetPageBits | kernel/memory/bitmap_allocator.c:22-26 | set_page_used marks exactly its page used in the page-status view |
| BitmapAllocator.ClearPageBits | kernel/memory/bitmap_allocator.c:28-32 | set_page_free marks exactly its page free in the page-status view |
| BitmapAllocator.NextFit | kernel/memory/bitmap_allocator.c:41-56 | the page found is free and no free page lies between the cursor and it (or, after wrapping, before it or after the cursor); none only when no page is free |
| BitmapAllocator.FirstRun | kernel/memory/bitmap_allocator.c:110-129 | the run found is free, fits the range, and no earlier candidate start holds a free run; none only when no start does |
| BitmapAllocator.MarkUsed | kernel/memory/bitmap_allocator.c:123-126 | pages [s, s+n) become used and every other page keeps its status |
| BitmapAllocator.CountUpdate | kernel/memory/bitmap_allocator.c:97-98 | changing one page's status moves the free count by exactly that change |
| BitmapAllocator.CountMarkUsed | kernel/memory/bitmap_allocator.c:123-126 | marking a free run of n pages used takes exactly n off the free count |
| BitmapAllocator.PageOf | kernel/memory/bitmap_allocator.c:204-212 | an address has a page exactly when it is at or above the start and its page index is below total_pages |
| BitmapAllocator.FreeRangeOnlyFrees | kernel/memory/bitmap_allocator.c:152-156 | free_pages never makes a free page used |
| BitmapAllocator.FreeRangeFreesRun | kernel/memory/bitmap_allocator.c:152-156 | free_pages of n consecutive in-range pages frees exactly those pages |
| BitmapAllocator.AllocFreeRoundTrip | kernel/memory/bitmap_allocator.c:87-102 | freeing the page just allocated restores the page statuses |
| BitmapAllocator.AllocPagesFreePagesRoundTrip | kernel/memory/bitmap_allocator.c:104-156 | freeing the run just allocated by alloc_pages restores the page statuses |
| BitmapAllocator.FreeCountHasFree | kernel/memory/bitmap_allocator.c:88-95 | a positive free count means some page is free, so find_free_page's not-found branch is unreachable after the count check |
| BitmapAllocator.InitScenario | kernel/memory/bitmap_allocator.c:62-78 | init(0x100000, 0x200000) manages 256 pages, whose 8 bitmap words fit in one reserved page |
| BitmapAllocator.Bitmap.constructor | kernel/memory/bitmap_allocator.c:8-16 | the zeroed static state manages no pages |
| BitmapAllocator.Bitmap.IsPageFree | kernel/memory/bitmap_allocator.c:34-38 | true exactly when the page's bit is clear |
| BitmapAllocator.Bitmap.SetPageUsed | kernel/memory/bitmap_allocator.c:22-26 | that page becomes used and no other page changes |
| BitmapAllocator.Bitmap.SetPageFree | kernel/memory/bitmap_allocator.c:28-32 | that page becomes free and no other page changes |
| BitmapAllocator.Bitmap.Init | kernel/memory/bitmap_allocator.c:59-85 | total_pages is (end-start)/4096, the reserved bitmap pages are used and all others free, free_pages counts the free pages, the cursor is 0 |
| BitmapAllocator.Bitmap.MarkReserved | kernel/memory/bitmap_allocator.c:77-82 | pages below the reserved count become used, the rest stay free, and free_pages drops by the reserved count |
| BitmapAllocator.Bitmap.FindFreePage | kernel/memory/bitmap_allocator.c:41-56 | returns the next-fit page from the cursor, or 0xFFFFFFFF when no page is free |
| BitmapAllocator.Bitmap.AllocPage | kernel/memory/bitmap_allocator.c:87-102 | with no free page: 0 and no change; otherwise the next-fit page becomes used, free_pages drops by one, the cursor moves to it and its address is returned; the count invariant holds |
| BitmapAllocator.Bitmap.RunIsFree | kernel/memory/bitmap_allocator.c:113-119 | true exactly when pages [s, s+n) are all free |
| BitmapAllocator.Bitmap.FindRun | kernel/memory/bitmap_allocator.c:110-129 | returns the first start (a multiple of the step) of a free run of n pages |
| BitmapAllocator.Bitmap.MarkRun | kernel/memory/bitmap_allocator.c:123-126 | the run becomes used and free_pages drops by its length |
| BitmapAllocator.Bitmap.UsePage | kernel/memory/bitmap_allocator.c:124-125 | one free page's bit is cleared, no other bit changes, and free_pages drops by one |
| BitmapAllocator.Bitmap.AllocPages | kernel/memory/bitmap_allocator.c:104-132 | 0 and no change for count 0, too few free pages or no run; otherwise the lowest free run becomes used and its address is returned; the cursor is untouched |
| BitmapAllocator.Bitmap.FreePage | kernel/memory/bitmap_allocator.c:134-150 | an address below the range, past it or on a free page changes nothing; otherwise its page becomes free and free_pages grows by one |
| BitmapAllocator.Bitmap.FreePages | kernel/memory/bitmap_allocator.c:152-156 | the statuses after free_page on each of count consecutive addresses, in 32-bit arithmetic |
| BitmapAllocator.Bitmap.GetFreePages | kernel/memory/bitmap_allocator.c:158-160 | the number of free pages, at most total_pages |
| BitmapAllocator.Bitmap.GetTotalPages | kernel/memory/bitmap_allocator.c:162-164 | the number of managed pages |
| BitmapAllocator.Bitmap.AllocAligned | kernel/memory/bitmap_allocator.c:176-202 | the first free run of the rounded-up page count at a multiple of the rounded-up alignment becomes used and its address returned; 0 and no change when none exists; size 0 gives the start address with nothing marked |
| BitmapAllocator.Bitmap.IsAvailable | kernel/memory/bitmap_allocator.c:204-215 | true exactly when the address lies on a page of the range whose bit is clear |
| BuddyAllocator.AlignedIsMultiple | kernel/memory/buddy_allocator.c:47-48 | a block index has its k low bits clear exactly when it is a multiple of the block size 2^k |
| BuddyAllocator.BuddyAdjacent | kernel/memory/buddy_allocator.c:48 | for a block aligned to its size, flipping bit k gives the adjacent block of the same size, itself aligned, and the lower of the two is aligned to twice the size |
| BuddyAllocator.OrderFor | kernel/memory/buddy_allocator.c:155-165 | the order is the least k up to 20 whose block of 2^k pages holds the request, and it is the failure code 0xFF exactly when the request exceeds 2^20 pages |
| BuddyAllocator.Remove | kernel/memory/buddy_allocator.c:79-93 | unlinking a listed block shortens its list by one; unlinking an unlisted block changes nothing |
| BuddyAllocator.RemoveMembers | kernel/memory/buddy_allocator.c:79-93 | unlinking keeps every other block of the list and adds none |
| BuddyAllocator.RemoveDistinct | kernel/memory/buddy_allocator.c:79-93 | in a list without repeats, unlinking removes the block itself and leaves no repeats |
| BuddyAllocator.SizePush | kernel/memory/buddy_allocator.c:66-76 | pushing a block on list k adds 2^k pages and one block to the free lists |
| BuddyAllocator.SizeTake | kernel/memory/buddy_allocator.c:79-93 | taking a block off list k removes 2^k pages and one block from the free lists |
| BuddyAllocator.FirstNonEmpty | kernel/memory/buddy_allocator.c:232-240 | the search yields the first order from the requested one up to 20 whose list is not empty, or none when every such list is empty |
| BuddyAllocator.Alloc | kernel/memory/buddy_allocator.c:222-259 | allocation fails, leaving the metadata unchanged, exactly when the count is 0, exceeds 2^20 pages, or every list from its order up is empty; a returned block is a page of the range |
| BuddyAllocator.PageOf | kernel/memory/buddy_allocator.c:265-277 | an address names a page exactly when it is at or after the start and its page index is below the page count, and the index is the offset over 4096 |
| BuddyAllocator.RemoveWellFormed | kernel/memory/buddy_allocator.c:79-93 | unlinking a listed block keeps records and free lists in agreement, leaves the block on no list and shortens its list by one |
| BuddyAllocator.AddWellFormed | kernel/memory/buddy_allocator.c:66-76 | pushing a record that is not free keeps records and free lists in agreement |
| BuddyAllocator.TakeStep | kernel/memory/buddy_allocator.c:234-240 | unlinking a free block hands it out, keeps the allocator invariant (agreement, alignment, no overlap) and removes 2^k pages from the lists |
| BuddyAllocator.SplitStep | kernel/memory/buddy_allocator.c:111-122 | one split round on a handed-out block of order c+1 pushes its upper half, a page of the range heading no block, keeps the invariant and adds 2^c pages to the lists |
| BuddyAllocator.SplitKeeps | kernel/memory/buddy_allocator.c:108-125 | split_block keeps the invariant, leaves the block at the target order, and the lists gain the 2^cur - 2^target pages it gave up |
| BuddyAllocator.MergeStep | kernel/memory/buddy_allocator.c:131-149 | one merge round with a free buddy of equal order unlinks the buddy, makes the lower of the two the head at order k+1, keeps the invariant and removes 2^k pages from the lists |
| BuddyAllocator.MergeKeeps | kernel/memory/buddy_allocator.c:128-152 | merge_block keeps the invariant with the merged block handed out in place of the freed one, and the lists lose exactly the pages that joined it |
| BuddyAllocator.FreeEnd | kernel/memory/buddy_allocator.c:285-286 | pushing a handed-out block back on the list of its order frees it, keeps the invariant and adds 2^order pages |
| BuddyAllocator.FreeKeeps | kernel/memory/buddy_allocator.c:265-287 | freeing a handed-out block keeps the invariant and gives the free lists exactly the block's 2^order pages |
| BuddyAllocator.AllocKeeps | kernel/memory/buddy_allocator.c:222-259 | a successful allocation hands out a block that was not handed out, of the order get_order_for_pages gives, keeps the invariant, and the lists lose exactly 2^order pages |
| BuddyAllocator.AllocPlaced | kernel/memory/buddy_allocator.c:222-259 | the handed-out block lies after the metadata, inside the range, and is naturally aligned to its order |
| BuddyAllocator.AllocTakes | kernel/memory/buddy_allocator.c:232-252 | allocation takes the head of the first non-empty list at or above the order of the count and carves it down to that order |
| BuddyAllocator.SplitPending | kernel/memory/buddy_allocator.c:108-125 | splitting from order cur to target pushes exactly the upper halves b + 2^c for each c in between, each on its own list, and touches no record outside the block |
| BuddyAllocator.MergePending | kernel/memory/buddy_allocator.c:128-152 | merging a block split down from order cur, whose buddy at cur does not join, takes back every pushed half and restores the lists and the block at order cur |
| BuddyAllocator.CarveMerge | kernel/memory/buddy_allocator.c:108-152 | merge_block undoes the split that carved a block: the block comes back at its original order with the lists as before |
| BuddyAllocator.AllocFreeRoundTrip | kernel/memory/buddy_allocator.c:222-287 | under the invariant, freeing the block just allocated restores the free lists and its record, when its buddy at the original order is not free |
| BuddyAllocator.LargestFitIsLargest | kernel/memory/buddy_allocator.c:199-206 | each init block is the largest power of two, up to 2^20 pages, that fits in the pages remaining |
| BuddyAllocator.TilesExact | kernel/memory/buddy_allocator.c:197-213 | the init blocks lie back to back from the first page after the metadata, each the largest that fits, and together cover the rest of the range exactly |
| BuddyAllocator.MetadataPages | kernel/memory/buddy_allocator.c:181-194 | the metadata, 12 bytes per page rounded up to pages, never exceeds the page count |
| BuddyAllocator.InitSize | kernel/memory/buddy_allocator.c:168-216 | after init the free lists hold exactly the pages that follow the metadata |
| BuddyAllocator.InitLaid | kernel/memory/buddy_allocator.c:168-216 | after init every record agrees with the free lists |
| BuddyAllocator.InitScenario | kernel/memory/buddy_allocator.c:168-216 | init over 1 MiB from 0x100000 gives 256 pages, one metadata page, and blocks of orders 7 down to 0 at pages 1, 129, ..., 255; the first is not aligned to its 128 pages |
| BuddyAllocator.InsideFreeBlock | kernel/memory/buddy_allocator.c:335-347 | a page inside a free block other than its head has a record that is not free |
| BuddyAllocator.FreeIffListed | kernel/memory/buddy_allocator.c:335-347 | a record is free exactly when its page heads a block on some free list |
| BuddyAllocator.AlignedCount | kernel/memory/buddy_allocator.c:321-333 | the aligned allocation asks for at least the 32-bit rounded-up page count, rounded up to a power of two within 2^20, and one page for size 0 |
| BuddyAllocator.Buddy.constructor | kernel/memory/buddy_allocator.c:33-42 | the zero-initialized state manages no pages and counts nothing |
| BuddyAllocator.Buddy.AddToFreeList | kernel/memory/buddy_allocator.c:66-76 | the record becomes free with order k and heads list k, as AddFree states |
| BuddyAllocator.Buddy.RemoveFromFreeList | kernel/memory/buddy_allocator.c:79-93 | the page leaves list k and its record is no longer free, as RemoveFree states |
| BuddyAllocator.Buddy.GetBuddy | kernel/memory/buddy_allocator.c:96-105 | the buddy exists exactly when the index with bit k flipped is a page of the range, and it differs from the block |
| BuddyAllocator.Buddy.SplitBlock | kernel/memory/buddy_allocator.c:108-125 | the new metadata is Split from the record's order to the target |
| BuddyAllocator.Buddy.MergeBlock | kernel/memory/buddy_allocator.c:128-152 | the new metadata and the returned head are Merge from the record's order |
| BuddyAllocator.Buddy.GetOrderForPages | kernel/memory/buddy_allocator.c:155-165 | the loop computes OrderFor |
| BuddyAllocator.Buddy.Init | kernel/memory/buddy_allocator.c:168-216 | returns 0 with the range's whole pages, counters zero, the metadata pages reserved and nothing handed out |
| BuddyAllocator.Buddy.LayBlocks | kernel/memory/buddy_allocator.c:197-213 | the last init loop lays the tiling of the pages after the metadata |
| BuddyAllocator.Buddy.LargestOrder | kernel/memory/buddy_allocator.c:201-206 | the inner init loop computes the largest order that fits |
| BuddyAllocator.Buddy.AllocPages | kernel/memory/buddy_allocator.c:222-259 | the metadata follows Alloc; on success the address is the block's, the counters grow by 2^order and 1 in 32-bit arithmetic; on failure 0 and nothing changes; the invariant and page conservation are kept |
| BuddyAllocator.Buddy.FindList | kernel/memory/buddy_allocator.c:232-240 | the search loop finds FirstNonEmpty |
| BuddyAllocator.Buddy.AllocPage | kernel/memory/buddy_allocator.c:218-220 | one page through alloc_pages: the metadata follows Alloc of one page; on success the address is the block's, the counters grow by 1 and 1 in 32-bit arithmetic and the page is marked handed out; on failure 0 and nothing changes; the invariant and page conservation are kept |
| BuddyAllocator.Buddy.FreePages | kernel/memory/buddy_allocator.c:265-287 | the metadata follows Free; an address outside the range or on a free record changes nothing; otherwise the counters shrink by the block in 32-bit arithmetic; the count argument is ignored; invariant and conservation kept |
| BuddyAllocator.Buddy.FreePage | kernel/memory/buddy_allocator.c:261-263 | one page through free_pages: the metadata follows Free; an address outside the range or on a free record changes nothing; otherwise the counters shrink by the block in 32-bit arithmetic and the block is no longer handed out; invariant and conservation kept |
| BuddyAllocator.Buddy.GetFreePages | kernel/memory/buddy_allocator.c:289-291 | total minus allocated in 32-bit arithmetic, which under conservation is the listed pages plus the metadata pages |
| BuddyAllocator.Buddy.GetTotalPages | kernel/memory/buddy_allocator.c:293-295 | the page count given to init |
| BuddyAllocator.Buddy.AllocAligned | kernel/memory/buddy_allocator.c:321-333 | allocates AlignedCount pages, ignoring the alignment argument: the metadata follows Alloc; on success the address is the block's, the counters grow by AlignedCount and 1 in 32-bit arithmetic and the block is marked handed out; on failure 0 and nothing changes; the block's page index is a multiple of its page count; the invariant and page conservation are kept |
| BuddyAllocator.Buddy.IsAvailable | kernel/memory/buddy_allocator.c:335-347 | true only for an address of the range, and, when records and lists agree, exactly when its page heads a listed free block |
| RoundRobinScheduler.Boot | kernel/scheduler/round_robin_scheduler.c:22-46 | the zero state before init has every node index in range and no node on two lists |
| RoundRobinScheduler.FindIn | kernel/scheduler/round_robin_scheduler.c:115-135 | the walk finds the first node wrapping the process, and none exactly when no listed node wraps it |
| RoundRobinScheduler.ProcessesRemoveAt | kernel/scheduler/round_robin_scheduler.c:96-113 | unlinking the node at position i drops exactly the process at position i, keeping the order of the rest |
| RoundRobinScheduler.AvgWait | kernel/scheduler/round_robin_scheduler.c:376-381 | the average is the total wait over the ticks rounded down, and 0 before the first tick |
| RoundRobinScheduler.FreshNodeKeepsQueue | kernel/scheduler/round_robin_scheduler.c:43-59 | handing out the next pool node leaves the queued processes as they were |
| RoundRobinScheduler.AddAppends | kernel/scheduler/round_robin_scheduler.c:167-175 | while nodes remain, add_process appends the process at the ready tail, counts it in 32-bit arithmetic and uses one node; with the pool used up nothing changes |
| RoundRobinScheduler.RequeueAppends | kernel/scheduler/round_robin_scheduler.c:199-235 | re-queueing on expiry or yield appends at the tail without counting, and does nothing once the pool is used up |
| RoundRobinScheduler.NextTakesHead | kernel/scheduler/round_robin_scheduler.c:76-94 | get_next dequeues the head and leaves the rest of the queue in order; on an empty queue nothing happens |
| RoundRobinScheduler.FifoOrder | kernel/scheduler/round_robin_scheduler.c:61-94 | two processes added to an empty queue come out in the order they went in |
| RoundRobinScheduler.ScheduleDispatch | kernel/scheduler/round_robin_scheduler.c:199-220 | schedule leaves a running process with quantum left alone; otherwise the head of the queue, with the expired process re-queued at the tail, runs |
| RoundRobinScheduler.LoneProcessKeepsZeroQuantum | kernel/scheduler/round_robin_scheduler.c:199-220 | a lone process whose quantum ends runs again with quantum 0 and no context switch counted |
| RoundRobinScheduler.ExpiredDroppedWhenPoolEmpty | kernel/scheduler/round_robin_scheduler.c:199-220 | with the pool used up an expiring process ends on no list |
| RoundRobinScheduler.YieldDispatch | kernel/scheduler/round_robin_scheduler.c:222-235 | yield puts the running process at the tail, then the head runs with a fresh quantum and a switch counted |
| RoundRobinScheduler.WaitedBumps | kernel/scheduler/round_robin_scheduler.c:297-303 | the wait-time walk adds one, in 32-bit arithmetic, to each listed node's wait and touches no other node |
| RoundRobinScheduler.TickAccounting | kernel/scheduler/round_robin_scheduler.c:289-309 | a tick advances the tick count, adds the ready-queue length to the total wait and makes every ready node wait one more tick |
| RoundRobinScheduler.TurnLasts | kernel/scheduler/round_robin_scheduler.c:289-309 | while quantum is left the running process keeps the processor and loses one unit per tick |
| RoundRobinScheduler.TurnEnds | kernel/scheduler/round_robin_scheduler.c:289-309 | on the tick using up the last unit the head takes over with a full quantum, the expired process goes to the tail and a switch is counted |
| RoundRobinScheduler.BlockMovesReadyNode | kernel/scheduler/round_robin_scheduler.c:237-258 | blocking a ready process moves its first ready node, unchanged, to the head of the blocked list |
| RoundRobinScheduler.BlockMovesBlockedNode | kernel/scheduler/round_robin_scheduler.c:244-256 | blocking a process whose node lies inside the blocked list splices it out and pushes it at the blocked head; the other blocked nodes keep their order and the ready queue is untouched |
| RoundRobinScheduler.BlockRunningIsLost | kernel/scheduler/round_robin_scheduler.c:237-258 | blocking the running process takes it off the processor onto no list, so unblocking it later finds nothing |
| RoundRobinScheduler.UnblockRequeues | kernel/scheduler/round_robin_scheduler.c:260-287 | unblock moves the first blocked node of the process to the ready tail with its wait cleared; an unblocked process is left alone |
| RoundRobinScheduler.RemoveUnlinks | kernel/scheduler/round_robin_scheduler.c:177-192 | remove unlinks the first ready node of a process that is not running, or else its node inside the blocked list, and counts one fewer; removing the running process only clears the running slot; an unlisted process changes nothing |
| RoundRobinScheduler.StepKeepsExclusive | kernel/scheduler/round_robin_scheduler.c:138-392 | every operation keeps each node on at most one list, at most once |
| RoundRobinScheduler.StepKeepsNodes | kernel/scheduler/round_robin_scheduler.c:43-59 | no operation, init and shutdown included, gives a node back or rewraps it |
| RoundRobinScheduler.AddsBoundedByPool | kernel/scheduler/round_robin_scheduler.c:43-59 | each served add uses up a node nothing returns, so the adds served in any run are bounded by the pool |
| RoundRobinScheduler.AtMostPoolSizeAdds | kernel/scheduler/round_robin_scheduler.c:43-59 | from boot at most 64 add_process calls ever get a node |
| RoundRobinScheduler.RunKeepsExclusive | kernel/scheduler/round_robin_scheduler.c:138-392 | exclusivity holds after any run of allowed operations |
| RoundRobinScheduler.Locate | kernel/scheduler/round_robin_scheduler.c:115-135 | find_process_node searches the ready queue first, then the blocked list, and finds nothing exactly when neither lists the process |
| RoundRobinScheduler.RoundRobin.constructor | kernel/scheduler/round_robin_scheduler.c:22-46 | the zero-initialized state |
| RoundRobinScheduler.RoundRobin.CreateProcessNode | kernel/scheduler/round_robin_scheduler.c:43-59 | as CreateNode: the next pool node, or none after 64 |
| RoundRobinScheduler.RoundRobin.AddToReadyQueue | kernel/scheduler/round_robin_scheduler.c:61-74 | the node is appended at the ready tail and nothing else changes |
| RoundRobinScheduler.RoundRobin.RemoveFromReadyQueue | kernel/scheduler/round_robin_scheduler.c:76-94 | the head node is unlinked and returned; an empty queue gives none |
| RoundRobinScheduler.RoundRobin.RemoveNodeFromQueue | kernel/scheduler/round_robin_scheduler.c:96-113 | the node at position i is unlinked from the ready queue |
| RoundRobinScheduler.RoundRobin.FindProcessNode | kernel/scheduler/round_robin_scheduler.c:115-135 | the search loops compute Locate |
| RoundRobinScheduler.RoundRobin.Init | kernel/scheduler/round_robin_scheduler.c:138-156 | returns 0 and follows InitStep: a second call does nothing and the pool is never reset |
| RoundRobinScheduler.RoundRobin.Shutdown | kernel/scheduler/round_robin_scheduler.c:158-165 | follows ShutdownStep: lists and running slot emptied, pool and statistics kept |
| RoundRobinScheduler.RoundRobin.AddProcess | kernel/scheduler/round_robin_scheduler.c:167-175 | follows AddStep |
| RoundRobinScheduler.RoundRobin.RemoveProcess | kernel/scheduler/round_robin_scheduler.c:177-192 | follows RemoveStep |
| RoundRobinScheduler.RoundRobin.GetNext | kernel/scheduler/round_robin_scheduler.c:194-197 | follows NextStep |
| RoundRobinScheduler.RoundRobin.Schedule | kernel/scheduler/round_robin_scheduler.c:199-220 | follows ScheduleStep |
| RoundRobinScheduler.RoundRobin.Yield | kernel/scheduler/round_robin_scheduler.c:222-235 | follows YieldStep |
| RoundRobinScheduler.RoundRobin.Block | kernel/scheduler/round_robin_scheduler.c:237-258 | follows BlockStep |
| RoundRobinScheduler.RoundRobin.BlockListed | kernel/scheduler/round_robin_scheduler.c:244-256 | for a process that is not running, follows BlockStep |
| RoundRobinScheduler.RoundRobin.MoveBlockedToFront | kernel/scheduler/round_robin_scheduler.c:248-255 | the blocked node at position j is spliced out and pushed at the blocked head |
| RoundRobinScheduler.RoundRobin.Unblock | kernel/scheduler/round_robin_scheduler.c:260-287 | follows UnblockStep |
| RoundRobinScheduler.RoundRobin.FindBlockedNode | kernel/scheduler/round_robin_scheduler.c:263-267 | the walk stops at the first blocked node of the process, or finds none |
| RoundRobinScheduler.RoundRobin.TimerTick | kernel/scheduler/round_robin_scheduler.c:289-309 | follows TickStep |
| RoundRobinScheduler.RoundRobin.WaitReady | kernel/scheduler/round_robin_scheduler.c:297-303 | the loop over the ready queue computes Waited and adds the queue length to the total wait |
| RoundRobinScheduler.RoundRobin.GetTimeSlice | kernel/scheduler/round_robin_scheduler.c:311-314 | every process gets the current quantum |
| RoundRobinScheduler.RoundRobin.GetPriority | kernel/scheduler/round_robin_scheduler.c:321-324 | always 0 |
| RoundRobinScheduler.RoundRobin.GetContextSwitches | kernel/scheduler/round_robin_scheduler.c:372-374 | the switch counter |
| RoundRobinScheduler.RoundRobin.GetAvgWaitTime | kernel/scheduler/round_robin_scheduler.c:376-381 | AvgWait of the state |
| RoundRobinScheduler.RoundRobin.SetTimeQuantum | kernel/scheduler/round_robin_scheduler.c:384-392 | follows QuantumStep: values outside 1..1000 are ignored |
| RoundRobinScheduler.RoundRobin.GetTimeQuantum | kernel/scheduler/round_robin_scheduler.c:394-396 | the current quantum |
| PriorityScheduler.EmptyQueues | kernel/scheduler/priority_scheduler.c:55-59 | init_queue leaves all 32 levels empty |
| PriorityScheduler.Boot | kernel/scheduler/priority_scheduler.c:38-47 | the zero state before init has 32 levels and every reachable process recorded |
| PriorityScheduler.Enqueue | kernel/scheduler/priority_scheduler.c:61-73 | the process goes behind the tail of its level and no other level changes |
| PriorityScheduler.IndexOf | kernel/scheduler/priority_scheduler.c:96-112 | the first position holding the process, or none when it is not on the list |
| PriorityScheduler.Unlink | kernel/scheduler/priority_scheduler.c:96-112 | unlinking a listed process removes exactly one occurrence; an unlisted one changes nothing |
| PriorityScheduler.Dequeue | kernel/scheduler/priority_scheduler.c:96-112 | remove_process_from_queue changes only the named level, by Unlink |
| PriorityScheduler.HighestBelow | kernel/scheduler/priority_scheduler.c:115-122 | the search from the top finds the highest non-empty level below the bound, or none when all are empty |
| PriorityScheduler.Highest | kernel/scheduler/priority_scheduler.c:115-122 | find_highest_priority gives the highest non-empty level of the 32, and none only when nothing is queued |
| PriorityScheduler.TimeSlice | kernel/scheduler/priority_scheduler.c:151-154 | the slice is 10 + 2 x priority, between 10 and 72 ticks |
| PriorityScheduler.Admitted | kernel/scheduler/priority_scheduler.c:192-204 | add_process resets the record: a priority above 31 becomes 15, the original priority follows it, age 0, a full slice, neither running nor blocked |
| PriorityScheduler.PriorityOf | kernel/scheduler/priority_scheduler.c:362-364 | get_priority gives -1 exactly for a null process, else the record's priority within 0..31 |
| PriorityScheduler.SliceOf | kernel/scheduler/priority_scheduler.c:337-340 | get_time_slice gives 0 for a null process |
| PriorityScheduler.AvgWait | kernel/scheduler/priority_scheduler.c:397-402 | the total wait over the ticks rounded down, 0 before the first tick |
| PriorityScheduler.Bumped | kernel/scheduler/priority_scheduler.c:130-143 | one visit of the aging walk leaves the priority alone or lifts it to the next level |
| PriorityScheduler.WalkQueued | kernel/scheduler/priority_scheduler.c:125-148 | the aging walk moves processes between levels and never adds or drops one |
| PriorityScheduler.AgeFromQueued | kernel/scheduler/priority_scheduler.c:125-148 | a whole aging pass keeps the queued processes and keeps each on the level of its priority |
| PriorityScheduler.WalkOutcome | kernel/scheduler/priority_scheduler.c:130-146 | the walk over a level visits each of its processes once, and no other record changes |
| PriorityScheduler.AgedRecords | kernel/scheduler/priority_scheduler.c:125-148 | an aging pass gives each process queued below level 31 the pass record; every other record, level 31 included, is left alone |
| PriorityScheduler.AgedFields | kernel/scheduler/priority_scheduler.c:125-148 | an aging pass changes only priorities and ages, and keeps ages below 100 |
| PriorityScheduler.AgingRaisesByOne | kernel/scheduler/priority_scheduler.c:125-148 | with ages below 100 one aging pass raises a priority by at most one, only for a queued process below 31 whose age was 99 |
| PriorityScheduler.AgedSound | kernel/scheduler/priority_scheduler.c:125-148 | an aging pass holds the same processes and keeps the exclusivity invariant, slices and ages |
| PriorityScheduler.EnqueueCounts | kernel/scheduler/priority_scheduler.c:61-73 | enqueueing counts the process once more among the queued, every other as often |
| PriorityScheduler.DequeueCounts | kernel/scheduler/priority_scheduler.c:96-112 | unlinking a queued process counts it once less, every other as often |
| PriorityScheduler.NextSound | kernel/scheduler/priority_scheduler.c:226-233 | get_next hands out a ready process that the scheduler then holds nowhere and holds every other as before |
| PriorityScheduler.ScheduleSound | kernel/scheduler/priority_scheduler.c:235-257 | schedule keeps the invariant and holds the same processes |
| PriorityScheduler.YieldSound | kernel/scheduler/priority_scheduler.c:259-264 | yield keeps the invariant and holds the same processes |
| PriorityScheduler.AddSound | kernel/scheduler/priority_scheduler.c:192-209 | adding a process the scheduler does not hold keeps the invariant and holds it once |
| PriorityScheduler.BlockSound | kernel/scheduler/priority_scheduler.c:266-282 | block keeps the invariant and holds the same processes |
| PriorityScheduler.UnblockSound | kernel/scheduler/priority_scheduler.c:284-309 | unblock of a blocked process holds it exactly once afterwards, on its original level; every other process as before |
| PriorityScheduler.RemoveSound | kernel/scheduler/priority_scheduler.c:211-224 | remove_process holds no process more often than before, and every other process as before |
| PriorityScheduler.SetPrioritySound | kernel/scheduler/priority_scheduler.c:342-360 | set_priority keeps the invariant and holds the same processes |
| PriorityScheduler.TickSound | kernel/scheduler/priority_scheduler.c:311-335 | timer_tick keeps the invariant and holds the same processes |
| PriorityScheduler.InitSound | kernel/scheduler/priority_scheduler.c:157-176 | init leaves an initialized scheduler alone and otherwise holds nothing |
| PriorityScheduler.ShutdownSound | kernel/scheduler/priority_scheduler.c:178-190 | shutdown holds nothing |
| PriorityScheduler.StepKeepsGood | kernel/scheduler/priority_scheduler.c:157-360 | every operation keeps exclusivity, placement, slices matching priorities and ages below 100 |
| PriorityScheduler.RunKeepsGood | kernel/scheduler/priority_scheduler.c:157-360 | every run of allowed operations keeps the invariant |
| PriorityScheduler.BootRunsGood | kernel/scheduler/priority_scheduler.c:157-360 | from boot, whatever runs, each process is held at most once, in the place its record names |
| PriorityScheduler.BootGood | kernel/scheduler/priority_scheduler.c:38-47 | the boot state holds nothing and meets the invariant |
| PriorityScheduler.NextTakesHighest | kernel/scheduler/priority_scheduler.c:226-233 | get_next finds nothing exactly when all 32 queues are empty; otherwise it takes the head of a level no queued process outranks |
| PriorityScheduler.ScheduleSwitches | kernel/scheduler/priority_scheduler.c:235-257 | schedule replaces the running process whenever get_next's choice differs, whatever the priorities, and counts a switch |
| PriorityScheduler.NextDropsProcess | kernel/scheduler/priority_scheduler.c:226-233 | the exported get_next takes the process off its queue without running it, so the scheduler holds it nowhere |
| PriorityScheduler.AddAppends | kernel/scheduler/priority_scheduler.c:192-209 | add_process puts the reset record at the tail of its level and counts one more process |
| PriorityScheduler.BlockKeepsRunningFlag | kernel/scheduler/priority_scheduler.c:266-282 | blocking the running process leaves its running flag set although it heads the blocked list |
| PriorityScheduler.BlockReadyMoves | kernel/scheduler/priority_scheduler.c:266-282 | blocking a ready process takes it off its level and pushes it, flagged blocked, at the head of the blocked list |
| PriorityScheduler.UnblockRestores | kernel/scheduler/priority_scheduler.c:284-309 | unblock takes a blocked process off the blocked list back to the tail of its original level, aging undone; anything else is left alone |
| PriorityScheduler.SetPriorityOutcome | kernel/scheduler/priority_scheduler.c:342-360 | a level outside 0..31 is ignored; otherwise priority, original priority and slice change and a ready process moves to the tail of the new level |
| PriorityScheduler.AccrueCounts | kernel/scheduler/priority_scheduler.c:331-334 | the wait-time loop adds the number of queued processes, modulo 2^32 |
| PriorityScheduler.TickOutcome | kernel/scheduler/priority_scheduler.c:311-335 | one more tick, a positive running slice drops by one, the processor is rescheduled when it reaches 0, aging every 100th tick, and the queued count added to the wait |
| PriorityScheduler.Priority.constructor | kernel/scheduler/priority_scheduler.c:38-47 | the zero-initialized state |
| PriorityScheduler.Priority.EnqueueProcess | kernel/scheduler/priority_scheduler.c:61-73 | the level gains the process at its tail, as Enqueue |
| PriorityScheduler.Priority.DequeueProcess | kernel/scheduler/priority_scheduler.c:75-94 | the head leaves a non-empty level and is returned; an empty level gives none |
| PriorityScheduler.Priority.RemoveProcessFromQueue | kernel/scheduler/priority_scheduler.c:96-112 | the level loses the process, as Dequeue |
| PriorityScheduler.Priority.FindHighestPriority | kernel/scheduler/priority_scheduler.c:115-122 | the loop gives -1 exactly when every level is empty, else the highest non-empty level |
| PriorityScheduler.Priority.ClearQueues | kernel/scheduler/priority_scheduler.c:162-165 | every level emptied |
| PriorityScheduler.Priority.Init | kernel/scheduler/priority_scheduler.c:157-176 | returns 0 and follows InitStep |
| PriorityScheduler.Priority.Shutdown | kernel/scheduler/priority_scheduler.c:178-190 | follows ShutdownStep |
| PriorityScheduler.Priority.AddProcess | kernel/scheduler/priority_scheduler.c:192-209 | follows AddStep |
| PriorityScheduler.Priority.RemoveProcess | kernel/scheduler/priority_scheduler.c:211-224 | follows RemoveStep |
| PriorityScheduler.Priority.GetNext | kernel/scheduler/priority_scheduler.c:226-233 | follows NextStep |
| PriorityScheduler.Priority.Schedule | kernel/scheduler/priority_scheduler.c:235-257 | follows ScheduleStep |
| PriorityScheduler.Priority.PreemptCurrent | kernel/scheduler/priority_scheduler.c:240-247 | the running process stops running and, unless blocked, rejoins its level |
| PriorityScheduler.Priority.DispatchNext | kernel/scheduler/priority_scheduler.c:249-255 | the running slot gets the next process with a fresh slice at age 0, and one more switch is counted |
| PriorityScheduler.Priority.Yield | kernel/scheduler/priority_scheduler.c:259-264 | follows YieldStep |
| PriorityScheduler.Priority.Block | kernel/scheduler/priority_scheduler.c:266-282 | follows BlockStep |
| PriorityScheduler.Priority.Unblock | kernel/scheduler/priority_scheduler.c:284-309 | follows UnblockStep |
| PriorityScheduler.Priority.UnlinkBlocked | kernel/scheduler/priority_scheduler.c:287-298 | the blocked-list walk unlinks the first node of the process, if any |
| PriorityScheduler.Priority.TimerTick | kernel/scheduler/priority_scheduler.c:311-335 | follows TickStep |
| PriorityScheduler.Priority.Charge | kernel/scheduler/priority_scheduler.c:312-318 | follows Charged |
| PriorityScheduler.Priority.AccrueWait | kernel/scheduler/priority_scheduler.c:331-334 | the loop adds Accrue of the queue counts to the total wait |
| PriorityScheduler.Priority.AgeProcesses | kernel/scheduler/priority_scheduler.c:125-148 | follows Aged |
| PriorityScheduler.Priority.WalkLevel | kernel/scheduler/priority_scheduler.c:127-146 | the walk over one level follows AgeLevel |
| PriorityScheduler.Priority.GetTimeSlice | kernel/scheduler/priority_scheduler.c:337-340 | the record's slice, 0 for a null process |
| PriorityScheduler.Priority.SetPriority | kernel/scheduler/priority_scheduler.c:342-360 | follows SetPriorityStep |
| PriorityScheduler.Priority.GetPriority | kernel/scheduler/priority_scheduler.c:362-364 | -1 exactly for a null process, else the record's priority |
| PriorityScheduler.Priority.GetContextSwitches | kernel/scheduler/priority_scheduler.c:393-395 | the switch counter |
| PriorityScheduler.Priority.GetAvgWaitTime | kernel/scheduler/priority_scheduler.c:397-402 | the total wait over the ticks rounded down, 0 before the first tick |
| Wrappers.AsInt | kernel/ipc/message_queue_ipc.c:194-223 | the int a uint32_t channel id (or, in shared_memory_ipc.c:175-217, region id) is returned as lies in the int32 range and converts back to that id |
| MessageQueueIpc.CountTrue | kernel/ipc/message_queue_ipc.c:47 | the number of used pool flags is at most the pool size |
| MessageQueueIpc.InUseCount | kernel/ipc/message_queue_ipc.c:45 | the number of slots in use is at most the number of slots |
| MessageQueueIpc.FindById | kernel/ipc/message_queue_ipc.c:79-86 | the lowest in-use slot with the id, and none only when no in-use slot has it |
| MessageQueueIpc.FindByPair | kernel/ipc/message_queue_ipc.c:88-96 | an in-use slot for the ordered (sender, receiver) pair, and none only when no in-use slot joins it |
| MessageQueueIpc.FindFree | kernel/ipc/message_queue_ipc.c:98-105 | the lowest slot not in use, and none only when every slot is in use |
| MessageQueueIpc.Probe | kernel/ipc/message_queue_ipc.c:57-67 | each probe of the allocation loop lands inside the pool |
| MessageQueueIpc.ScanFree | kernel/ipc/message_queue_ipc.c:57-67 | the allocator returns an unused entry, and none only when every entry it probes round the pool is used |
| MessageQueueIpc.Msgs | kernel/ipc/message_queue_ipc.c:15-19 | a list of entries holds exactly those entries' messages, head first |
| MessageQueueIpc.Contents | kernel/ipc/message_queue_ipc.c:22-35 | a channel holds as many messages as its list has entries |
| MessageQueueIpc.Release | kernel/ipc/message_queue_ipc.c:69-76 | freeing entries keeps the pool's size |
| MessageQueueIpc.Queued | kernel/ipc/message_queue_ipc.c:22-35 | the lists of all channels together hold as many entries as the queue sizes add up to |
| MessageQueueIpc.Boot | kernel/ipc/message_queue_ipc.c:38-49 | the zeroed static state before init satisfies the transport invariant |
| MessageQueueIpc.CountFlip | kernel/ipc/message_queue_ipc.c:57-76 | marking one entry used adds one to the used count, freeing one takes one off |
| MessageQueueIpc.SomeFlagClear | kernel/ipc/message_queue_ipc.c:57-67 | a used count below the pool size leaves some entry free |
| MessageQueueIpc.ZeroCountAllClear | kernel/ipc/message_queue_ipc.c:57-67 | a used count of zero means every entry is free |
| MessageQueueIpc.TotalsUpdate | kernel/ipc/message_queue_ipc.c:22-49 | rewriting one channel changes the queued total and the in-use count by that channel's difference |
| MessageQueueIpc.TotalBelowPool | kernel/ipc/message_queue_ipc.c:10-12 | with every queue within its 16-message cap and one below it, fewer than 16 * 32 entries are queued |
| MessageQueueIpc.CountRelease | kernel/ipc/message_queue_ipc.c:69-76 | freeing a list of distinct used entries takes exactly its length off the used count |
| MessageQueueIpc.QueuedDistinct | kernel/ipc/message_queue_ipc.c:107-137 | no entry is on two lists or twice on one, and every listed entry belongs to some channel |
| MessageQueueIpc.SentMinusReceived | kernel/ipc/message_queue_ipc.c:265-284 | the uint32_t difference of the sent and received counters moves by one per send and per receive |
| MessageQueueIpc.UnusedIsUnlisted | kernel/ipc/message_queue_ipc.c:57-76 | an entry the pool marks unused is on no channel's list |
| MessageQueueIpc.AllocNeverFails | kernel/ipc/message_queue_ipc.c:246-256 | while a channel is below its cap the pool has a free entry, so the out-of-memory branch of send is never taken |
| MessageQueueIpc.InitKeepsWf | kernel/ipc/message_queue_ipc.c:140-174 | init keeps the transport invariant |
| MessageQueueIpc.ShutdownKeepsWf | kernel/ipc/message_queue_ipc.c:176-192 | shutdown keeps the transport invariant |
| MessageQueueIpc.ShutdownFreesPool | kernel/ipc/message_queue_ipc.c:176-192 | shutdown returns every pool entry: nothing is leaked |
| MessageQueueIpc.CreateKeepsWf | kernel/ipc/message_queue_ipc.c:194-223 | create keeps the transport invariant |
| MessageQueueIpc.CloseKeepsWf | kernel/ipc/message_queue_ipc.c:229-236 | draining a live channel and marking it free keeps the invariant and frees exactly its queued entries |
| MessageQueueIpc.DestroyKeepsWf | kernel/ipc/message_queue_ipc.c:225-237 | destroy keeps the transport invariant |
| MessageQueueIpc.AppendKeepsWf | kernel/ipc/message_queue_ipc.c:107-119 | linking an unused entry at a list's tail and marking it used keeps the invariant |
| MessageQueueIpc.PopKeepsWf | kernel/ipc/message_queue_ipc.c:121-137 | unlinking a list's head and freeing it keeps the invariant |
| MessageQueueIpc.SendKeepsWf | kernel/ipc/message_queue_ipc.c:239-268 | send keeps the transport invariant |
| MessageQueueIpc.ReceiveKeepsWf | kernel/ipc/message_queue_ipc.c:270-290 | receive keeps the transport invariant |
| MessageQueueIpc.SetQueueSizeKeepsWf | kernel/ipc/message_queue_ipc.c:378-383 | changing a cap keeps the transport invariant |
| MessageQueueIpc.SetBlockingKeepsWf | kernel/ipc/message_queue_ipc.c:371-376 | changing the blocking flag keeps the transport invariant |
| MessageQueueIpc.FindByIdSame | kernel/ipc/message_queue_ipc.c:79-86 | steps that keep every slot's id and in-use flag keep the id lookup |
| MessageQueueIpc.SendSucceeds | kernel/ipc/message_queue_ipc.c:239-268 | a send with a message to a live channel below its cap succeeds, appends the message stamped with the tick at the tail, counts it sent, and changes no other channel |
| MessageQueueIpc.SendOutcome | kernel/ipc/message_queue_ipc.c:239-268 | send succeeds exactly when there is a message, the id is live and the queue is below its cap; a null message or unknown id changes nothing; a full queue counts one drop; failure is -1 |
| MessageQueueIpc.ReceiveSucceeds | kernel/ipc/message_queue_ipc.c:270-290 | a receive with a buffer from a live non-empty channel hands back the oldest message, unlinks and frees it, counts it received, and changes no other channel |
| MessageQueueIpc.ReceiveOutcome | kernel/ipc/message_queue_ipc.c:270-295 | receive succeeds exactly when there is a buffer, the id is live and a message is queued; otherwise it returns -1 and leaves the state and the buffer alone |
| MessageQueueIpc.SendStepOne | kernel/ipc/message_queue_ipc.c:239-268 | one send that fits keeps the channel at its slot and grows its queue by one |
| MessageQueueIpc.ReceiveStepOne | kernel/ipc/message_queue_ipc.c:270-290 | one receive from a non-empty channel keeps the channel at its slot and hands back its head |
| MessageQueueIpc.SendAllAppends | kernel/ipc/message_queue_ipc.c:239-268 | sends that all fit append their messages to the channel in order |
| MessageQueueIpc.ReceiveAllTakes | kernel/ipc/message_queue_ipc.c:270-290 | n receives from a channel holding at least n messages hand back its first n, oldest first |
| MessageQueueIpc.FifoDelivery | kernel/ipc/message_queue_ipc.c:239-290 | messages sent to an empty channel without overflow come back from as many receives in the order sent, with identical contents |
| MessageQueueIpc.FlowControl | kernel/ipc/message_queue_ipc.c:297-316 | can_send holds exactly when a send would succeed, has_messages exactly when a receive would, and the queue size is the number of queued messages (0 for an unknown id) |
| MessageQueueIpc.DestroyOutcome | kernel/ipc/message_queue_ipc.c:225-237 | destroying a live channel frees its queued entries, marks the slot free, counts one fewer active channel and changes no other channel; an unknown id is a no-op |
| MessageQueueIpc.CreateOpens | kernel/ipc/message_queue_ipc.c:201-222 | a create for a new pair with a slot free opens an empty channel for that ordered pair in the lowest free slot, numbered next_channel_id, which grows by one |
| MessageQueueIpc.CreateOutcome | kernel/ipc/message_queue_ipc.c:194-223 | an existing pair's channel id is returned unchanged; with every slot in use create fails with -1 and changes nothing; otherwise a channel opens |
| MessageQueueIpc.CreateIdempotent | kernel/ipc/message_queue_ipc.c:195-199 | a second create for the same ordered pair returns the same id and changes nothing |
| MessageQueueIpc.CreateKeepsFreshIds | kernel/ipc/message_queue_ipc.c:208 | until next_channel_id wraps, live ids stay distinct and the id a create returns names the requested pair's channel |
| MessageQueueIpc.DestroyedIdIsGone | kernel/ipc/message_queue_ipc.c:225-268 | after destroy the id names no live channel, so a send to it fails |
| MessageQueueIpc.CreateScenario | kernel/ipc/message_queue_ipc.c:140-223 | after init, create(5, 9) twice gives channel 1 with one active channel, and create(9, 5) gives channel 2 |
| MessageQueueIpc.MessageQueue.constructor | kernel/ipc/message_queue_ipc.c:38-49 | the zeroed static state |
| MessageQueueIpc.MessageQueue.FindChannelById | kernel/ipc/message_queue_ipc.c:79-86 | the loop returns the lowest in-use slot with the id |
| MessageQueueIpc.MessageQueue.FindChannelByParticipants | kernel/ipc/message_queue_ipc.c:88-96 | the loop returns the slot for the ordered pair |
| MessageQueueIpc.MessageQueue.FindFreeChannel | kernel/ipc/message_queue_ipc.c:98-105 | the loop returns the lowest free slot, or -1 |
| MessageQueueIpc.MessageQueue.AllocMessageEntry | kernel/ipc/message_queue_ipc.c:57-67 | the probe loop marks the first free entry round the pool used and moves the cursor past it |
| MessageQueueIpc.MessageQueue.FreeMessageEntry | kernel/ipc/message_queue_ipc.c:69-76 | a pool entry is marked unused; a null or foreign entry is ignored |
| MessageQueueIpc.MessageQueue.EnqueueMessage | kernel/ipc/message_queue_ipc.c:107-119 | the entry joins the list's tail and the size grows by one |
| MessageQueueIpc.MessageQueue.DequeueMessage | kernel/ipc/message_queue_ipc.c:121-137 | the head is unlinked and returned, or none from an empty list |
| MessageQueueIpc.MessageQueue.DrainChannel | kernel/ipc/message_queue_ipc.c:182-185 | the drain loop empties the list and frees every entry it held |
| MessageQueueIpc.MessageQueue.Init | kernel/ipc/message_queue_ipc.c:140-174 | the arrays and counters become the init state and the invariant holds |
| MessageQueueIpc.MessageQueue.CloseChannel | kernel/ipc/message_queue_ipc.c:229-235 | the slot's list is drained, its entries freed, and the slot marked free |
| MessageQueueIpc.MessageQueue.Shutdown | kernel/ipc/message_queue_ipc.c:176-192 | the new state is the shutdown state, which frees the whole pool |
| MessageQueueIpc.MessageQueue.CloseAll | kernel/ipc/message_queue_ipc.c:179-189 | every channel is closed and every pool entry its list held is returned to the free pool |
| MessageQueueIpc.MessageQueue.CreateChannel | kernel/ipc/message_queue_ipc.c:194-223 | the new state and result are create's |
| MessageQueueIpc.MessageQueue.DestroyChannel | kernel/ipc/message_queue_ipc.c:225-237 | the new state is destroy's |
| MessageQueueIpc.MessageQueue.Deliver | kernel/ipc/message_queue_ipc.c:258-265 | the message is copied into the entry with the tick, linked at the tail and counted sent |
| MessageQueueIpc.MessageQueue.SendMessage | kernel/ipc/message_queue_ipc.c:239-268 | the new state and result are send's |
| MessageQueueIpc.MessageQueue.Take | kernel/ipc/message_queue_ipc.c:277-287 | the head is unlinked, counted received and freed |
| MessageQueueIpc.MessageQueue.ReceiveMessage | kernel/ipc/message_queue_ipc.c:270-290 | the new state, result and buffer are receive's |
| MessageQueueIpc.MessageQueue.TryReceive | kernel/ipc/message_queue_ipc.c:292-295 | identical to receive |
| MessageQueueIpc.MessageQueue.CanSend | kernel/ipc/message_queue_ipc.c:297-302 | true exactly when a send would succeed |
| MessageQueueIpc.MessageQueue.HasMessages | kernel/ipc/message_queue_ipc.c:304-309 | true exactly when a receive would succeed |
| MessageQueueIpc.MessageQueue.GetQueueSize | kernel/ipc/message_queue_ipc.c:311-316 | the number of queued messages, at most 16, or 0 for an unknown id |
| MessageQueueIpc.MessageQueue.CheckPermission | kernel/ipc/message_queue_ipc.c:318-321 | every pair is permitted |
| MessageQueueIpc.MessageQueue.SetBlockingMode | kernel/ipc/message_queue_ipc.c:371-376 | the flag of a live channel is recorded; nothing else changes |
| MessageQueueIpc.MessageQueue.SetQueueSize | kernel/ipc/message_queue_ipc.c:378-383 | a cap up to 16 is recorded for a live channel; a larger one is ignored |
| MessageQueueIpc.MessageQueue.Tick | kernel/ipc/message_queue_ipc.c:385-390 | the tick counter moves on by one, wrapping at 2^32 |
| SharedMemoryIpc.ZeroBytes | kernel/ipc/shared_memory_ipc.c:210-213 | n bytes, every one zero |
| SharedMemoryIpc.Min | kernel/ipc/shared_memory_ipc.c:260 | the smaller of the two sizes |
| SharedMemoryIpc.InUseCount | kernel/ipc/shared_memory_ipc.c:47 | the number of regions in use is at most the number of regions |
| SharedMemoryIpc.Members | kernel/ipc/shared_memory_ipc.c:19-20 | the recorded participants fit in the 8-entry array |
| SharedMemoryIpc.FindRegion | kernel/ipc/shared_memory_ipc.c:235-241 | the lowest in-use region with the id, and none only when no in-use region has it |
| SharedMemoryIpc.FindByPair | kernel/ipc/shared_memory_ipc.c:81-97 | an in-use region listing both ids, and none only when no in-use region lists both |
| SharedMemoryIpc.FindFree | kernel/ipc/shared_memory_ipc.c:71-78 | the lowest region not in use, and none only when every region is in use |
| SharedMemoryIpc.Boot | kernel/ipc/shared_memory_ipc.c:44-51 | the zeroed static state satisfies the transport invariant |
| SharedMemoryIpc.Written | kernel/ipc/shared_memory_ipc.c:256-267 | the slot keeps its 1024 data bytes and records a size of at most 1024 |
| SharedMemoryIpc.AllInUse | kernel/ipc/shared_memory_ipc.c:71-78 | with every region in use the count is the number of regions |
| SharedMemoryIpc.CountPositive | kernel/ipc/shared_memory_ipc.c:225 | a region in use makes the active count positive, so destroy's decrement does not wrap |
| SharedMemoryIpc.InitKeepsWf | kernel/ipc/shared_memory_ipc.c:130-162 | init keeps the transport invariant |
| SharedMemoryIpc.ShutdownKeepsWf | kernel/ipc/shared_memory_ipc.c:164-173 | shutdown keeps the transport invariant |
| SharedMemoryIpc.SameFlagsKeepWf | kernel/ipc/shared_memory_ipc.c:16-31 | rewriting a region without touching its in-use flag, memory or id keeps the invariant |
| SharedMemoryIpc.DestroyKeepsWf | kernel/ipc/shared_memory_ipc.c:219-229 | destroy keeps the transport invariant |
| SharedMemoryIpc.SendKeepsWf | kernel/ipc/shared_memory_ipc.c:231-273 | send keeps the transport invariant |
| SharedMemoryIpc.ReceiveKeepsWf | kernel/ipc/shared_memory_ipc.c:275-322 | receive keeps the transport invariant |
| SharedMemoryIpc.GrantedKeepsShape | kernel/ipc/shared_memory_ipc.c:360-382 | a grant touches only a region's participants and permissions |
| SharedMemoryIpc.GrantKeepsWf | kernel/ipc/shared_memory_ipc.c:360-382 | grant keeps the transport invariant |
| SharedMemoryIpc.OpenKeepsWf | kernel/ipc/shared_memory_ipc.c:188-216 | a new region on the next block keeps every block owned once and every id fresh |
| SharedMemoryIpc.CreateKeepsWf | kernel/ipc/shared_memory_ipc.c:175-217 | create keeps the transport invariant |
| SharedMemoryIpc.PermissionFromIff | kernel/ipc/shared_memory_ipc.c:104-110 | the participant loop from index j succeeds exactly when the process is among the participants from j on and the permissions hold a required bit |
| SharedMemoryIpc.PermissionIff | kernel/ipc/shared_memory_ipc.c:100-111 | a process may use a region in use exactly when it is a participant and the region-wide permissions hold a required bit |
| SharedMemoryIpc.FindUnique | kernel/ipc/shared_memory_ipc.c:235-241 | ids are unique among regions in use, so the lookup finds the one region carrying the id |
| SharedMemoryIpc.SendOutcome | kernel/ipc/shared_memory_ipc.c:231-273 | send succeeds exactly when there is a message, the id is live, its sender is a participant with the write bit and the slot is empty; any failure returns -1 and changes nothing |
| SharedMemoryIpc.SlotOnly | kernel/ipc/shared_memory_ipc.c:255-267 | changing only a region's slot keeps the id lookup |
| SharedMemoryIpc.ReceiveOutcome | kernel/ipc/shared_memory_ipc.c:275-327 | receive succeeds exactly when there is a buffer and the region with the id holds a valid message, with no permission check; a failure returns -1 and leaves state and buffer alone; success empties the slot |
| SharedMemoryIpc.RoundTrip | kernel/ipc/shared_memory_ipc.c:231-322 | a message sent into an empty region comes back: its ids, its size cut to 1024 and those bytes; the rest of the caller's buffer is untouched |
| SharedMemoryIpc.SlotHoldsOne | kernel/ipc/shared_memory_ipc.c:249-253 | the region holds one message: a second send fails until it is received |
| SharedMemoryIpc.ReceiveConsumes | kernel/ipc/shared_memory_ipc.c:314-316 | a received message is consumed: a second receive fails |
| SharedMemoryIpc.FlowControl | kernel/ipc/shared_memory_ipc.c:329-352 | a live id has exactly one of room and a pending message, the queue size is 1 exactly when a message is pending, and an unknown id has neither |
| SharedMemoryIpc.FindPairSymmetric | kernel/ipc/shared_memory_ipc.c:81-97 | the participant lookup does not depend on the order of the two ids |
| SharedMemoryIpc.CreateExisting | kernel/ipc/shared_memory_ipc.c:177-180 | a pair that already shares a region gets its id back, in either order, and nothing changes |
| SharedMemoryIpc.CreateOpens | kernel/ipc/shared_memory_ipc.c:182-216 | a new pair gets the next id on a fresh region in the lowest free slot, listing both ids with read and write, on the next block of the pool; no other region changes |
| SharedMemoryIpc.CreateFails | kernel/ipc/shared_memory_ipc.c:183-194 | with no free slot or no block left, create returns -1 and changes nothing |
| SharedMemoryIpc.CreateOutcome | kernel/ipc/shared_memory_ipc.c:175-217 | create fails exactly when the pair shares no region and none can be opened; -1 is never a region id; only an opened region takes a block |
| SharedMemoryIpc.CreateIdempotent | kernel/ipc/shared_memory_ipc.c:175-180 | asking again, in either order, returns the same id and changes nothing |
| SharedMemoryIpc.DestroyOutcome | kernel/ipc/shared_memory_ipc.c:219-229 | destroy releases the region carrying the id, leaves no region with it, changes no other region, and returns no block to the pool |
| SharedMemoryIpc.GrantOutcome | kernel/ipc/shared_memory_ipc.c:360-382 | only an in-use region created by the grantor, with room, not yet listing the grantee changes: the grantee is appended and the rights are or-ed into the permissions |
| SharedMemoryIpc.WriteSurvivesWithRights | kernel/ipc/shared_memory_ipc.c:376-379 | or-ing rights into the permissions of a new region never takes away its write bit |
| SharedMemoryIpc.ApplyKeepsWf | kernel/ipc/shared_memory_ipc.c:114-382 | every call keeps the invariant, and the pool offset grows by one region exactly when create opens one |
| SharedMemoryIpc.RunTakesBlocks | kernel/ipc/shared_memory_ipc.c:114-127 | over any sequence of calls the pool offset grows by one region per opened region; shutdown, init and destroy return none |
| SharedMemoryIpc.LifetimeLimit | kernel/ipc/shared_memory_ipc.c:117-122 | from the zeroed state no sequence of calls opens more than 64 regions over the whole lifetime |
| SharedMemoryIpc.CopyPayload | kernel/ipc/shared_memory_ipc.c:262-264 | the copy loop puts the first n source bytes over the destination and leaves the rest |
| SharedMemoryIpc.CheckRegionPermission | kernel/ipc/shared_memory_ipc.c:100-111 | the loop returns whether the region is present and permits the process |
| SharedMemoryIpc.ZeroFill | kernel/ipc/shared_memory_ipc.c:210-213 | the clearing loop leaves every byte zero |
| SharedMemoryIpc.SharedMemory.constructor | kernel/ipc/shared_memory_ipc.c:44-51 | the zeroed static state |
| SharedMemoryIpc.SharedMemory.AcquireLock | kernel/ipc/shared_memory_ipc.c:59-64 | the region's lock is taken and nothing else changes |
| SharedMemoryIpc.SharedMemory.ReleaseLock | kernel/ipc/shared_memory_ipc.c:66-68 | the region's lock is released and nothing else changes |
| SharedMemoryIpc.SharedMemory.FindFreeRegion | kernel/ipc/shared_memory_ipc.c:71-78 | the loop returns the lowest free region, or -1 |
| SharedMemoryIpc.SharedMemory.FindRegionByParticipants | kernel/ipc/shared_memory_ipc.c:81-97 | the nested loops return the region listing both ids |
| SharedMemoryIpc.SharedMemory.FindRegionById | kernel/ipc/shared_memory_ipc.c:235-241 | the loop returns the lowest in-use region with the id |
| SharedMemoryIpc.SharedMemory.AllocateSharedMemory | kernel/ipc/shared_memory_ipc.c:114-127 | the next block of the bump pool, or none once it would overflow; nothing else changes |
| SharedMemoryIpc.SharedMemory.ResetRegion | kernel/ipc/shared_memory_ipc.c:137-152 | one region reset as init does, participants cleared one by one |
| SharedMemoryIpc.SharedMemory.Init | kernel/ipc/shared_memory_ipc.c:130-162 | the new state is init's |
| SharedMemoryIpc.SharedMemory.Shutdown | kernel/ipc/shared_memory_ipc.c:164-173 | the new state is shutdown's |
| SharedMemoryIpc.SharedMemory.CreateChannel | kernel/ipc/shared_memory_ipc.c:175-217 | the new state and result are create's |
| SharedMemoryIpc.SharedMemory.OpenRegion | kernel/ipc/shared_memory_ipc.c:196-216 | the region is set up for the pair with the next id, and the id and active counters move on |
| SharedMemoryIpc.SharedMemory.DestroyChannel | kernel/ipc/shared_memory_ipc.c:219-229 | the new state is destroy's |
| SharedMemoryIpc.SharedMemory.SendMessage | kernel/ipc/shared_memory_ipc.c:231-273 | the new state and result are send's |
| SharedMemoryIpc.SharedMemory.Post | kernel/ipc/shared_memory_ipc.c:247-270 | under the lock, a slot with no pending message takes the message; a pending one refuses and nothing changes |
| SharedMemoryIpc.SharedMemory.Deliver | kernel/ipc/shared_memory_ipc.c:255-267 | the message is written into the slot, which becomes pending |
| SharedMemoryIpc.SharedMemory.ReceiveMessage | kernel/ipc/shared_memory_ipc.c:275-322 | the new state, result and buffer are receive's |
| SharedMemoryIpc.SharedMemory.Consume | kernel/ipc/shared_memory_ipc.c:292-318 | under the lock, a pending and valid slot is copied into the buffer and consumed; otherwise nothing changes |
| SharedMemoryIpc.SharedMemory.Take | kernel/ipc/shared_memory_ipc.c:305-316 | the slot is copied into the buffer and marked consumed |
| SharedMemoryIpc.SharedMemory.TryReceive | kernel/ipc/shared_memory_ipc.c:324-327 | identical to receive |
| SharedMemoryIpc.SharedMemory.CanSend | kernel/ipc/shared_memory_ipc.c:329-337 | true exactly for a live id with no pending message |
| SharedMemoryIpc.SharedMemory.HasMessages | kernel/ipc/shared_memory_ipc.c:339-347 | true exactly for a live id with a pending message |
| SharedMemoryIpc.SharedMemory.GetQueueSize | kernel/ipc/shared_memory_ipc.c:349-352 | 1 when a message is pending, else 0 |
| SharedMemoryIpc.SharedMemory.CheckPermission | kernel/ipc/shared_memory_ipc.c:354-358 | every pair is permitted |
| SharedMemoryIpc.SharedMemory.GrantRegion | kernel/ipc/shared_memory_ipc.c:363-380 | one region as grant treats it |
| SharedMemoryIpc.SharedMemory.GrantCapability | kernel/ipc/shared_memory_ipc.c:360-382 | the new state is grant's |
| Mmu.PageNumber | include/mmu.h:6 | the page number is the directory index times 1024 plus the table index |
| Mmu.PageDirectoryIndex | include/mmu.h:8 | the directory index is below 1024 |
| Mmu.PageTableIndex | include/mmu.h:10 | the table index is below 1024 |
| Mmu.PageOffset | include/mmu.h:12 | the offset is below 4096 |
| Mmu.PageAddress | include/mmu.h:14 | the address built from a directory index, a table index and an offset splits back into exactly those three |
| Mmu.SplitRecombine | include/mmu.h:6-25 | every linear address is rebuilt from its three fields, by OR and as a weighted sum |
| Mmu.PageDirectoryEntryAddress | include/mmu.h:40 | the address part of an entry is 4096-aligned, at most the entry, and within 4096 below it |
| Mmu.AsmSegment | include/mmu.h:111-113 | the assembler descriptor is 8 bytes, its access byte is 0x90 with the type, its flags nibble is 0xC, and the base and the 20-bit limit read back from their scattered bytes |
| Mmu.Segment | include/mmu.h:116-152 | every field fits its bit-field, the flags are present, code/data, 32-bit and page-granular, the type and privilege level are kept to 4 and 2 bits, and the base reads back |
| Mmu.Segment16 | include/mmu.h:154-169 | as SEGMENT but byte-granular, with the raw low limit bits |
| Mmu.Pack | include/mmu.h:116-132 | the bit-field layout occupies 8 bytes |
| Mmu.SegmentMatchesAsm | include/mmu.h:111-152 | the C initializer with privilege level 0 lays out the same 8 bytes as the assembler macro |
| Runtime.Utf8Len | userspace/runtime/src/lib.rs:233-285 | one char takes 1 to 4 bytes of a heapless string, and 1 exactly when it is ASCII |
| Runtime.Utf8Size | userspace/runtime/src/lib.rs:233-285 | a string takes between one and four bytes per char |
| Runtime.AsciiSize | userspace/runtime/src/lib.rs:233-285 | ASCII text takes one byte per char |
| Runtime.PushAllAppend | userspace/runtime/src/lib.rs:262-282 | pushing two texts in turn is pushing their concatenation |
| Runtime.PushAllBounded | userspace/runtime/src/lib.rs:256-285 | a heapless string never grows past its capacity, and only ever grows by appending |
| Runtime.PushAllFits | userspace/runtime/src/lib.rs:256-285 | when everything fits, no char is lost |
| Runtime.SizeSplit | userspace/runtime/src/lib.rs:233-285 | the byte size of a concatenation is the sum of the sizes |
| Runtime.PushAllAsciiTruncates | userspace/runtime/src/lib.rs:256-285 | with ASCII text a full buffer silently truncates: the output is the input's prefix that fits |
| Runtime.DigitChar | userspace/runtime/src/lib.rs:244 | a digit value becomes an ASCII digit |
| Runtime.DigitValue | userspace/runtime/src/lib.rs:244 | an ASCII digit's value is below 10 and prints back as that digit |
| Runtime.Decimal | userspace/runtime/src/lib.rs:233-253 | the decimal form is non-empty, all ASCII digits, and starts with 0 only for zero |
| Runtime.DecimalValue | userspace/runtime/src/lib.rs:233-253 | reading the decimal form back gives the number |
| Runtime.U32HasTenDigits | userspace/runtime/src/lib.rs:241-246 | a u32 has at most ten digits, so the 32-entry digit vector never overflows |
| Runtime.ReverseIndex | userspace/runtime/src/lib.rs:248-250 | the reversed digit vector holds the digits in the opposite order |
| Runtime.FormatU32 | userspace/runtime/src/lib.rs:233-253 | the loops produce exactly the decimal form of the value, at most ten ASCII chars |
| Runtime.ExpandPlain | userspace/runtime/src/lib.rs:262-282 | text without an opening brace is copied unchanged |
| Runtime.ExpandAppend | userspace/runtime/src/lib.rs:262-282 | a brace-free prefix is copied and the rest expanded independently |
| Runtime.ExpandReplacesEveryPlaceholder | userspace/runtime/src/lib.rs:260-270 | every {} is replaced, not only the first the comment speaks of |
| Runtime.BraceSkipsNextChar | userspace/runtime/src/lib.rs:263-278 | the char after a non-placeholder brace is not re-examined, and a trailing brace is copied |
| Runtime.Format | userspace/runtime/src/lib.rs:256-285 | the result is the expanded template pushed char by char into 64 bytes, never more |
| Runtime.Substitute | userspace/runtime/src/lib.rs:257-284 | the template walk pushes the expansion of the template, with the given digits for each placeholder, into 64 bytes |
| Runtime.NextPiece | userspace/runtime/src/lib.rs:262-281 | one step of the walk consumes one or two template chars and emits what their expansion begins with |
| Runtime.PushStr | userspace/runtime/src/lib.rs:268-270 | pushing each char of the text into the buffer, dropping what does not fit |
| Runtime.FormatAsciiTruncates | userspace/runtime/src/lib.rs:256-285 | for ASCII the result is the expansion cut to its first 64 chars |
| Runtime.DecodeStatus | userspace/runtime/src/lib.rs:84-94 | success exactly for a non-negative result; a failure carries the raw result |
| Runtime.DecodeMalloc | userspace/runtime/src/lib.rs:132-142 | success exactly for a positive result, which is the address; zero or negative is an error carrying the result |
| Runtime.DecodeReceive | userspace/runtime/src/lib.rs:171-183 | success exactly for a non-negative result, split into sender (upper bits) and a length below 65536 that recombine into the result |
| Runtime.ReceiveRoundTrip | userspace/runtime/src/lib.rs:171-183 | a result packed as sender << 16 with a length decodes back into those two fields |
| Runtime.DecodePid | userspace/runtime/src/lib.rs:112-116 | the raw result reinterpreted as u32: unchanged when non-negative, plus 2^32 when negative |
| Shell.DigitsValuePrefix | userspace/shell/src/main.rs:171-184 | a longer digit string never denotes a smaller number |
| Shell.ParseU32 | userspace/shell/src/main.rs:171-184 | the loop returns the value of an all-digit string that fits a u32, and an error at any other char or on overflow |
| Shell.ParseDecimalRoundTrip | userspace/shell/src/main.rs:171-184 | parsing what format_u32 prints gives the number back |
| Shell.ParseEmpty | userspace/shell/src/main.rs:171-184 | the empty string parses as zero |
| Shell.ParseRejectsNonDigit | userspace/shell/src/main.rs:174-180 | a sign, space or letter anywhere makes the string invalid |
| Shell.ParseRejectsOverflow | userspace/shell/src/main.rs:176-177 | a digit string above u32::MAX is rejected however it is spelled |
| Shell.Calc | userspace/shell/src/main.rs:94-101 | + and * wrap modulo 2^32; - succeeds exactly when a >= b; / and % succeed exactly when b is not 0 |
| Shell.CalcExact | userspace/shell/src/main.rs:95-97 | without overflow + and * are exact |
| Shell.CalcSubtractInverts | userspace/shell/src/main.rs:95-96 | - undoes + |
| Shell.CalcDivision | userspace/shell/src/main.rs:98-99 | / and % give a quotient and a remainder below b that recombine into a |
| Shell.WordLength | userspace/shell/src/main.rs:61 | the leading word is free of whitespace and ends at whitespace or the end |
| Shell.Tokens | userspace/shell/src/main.rs:61 | the words are non-empty and whitespace-free, and a lone word is its own token |
| Shell.TokensWord | userspace/shell/src/main.rs:61 | a word and a space split off as the first token |
| Shell.WordLengthOf | userspace/shell/src/main.rs:61 | the leading word of a word followed by whitespace is that word |
| Shell.TokensOfJoin | userspace/shell/src/main.rs:61 | words joined by single spaces split back into the same words |
| Shell.ExecuteCommand | userspace/shell/src/main.rs:60-165 | an empty command does nothing, an unknown first word is reported, and calc reports a result only for parsed numbers and a valid operator |
| Shell.DemoArguments | userspace/shell/src/main.rs:89-107 | the demo's calc arguments give 15 + 27 = 42 and 100 / 7 = 14 |
| Shell.DemoAddition | userspace/shell/src/main.rs:36-49 | the demo session's calc 15 + 27 reports 42 |
| Shell.DemoDivision | userspace/shell/src/main.rs:36-49 | the demo session's calc 100 / 7 reports 14 |
| Calculator.Factorial | userspace/calculator/src/main.rs:115-126 | every factorial is at least 1 |
| Calculator.FactorialMonotone | userspace/calculator/src/main.rs:115-126 | factorials never decrease |
| Calculator.CalculateFactorial | userspace/calculator/src/main.rs:116-126 | the loop returns n! modulo 2^32, exact up to 12 |
| Calculator.FactorialExactUpTo12 | userspace/calculator/src/main.rs:116-126 | 12! is the largest factorial a u32 holds; from 13 on it wraps |
| Calculator.FibMonotone | userspace/calculator/src/main.rs:128-144 | Fibonacci numbers never decrease |
| Calculator.Fibonacci | userspace/calculator/src/main.rs:129-144 | the loop returns F(n) modulo 2^32, exact up to 47 |
| Calculator.FibExactUpTo47 | userspace/calculator/src/main.rs:129-144 | F(47) is the largest Fibonacci number a u32 holds; from 48 on it wraps |
| Calculator.FibValues | userspace/calculator/src/main.rs:129-144 | F(47) and F(48) on either side of 2^32 |
| Calculator.OddHasNoEvenDivisor | userspace/calculator/src/main.rs:154-163 | an odd number has no even divisor, so trial division by odd numbers suffices |
| Calculator.PrimeBySmallDivisors | userspace/calculator/src/main.rs:158-165 | a number with no divisor below i, where i * i exceeds it, is prime |
| Calculator.ExtendTrialDivision | userspace/calculator/src/main.rs:158-164 | one more odd trial divisor extends the divisor-free range by two |
| Calculator.IsPrime | userspace/calculator/src/main.rs:147-166 | true exactly for primes |
| Calculator.PrimeScan | userspace/calculator/src/main.rs:76-80 | the scan of 2..19 reports 2, 3, 5, 7, 11, 13, 17 and 19 |
| Calculator.PrimesBelowTwenty | userspace/calculator/src/main.rs:76-80 | the primes below 20 are 2, 3, 5, 7, 11, 13, 17 and 19 |
| Calculator.ExpandSpansSkips | userspace/calculator/src/main.rs:175-188 | inside a placeholder everything up to the closing brace is dropped |
| Calculator.ExpandSpansReplacesSpan | userspace/calculator/src/main.rs:175-188 | each brace span, whatever it holds, becomes the value |
| Calculator.ExpandSpansUnclosed | userspace/calculator/src/main.rs:175-188 | an unclosed brace drops the rest of the template |
| Calculator.ExpandSpansStrayClose | userspace/calculator/src/main.rs:179-187 | a closing brace outside a placeholder is copied |
| Calculator.FormattersDiffer | userspace/calculator/src/main.rs:169-191 | unlike the runtime's format, the calculator's replaces {x} too |
| Calculator.Format | userspace/calculator/src/main.rs:169-191 | the template with every brace span replaced by the value's decimal digits, truncated to 64 bytes |
| Calculator.FillSpans | userspace/calculator/src/main.rs:174-190 | the loop pushes the span expansion of the template into 64 bytes |
| Calculator.NextSpan | userspace/calculator/src/main.rs:176-187 | one char of the walk emits what the span expansion from it begins with, and opens or closes a placeholder |

## Left out

- Console output is not modelled: every `*_print_stats`, `print_registered_components`, the `printf` calls and the demo `main()` printouts of the shell and calculator. They only print, and several print floating-point percentages.
- The virtual-memory, heap, process-loader and device-driver slots are modelled as opaque ops addresses. No implementation of them exists in the kernel, and `kmalloc` through an empty slot would dereference null.
- The algorithms that `allocators.h`, `schedulers.h` and `ipc_mechanisms.h` declare without implementing are not modelled. Where the headers' constants disagree with the `.c` files, the `.c` values are used (16 messages per channel, not 64).
- `include/types.h`, `include/elf.h`, `include/mtu.h`, `include/x86.h` and `boot/main.c` are not part of this model. They hold one-line macros, struct layouts, port I/O and inline assembly.
- `acquire_lock` is not modelled as a busy-wait loop. It is a boolean flag that a single thread always finds clear (`SharedMemory.AcquireLock` requires `!lock`). Concurrency is not modelled.
- The bitmap and the buddy block metadata are not placed inside the managed memory range. Each is kept in its own array, and only the number of pages reserved for it is modelled; the source instead casts `start_addr` to a pointer.
- Pointers are not modelled as addresses. The round-robin node pool and the MQ entry pool are index-addressed arrays. A linked list is the sequence of indices from its head to its tail, so `prev`/`next` corruption beyond what that sequence can express is not represented.
- The Rust system-call inline assembly, the panic handler, `GlobalAlloc`, the `mtos_main!` entry and the `hello` crate are not modelled. A system call is represented by the raw result the kernel hands back.
- The shell's `help`, `info`, `echo` and `exit` arms are modelled only by which arm runs; their console text is not modelled.
- `PAGE_ADDRESS` ORs in an undeclared `O` rather than its parameter `o`, so it does not compile where it is used. `Mmu.PageAddress` is the intended inverse of the address split. The `SEGMENT_NULL` and `SEGMENT_FAULT` constant initializers are not modelled.
- `mq_grant_capability` and `rr_set_priority` have empty bodies in the source. Their models `MessageQueueIpc.MessageQueue.GrantCapability` and `RoundRobinScheduler.RoundRobin.SetPriority` modify nothing, so their frames say they change nothing, and they have no row in the table above.
- BitmapAllocator.Bitmap.Init: requires `start <= end`. For a reversed range the source computes a wrapped-around page count and writes a bitmap of that size, which is not modelled.
- BitmapAllocator.Bitmap.AllocAligned: requires an alignment that rounds up to at least one page and a size that rounds up to at most `total_pages` pages. With a zero step the source's search loop does not advance, and a larger request indexes past the bitmap.
- RoundRobinScheduler.RoundRobin.RemoveProcess: requires `Unlinkable`. It excludes a process that is not running, has no ready node, and whose first blocked node is the head or the tail of the blocked list. The source unlinks that node with the ready queue's unlink (round_robin_scheduler.c:96-113). For the blocked head it sets `ready_queue_head` to the node's blocked successor (NULL when the node is alone) and leaves `blocked_processes` on the unlinked node. For the blocked tail it sets `ready_queue_tail` to the node's blocked predecessor. These corrupted pointer states are not modelled. A node with a neighbour on each side is spliced out correctly, and that case is modelled.
- RoundRobinScheduler.RoundRobin.Block: requires the same `Unlinkable` condition as RemoveProcess, for the same reason. In the excluded cases the node is also pushed back at the head of the blocked list after the corrupting unlink.
- BuddyAllocator.Buddy.Init: requires `start <= end`, and so does its first part `Buddy.Reset`. For a reversed range the source computes `total_size = end_addr - start_addr` in 32-bit arithmetic (buddy_allocator.c:168-170) and lays out that many wrapped-around pages. The block addresses would then run past 2^32, which the model's address arithmetic does not represent.
- PriorityScheduler.Priority.RemoveProcess: requires a process the scheduler knows. A process that is neither running nor blocked must be on the queue of its priority.
- PriorityScheduler.Priority.Block: requires the process to be running, or on the queue of its priority and not blocked (`Blockable`). Blocking a process that is already blocked would link it twice, and that is not modelled.
- PriorityScheduler.Priority.SetPriority: requires a known process, and a ready process must be on the queue of its priority.
- PriorityScheduler.Priority.GetTimeSlice: requires the process to be known to the scheduler.
- PriorityScheduler.Priority.GetPriority: requires the process to be known to the scheduler.
- Calculator.IsPrime: requires `n < 65535 * 65535`. Above that, `i * i` overflows `u32` and the release-mode loop's behaviour is not modelled.
- MessageQueueIpc.CreateOutcome: states the no-existing-channel case as implications rather than an if-and-only-if. Once `next_channel_id` reaches 0xFFFFFFFF, a successful create returns -1, which is indistinguishable from failure.
- MessageQueueIpc.CreateKeepsFreshIds: holds only while `next_channel_id` has not wrapped around.
