# A verified model of the kernel's memory, process, pipe and file-server protocols

The repository is a small RISC-V (Sv32) kernel with user-level copy-on-write fork, pipes, IPC, a file
server, an image builder and loaders. This project models the parts whose correctness depends on
several functions at once, and proves what they promise for all inputs, all states and all
interleavings. Everything is Dafny 4.11; `dafny verify dfyconfig.toml` checks the whole project.

| file | component | main results |
|---|---|---|
| CowFork.dfy | copy-on-write fork as a machine of single steps, beside a machine that copies eagerly | the lazy machine simulates the eager one for every fork tree and interleaving; exact condition on the initial mappings |
| ForkCode.dfy | the loops of `fork` and `cow_entry` as code | each run of the code is a run of that machine, with its exact result |
| ForkRead.dfy | the loop of `fork` with the read of `vpt[i]` and the call of `duppage` apart | faithful to eager copying if and only if the copy-on-write handler does not replace the page in between |
| ForkWhole.dfy | a whole `fork`, and a store to any page, from beginning to end | parent and child both run, with the same bytes and permissions on both sides; a store goes through and is seen exactly where it should be |
| Sv32.dfy | page table entries as words | encode/decode round trip, exact condition on stray permission bits |
| Pmap.dfy | free list, reference counts, two-level tables, mapping calls, `env_free` | reference conservation over every run, with address spaces that come and go; the tables refine a finite map; exact conditions for leaks |
| PageSequent.dfy | linked free list, `page_alloc_sequent` | sound and complete search for adjacent pages |
| PipeClose.dfy | end-of-file detection by reference counts, with `pipe`, `dup`, `close` and the loop of `fork` call by call | the answer characterised exactly in every reachable state; never wrong if forks are not cut off; what a cut-off fork makes of it, exactly |
| PipeCalls.dfy | whole calls of `pipe`, `dup` and `close` | the exact slots after each, also when a call inside fails; the other end is told "closed" exactly after the last close |
| PipeFifo.dfy | the 32-byte ring at single loads and stores | FIFO across position wrap; what an end of file misses, exactly; a process that runs alone makes progress |
| Envs.dfy | environments, IPC, scheduler | invariant over every run, bounded waiting, who may start, stop or destroy whom, exact codes and effects of the calls |
| RunQueue.dfy | the run queue's links, TAILQ_REMOVE | removal of an element on the queue, and the exact condition for one that is not, or never was |
| FsRpc.dfy | file-server requests with any number of clients that come and go, their pages, stores, forks, IPC outside `fsipc`, and the open table | a client has the server's own answer to its call if and only if its mailbox names the server; nobody changes a request under way |
| FsHangs.dfy | the server's reply loop | a client awaits exactly when served and nothing has spoiled its request; a reply loop can end without a receive outside `fsipc` if and only if it is the only reply and its client still awaits it; a run for each cause of an endless one, from an empty open table |
| FsCalls.dfy | whole file-server calls, messages between clients, slots of the open table | a call ends with the server's answer to what the client wrote, and with the page sent; an open file of a destroyed client takes up its slot for ever |
| Bitmap.dfy, FsBlocks.dfy | bitmap, direct and index pointers, truncation | block ownership, truncation exact if and only if nothing lies beyond the size, no block lost |
| Paths.dfy | directories and paths | a path opens a file if and only if it spells the way there; creation, removal, unique names |
| Image.dfy | the offline image builder | the image is a good first state of FsBlocks; what fits, exactly, and the blocks of a file in bytes |
| Elf.dfy | segment loader | right if and only if the segment is of the sound kind |
| InitStack.dfy | argument page of `spawn` | the child reads back the same arguments |
| Layers.dfy | how the models fit | the bit operations and calls of `duppage` and `cow_entry` on the kernel's tables are CowFork's steps; FsRpc's mailbox steps are the IPC calls of Envs |
| PrintNum.dfy | number formatter | output equals its specification and reads back as the number |

## How it is modelled

Code that updates objects in place is a class whose methods are proved equal to functions of the old
state (`Pmap.PageMap`, `PageSequent.FreeList`, `Envs.Kernel`, `FsBlocks.FileSys`, `Paths.DirServer`,
`Image.Formatter`, `Elf.Loader`, `ForkCode.Memory`); the theorems are about those functions. Code
that several processes run at once (copy-on-write fork, pipes, file-server calls, kernel entries) is a
state machine whose events are the single actions that cannot be interrupted; a sequence of events is
one interleaving, and the theorems quantify over all of them.

Hypotheses, because the code relies on them without checking:

- A page has fewer than 65536 references (`pp_ref` is 16 bits, include/pmap.h:16): `Pmap.Fits`.
- Private pages carry PTE_W or PTE_COW, since a store fault on any other page grants write access
  (kern/traps.c:143-147). `CowFork.FaithfulIffPrivateWritable` proves this to be the exact condition.
- `fork` and `spawn` copy descriptor pages before data pages (user/lib/fork.c:60-66), so close detection is
  right if the processor stays with a process that forks: `PipeClose.Uncut`. `PipeClose.HalfForkIff` is the
  exact answer when it does not, and `PipeClose.HalfForkMisleads` a run that ends in a wrong one.
- `env_free` unlinks its victim from the run queue without looking (kern/env.c:286), so a destroyed
  environment is runnable: `Envs.Enabled`. `RunQueue.RemoveAbsentIff` is the exact condition for one that is
  not, `RunQueue.StaleRemoveCuts` a case in which a runnable environment is lost, and `RunQueue.NeverQueued` the
  case of a child that `spawn` gives up.
- The stores that `fork` makes to its own stack between reading `vpt[i]` and calling `duppage` do not raise a
  copy-on-write fault on page `i` (user/lib/fork.c:60-66). `ForkRead.FaithfulIffUndisturbed` proves this to be the
  exact condition.
- `e_set_env_status` checks neither for a free target nor for a pending receive
  (kern/ecall_all.c:146-160); `Envs.StatusKeepsIff` is the exact condition.
- `count` is reloaded at every call of `schedule` (kern/sched.c:22), so bounded waiting needs
  priorities of at most 1; `Envs.TimerPassesOnIff` is the exact condition.
- A block newly used as an index or directory block reads as zeros, since `map_block` keeps the old
  page (fs/fs.c:65-70): `FsBlocks.IndexReady`, `Paths.Tidy`. `FsBlocks.IndexReadyIff` is the exact
  condition for index blocks.
- The handlers of the file server do not write through REQVA, where they have the client's page mapped
  writable (fs/serv.c:69-173): `FsRpc.Scribbles`. `FsRpc.ScribbleShows` is what such a write would do.
- Library mappings are gone before an address space is taken down (kern/env.c:265-268): `Pmap.Fits`.
  `Pmap.TearDownKeepsIff` proves this to be the exact condition.

Places where the code does not do what its comments or its design suggest, with the exact condition
where the outcome depends on one: `env_free` leaves references behind if and only if a library mapping is left
(`Pmap.PageMap.EnvFree`); `e_mem_alloc` loses a page when the mapping fails (`Pmap.MemAllocLeaksIff`);
`serve_open` goes on after replying that the open table is full (fs/serv.c:74-76) and replies twice, which hangs the
server until that client receives outside `fsipc` (`FsHangs.StuckIff`, `FsHangs.HopelessUntil`); `fsipc` drops the sender
of what it receives (user/lib/fsipc.c:12), and `e_ipc_try_send` lets anybody send, so any environment can answer a
client, which then takes that for the server's answer, and the server hangs (`FsRpc.OwnAnswerIff`,
`FsHangs.PeerAnswerHangs`); `ipc_send` tries for ever (user/lib/ipc.c:5-11), so a client that is destroyed before its
reply, or one that sends a request and does not receive, hangs it too (`FsHangs.DestroyedHangs`,
`FsHangs.RawRequestHangs`, `FsHangs.LoopEndsIff`); the test of PTE_V in `serve` (fs/serv.c:180-183) never fails, since
`e_ipc_try_send` always sets that bit, so a request without a page is served on the page of an earlier one;
`pipe_read` can report end of file with bytes unread (`PipeFifo.EofCanLoseBytes`, `PipeFifo.EofCompleteIff`);
`elf_load_seg` maps a short first page twice and loses it (`Elf.ShortStartIsLost`, `Elf.LoadIff`);
`file_truncate` leaves blocks beyond the old size marked used
(`FsBlocks.TruncateExactIff`); `file_create` reports -E_NOT_FOUND when the directory cannot grow, and the
directory keeps its new size (`Paths.DirServer.Create`, `Paths.CannotGrow`); `args[argc]` is not NULL but points at a zero
byte (`InitStack.RoundTrip`).

## Model

| member | source | states |
|---|---|---|
| CowFork.StepSim | user/lib/fork.c:5-71 | every load, store, fault step, `duppage` call, mapping call and exit, taken on the lazy and on the eager machine, keeps the simulation relation |
| CowFork.CowRefinesEager | user/lib/fork.c:48-71 | for every run from related states the two machines stay related: each process reads its own last write or the value inherited at fork, library pages are shared |
| CowFork.SameLoads | kern/traps.c:122-158 | the loads of any run return the same bytes on both machines |
| CowFork.StoreReach | kern/traps.c:122-158 | a store is seen exactly by the slots that share its eager cell; for a private page by no other slot |
| CowFork.CowWritableOnlyHalfway | user/lib/fork.c:32-46 | a page mapped copy-on-write is writable somewhere if and only if its `duppage` is between its two calls, and then only through the parent, while the child has not started |
| CowFork.PrivateAlone | user/lib/fork.c:32-46 | a writable private mapping is the only one of its physical page |
| CowFork.BootRelated | kern/env.c:211-221 | a state whose only sharing is of library pages, such as the loader sets up with a fresh page for each mapping, is related to its eager view |
| CowFork.Diverge | kern/traps.c:143-147 | from a fork on its way to a read-only private page there is a run after which parent and child differ from eager copying |
| CowFork.FaithfulIffPrivateWritable | kern/traps.c:143-147 | all runs from a plain state agree with eager copying if and only if every private mapping is writable or copy-on-write |
| ForkRead.UseSim | user/lib/fork.c:32-46 | `duppage` with the permission read earlier keeps the simulation as long as that permission stands, or was a library page's that has become writable since, or the page was unmapped then |
| ForkRead.ActSim | user/lib/fork.c:60-66 | every act of any environment keeps the simulation and what the fork loops have read, but for a copy-on-write fault at the page a loop has read and not yet passed on |
| ForkRead.ReaderRefines | user/lib/fork.c:48-71 | over every run without such a fault each program sees the memory of eager copying, although read and call are apart |
| ForkRead.FaithfulIffUndisturbed | user/lib/fork.c:60-66 | an act lets a program see what eager copying would not have shown, now or later, if and only if it is such a fault |
| ForkRead.MisledShows | user/lib/fork.c:32-46 | the call then maps a page copy-on-write in the child that the parent has writable, and the parent's next store shows in the child |
| ForkRead.UpsetRun | user/lib/fork.c:5-29 | at every copy-on-write page that a fork loop comes to there is a run with such a fault |
| ForkWhole.WholeFork | user/lib/fork.c:48-71 | from any idle environment the run of `fork` ends with parent and child both running and idle and every other environment as it was; below USTACKTOP the child has exactly the parent's pages, with the permission both sides then have, and at most its own stack page besides; no byte has changed |
| ForkWhole.ForkReads | user/lib/fork.c:60-66 | after it the child reads at every address of the parent's exactly what the parent could read there before, and nobody else reads anything different |
| ForkWhole.StoreLands | kern/traps.c:122-158 | a store to any page goes through, mapped or not, read-only, library or copy-on-write, and keeps PTE_R, PTE_X, PTE_U and PTE_LIBRARY; another mapping shows the byte if and only if it is of the same page and that is not copy-on-write |
| ForkWhole.ForkThenStore | user/lib/fork.c:5-71 | after a fork and a store by either side, that side reads the new byte, and the other side reads it if and only if the page is a library page |
| ForkCode.DuplicatedNext | user/lib/fork.c:60-66 | the loop body extends the duplication by exactly one page |
| ForkCode.Memory.Duppage | user/lib/fork.c:32-46 | one page: both entries as given by the three-way permission test, every other entry and all memory unchanged, as a run of the machine |
| ForkCode.Memory.ForkLoop | user/lib/fork.c:60-66 | the whole loop: every mapped page below USTACKTOP is in the child, private writable ones lazy on both sides, nothing else changed, no byte copied |
| ForkCode.Memory.CowEntry | user/lib/fork.c:5-29 | the handler ends with the same bytes on its own page, writable and not copy-on-write, scratch page unmapped, nothing else changed |
| Sv32.StrayPermission | kern/pmap.c:195-214 | an entry names its page if and only if the permission bits outside 0xc00003ff are bits of the frame number |
| Sv32.DecodersAgree | include/pmap.h:45-61 | `page_lookup` and `va2pa` decode every word to the same page |
| Sv32.EntryRoundTrip | include/pmap.h:37-61 | for every page and every permission within the mask, an entry gives back both |
| Pmap.PageAllocSpec | kern/pmap.c:100-112 | allocation returns an unreferenced, zeroed page and disturbs no translation |
| Pmap.RemoveSpec | kern/pmap.c:127-136 | removal drops one translation; the page is freed if and only if that was its last reference |
| Pmap.InsertSpec | kern/pmap.c:195-214 | insertion fails exactly when a table is missing and memory is out, and then changes nothing; otherwise one translation changes, and reinserting the same page frees nothing |
| Pmap.InsertLookup | kern/pmap.c:181-214 | after an insertion, lookup differs at the target page only, in every directory |
| Pmap.RemoveLookup | kern/pmap.c:127-136 | after a removal, lookup differs at the target page only |
| Pmap.SamePage | include/mmu.h:11-12 | two addresses have the same table indices if and only if they lie in one page |
| Pmap.MemMapLookup | kern/ecall_all.c:87-104 | the exact success condition; on success the destination page shows the source's page with the permission asked for and no other translation changes; on failure nothing changes |
| Pmap.MemAllocLookup | kern/ecall_all.c:76-85 | succeeds exactly for a legal address with a free page, and a second one if the table is missing; the page that appears was referenced nowhere, and no other translation changes |
| Pmap.MemUnmapLookup | kern/ecall_all.c:106-114 | succeeds exactly for a legal address; then that page is unmapped and no other translation of any address space changes; otherwise nothing changes |
| Pmap.NewDirLookup | kern/env.c:157-163 | a new address space exactly if a page is free, with nothing mapped; all others as they were |
| Pmap.DoKeeps | kern/ecall_all.c:76-114 | every mapping call, a new directory and taking one down keep the invariant: counts equal references, free list without duplicates, zero-reference pages only |
| Pmap.FreedExactlyAtLastRef | kern/pmap.c:114-124 | a page enters the free list in a call if and only if the call takes its last reference |
| Pmap.RunConserves | kern/ecall_all.c:76-114 | reference conservation over every run of calls on any family of directories, which come and go |
| Pmap.MemAllocLeaksIff | kern/ecall_all.c:76-85 | `e_mem_alloc` loses a page if and only if the last free page goes to a mapping whose table is missing |
| Pmap.DropTableSpec | kern/env.c:274-278 | giving up an empty table keeps the invariant and every translation |
| Pmap.DropDirIff | kern/env.c:281 | giving up the directory keeps the counts right if and only if no library mapping was in it |
| Pmap.ClearFromSpec | kern/env.c:264-273 | the inner loop of `env_free` leaves exactly the library entries of its table, and every other entry anywhere |
| Pmap.DropFromSpec | kern/env.c:254-279 | one turn of the outer loop: the table goes if and only if it holds no library entry, and nothing else of the directory changes |
| Pmap.TearDownKeepsIff | kern/env.c:249-288 | taking an address space down keeps every count right if and only if no library mapping is left in it |
| Pmap.TearDownOthers | kern/env.c:249-288 | and in any case leaves every translation of every other address space |
| Pmap.PageMap.AllocPage | kern/pmap.c:100-112 | equals the allocation function, keeps the invariant |
| Pmap.PageMap.WalkCreate | kern/pmap.c:158-179 | the table for an address, created with one reference if missing |
| Pmap.PageMap.LookupPage | kern/pmap.c:181-193 | returns the translation of the address |
| Pmap.PageMap.RemovePage | kern/pmap.c:127-136 | equals the removal function, keeps the invariant |
| Pmap.PageMap.InsertPage | kern/pmap.c:195-214 | equals the insertion function, keeps the invariant |
| Pmap.PageMap.MemAlloc | kern/ecall_all.c:76-85 | equals the specified call, with its error codes |
| Pmap.PageMap.MemMap | kern/ecall_all.c:87-104 | equals the specified call, with its error codes |
| Pmap.PageMap.MemUnmap | kern/ecall_all.c:106-114 | equals the specified call; -E_INVAL exactly for an illegal address, and otherwise the page is unmapped |
| Pmap.PageMap.ClearTable | kern/env.c:264-273 | equals the inner loop's function; the flag says whether a library entry is left |
| Pmap.PageMap.EnvFree | kern/env.c:249-288 | equals taking the address space down; the invariant holds afterwards if and only if no library mapping was left |
| PageSequent.RunIsRange | kern/pmap.c:64-97 | list-adjacent pages found by the scan are one contiguous range, highest first |
| PageSequent.LongestBounds | kern/pmap.c:70-85 | if the longest run ending at a position is shorter than n, no run of n ends there |
| PageSequent.Unlinked | include/queue.h:140-145 | the two writes of LIST_REMOVE give links that represent the list without that element, in the same order |
| PageSequent.Linked | include/queue.h:126-132 | the writes of LIST_INSERT_HEAD give links for the longer list |
| PageSequent.FreeList.InsertHead | include/queue.h:126-132 | puts a page that is not on the list in front of it |
| PageSequent.FreeList.Remove | include/queue.h:140-145 | takes exactly that page out; its own links keep their values, on which the loop of the caller relies |
| PageSequent.FreeList.FindRun | kern/pmap.c:66-85 | finds the first run of n adjacent pages, or there is none |
| PageSequent.FreeList.AllocSequent | kern/pmap.c:64-97 | fails exactly when there is no run of n (for any n) and then changes nothing; otherwise removes exactly the first run, keeps the order of the rest, zeroes and references those pages only, returns the lowest |
| PipeClose.StepKeeps | user/lib/fd.c:86-125 | every call of `pipe`, `dup`, `close`, `fork` and the test, and a kill at any moment, keeps: each descriptor of a running process has its data page mapped, but for a pipe being made that nobody else has seen |
| PipeClose.CountLaw | user/lib/pageref.c:3-15 | data references and descriptor references of a pipe differ by the slots that have only one of the two pages |
| PipeClose.EqualCountsIff | user/lib/pipe.c:65-73 | in any state the compared counts are equal if and only if unbacked descriptors make up for open ends and bare data pages |
| PipeClose.DataCoversEnds | user/lib/pipe.c:130-134 | with no unbacked descriptor, references to the data page are those of both ends and the bare data pages |
| PipeClose.AnswerExact | user/lib/pipe.c:65-73 | in every reachable state the answer is "closed" if and only if unbacked descriptors equal the other end's and the bare data pages in number; unbacked ones are in environments that are not running |
| PipeClose.AnswerSound | user/lib/pipe.c:65-73 | with no unbacked descriptor of the pipe the answer is "closed" if and only if the other end is mapped nowhere and no data page is bare |
| PipeClose.RunKeeps | user/lib/pipe.c:27-134 | the invariant holds in every reachable state |
| PipeClose.CloseDetection | user/lib/pipe.c:65-73 | the exact answer over every run, forks cut off or not; sound without unbacked descriptors, and exact if besides no `dup` or `close` is in flight |
| PipeClose.WholeForkDetection | user/lib/pipe.c:65-73 | over every run whose forks are not cut off, "closed" implies that the other end has no mapping anywhere, the answer is exact with no `dup` or `close` in flight, and data references cover both ends |
| PipeClose.HalfForkIff | user/lib/fork.c:60-66 | if a fork is cut off before its data pages, another process is told "closed" if and only if the forking one holds as many descriptors of the asker's end as there are of the other end |
| PipeClose.HalfForkMisleads | user/lib/fork.c:60-66 | a run from the start in which a process is told "closed" while the writing end is open |
| PipeClose.ForkRun | user/lib/fork.c:60-69 | a fork that nobody interrupts ends with a running child that has every descriptor and data page of the parent's, and nothing else changed |
| PipeClose.AskRun | user/lib/pipe.c:65-73 | a test that nobody interrupts compares the two counts as they are |
| PipeCalls.CloseCall | user/lib/fd.c:67-77 | after `close` of any open number both pages of that slot are gone and every other slot and process is as it was |
| PipeCalls.DupCall | user/lib/fd.c:86-117 | after `dup` the new number has the descriptor and the data page of the old one, whatever it had before, and nothing else has changed |
| PipeCalls.DupFails | user/lib/fd.c:118-124 | when either map call fails both pages of the new number are gone and nothing else has changed |
| PipeCalls.DupSelf | user/lib/fd.c:86-124 | `dup` of a number onto itself closes it |
| PipeCalls.PipeCall | user/lib/pipe.c:27-54 | `pipe` gives a reading and a writing end of a new pipe, each with the data page, and nothing else |
| PipeCalls.PipeFails | user/lib/pipe.c:55-63 | when any of its calls fails every slot is as it was |
| PipeCalls.CloseThenAsk | user/lib/pipe.c:65-73 | after a close the other end is told "closed" if and only if that was the last descriptor |
| PipeCalls.KillLeaves | kern/env.c:264-273 | a destroyed process leaves its descriptors and data pages mapped |
| PipeCalls.OrphanForEver | kern/env.c:264-273 | over every run an end that a destroyed process had open is open for ever |
| PipeFifo.RunKeeps | user/lib/pipe.c:75-117 | the ring invariant holds after every interleaving of single loads and stores |
| PipeFifo.Fifo | user/lib/pipe.c:75-117 | bytes read are a prefix of bytes written and at most 32 are outstanding, across any number of position wraps |
| PipeFifo.EofCompleteIff | user/lib/pipe.c:75-97 | at end of file the bytes missed are exactly those the ring holds from p_rpos to p_wpos, and none is missed if and only if the two positions are equal then |
| PipeFifo.EofCanLoseBytes | user/lib/pipe.c:75-97 | a run in which `pipe_read` returns 0 with one byte unread |
| PipeFifo.TakeAlone | user/lib/pipe.c:75-97 | a reader that runs alone with p_rpos != p_wpos takes the next byte that was sent, and changes nothing else |
| PipeFifo.SendAlone | user/lib/pipe.c:99-118 | a writer that runs alone with room sends its byte, and changes nothing else |
| PipeFifo.DrainAlone | user/lib/pipe.c:75-97 | a reader that goes on alone gets everything that was sent |
| PipeFifo.EndAlone | user/lib/pipe.c:82-88 | a reader that has everything is told of the end if and only if the writer has closed |
| Envs.DoKeeps | kern/ecall_all.c:116-216 | every kernel entry keeps: run queue holds the runnable ones once, free list the free ones, a receiver is not runnable, address space ids are distinct, the running environment heads the queue |
| Envs.StatusKeepsIff | kern/ecall_all.c:146-160 | `e_set_env_status` keeps the invariant if and only if the target is live, is not the caller being stopped, and is not a receiver being woken |
| Envs.RunKeeps | kern/env.c:186-320 | the invariant holds after every run |
| Envs.BootOk | kern/env.c:97-155 | the initial tables satisfy it |
| Envs.CreateKeeps | kern/env.c:238-247 | so they do after creating an environment |
| Envs.CreateCall | kern/env.c:238-247 | a free environment is runnable at the head of the queue with an address space id of its own |
| Envs.MailboxChanges | kern/ecall_all.c:191-216 | the message fields of an environment change only by a send to it while it receives; then they are that send's, and it is queued last |
| Envs.MessageStays | kern/ecall_all.c:178-216 | over every run a delivered message stays until its owner receives again |
| Envs.ForkMakesChild | kern/ecall_all.c:116-144 | on success one free environment becomes a live child with a new address space id and an id that leads back to it; no other environment changes |
| Envs.ForkSucceedsIff | kern/env.c:186-209 | `e_exofork` succeeds if and only if there is memory, a free environment and a free address space id |
| Envs.ForkThenStart | user/lib/fork.c:54-69 | the parent starts the child it has made, which is then runnable at the end of the run queue, unless the child's id is 0, which happens exactly when the counter wraps |
| Envs.StatusCall | kern/ecall_all.c:146-160 | the environment named has the status asked for if and only if it is the caller or a child of the caller's; run queue accordingly; nothing else changes |
| Envs.OnlyOwnStatus | kern/env.c:77-94 | an environment is started, stopped or destroyed by itself or its parent only |
| Envs.DestroyCall | kern/env.c:290-297 | a destroyed environment is free, off the run queue, first in line, its address space id free; nobody else changes; the next in line runs if it was the caller |
| Envs.SendCall | kern/ecall_all.c:191-216 | a receiver has value and sender, and is runnable at the end of the queue; if the environment named does not receive nothing happens |
| Envs.RecvCall | kern/ecall_all.c:178-189 | the caller waits, off the queue, and the next in line runs; nobody exactly if it was alone |
| Envs.Progress | kern/sched.c:5-24 | each call of `schedule` brings a waiting environment one place forward and nothing sends it back |
| Envs.BoundedWaiting | kern/sched.c:5-24 | with priorities of at most 1, an environment at place n that stays runnable runs within n calls of `schedule` |
| Envs.TimerPassesOnIff | kern/sched.c:5-24 | the timer passes the processor on if and only if the running environment's priority is at most 1 |
| Envs.Kernel.AsidAlloc | kern/env.c:26-37 | takes the lowest clear bit, or reports that there is none |
| Envs.Kernel.RunNext | kern/sched.c:5-24 | equals the scheduling function and re-establishes the invariant |
| Envs.Kernel.AllocEnv | kern/env.c:186-209 | equals the allocation function, with its error codes |
| Envs.Kernel.ForkEnv | kern/ecall_all.c:116-144 | equals the state machine's fork event |
| Envs.Kernel.SetStatusOf | kern/ecall_all.c:146-160 | as the state machine's event, with the exact code: -E_INVAL for an unknown status, else -E_BAD_ENV exactly if the target is neither the caller nor its child |
| Envs.Kernel.Receive | kern/ecall_all.c:178-189 | blocks the caller and schedules, as the state machine's event |
| Envs.Kernel.TrySend | kern/ecall_all.c:191-216 | as the state machine's event, with the exact code: -E_IPC_NOT_RECV exactly if the address is legal and the target does not receive, and then nothing has changed; -E_INVAL for an illegal address, or an unmapped page after delivery |
| Envs.Kernel.DestroyEnv | kern/ecall_all.c:56-62 | as the state machine's event, with the exact code |
| RunQueue.RemovePresent | include/queue.h:212-219 | TAILQ_REMOVE of an element on the queue gives links for the queue without it, in the same order |
| RunQueue.RemoveAbsentIff | kern/env.c:284-286 | TAILQ_REMOVE of an element that is not on the queue leaves the queue as it is if and only if the element has been on a queue and its links still agree with this one |
| RunQueue.StaleRemoveCuts | kern/env.c:284-286 | a queue from which destroying an environment blocked in a receive cuts off a runnable one |
| RunQueue.NeverQueued | user/lib/spawn.c:166-170 | an element whose links were never set is on no queue, and removing it writes through a null pointer |
| FsRpc.ProtocolKept | user/lib/ipc.c:5-25 | every event, also a peer's send, a receive or a request outside `fsipc` and a client's end, keeps the protocol: a client that awaits an answer has its request with the server, as the one being served, unreplied |
| FsRpc.MemoryKept | kern/ecall_all.c:191-216 | every event keeps: the page of a client's buffer is mapped nowhere else but at REQVA and copy-on-write in the buffers of relatives, and REQVA shows the buffer of the client that awaits an answer |
| FsRpc.StepKeeps | fs/serv.c:175-213 | every event keeps protocol, pages, the numbering of requests, the log and what is in every client's mailbox, if no handler writes through REQVA |
| FsRpc.TraceSafe | fs/serv.c:175-213 | protocol and pages are in order in every state of every run |
| FsRpc.TraceKeeps | fs/serv.c:175-213 | all of this in every state of every run whose handlers only read |
| FsRpc.OwnAnswerIff | user/lib/fsipc.c:9-13 | what a client comes back with is the server's answer to that very call, from its own buffer by the only service the call has had, if and only if its mailbox names the server |
| FsRpc.NotWritten | user/lib/fork.c:32-46 | no store by a relative, by the server through its own pages or by the client itself reaches the buffer of a client in a call |
| FsRpc.PageUnchanged | user/lib/fsipc.c:9-13 | from entering `fsipc` to leaving it a client's buffer stays on its page with its contents, under all stores, copy-on-write faults, forks and mappings of all environments |
| FsRpc.RequestStays | fs/serv.c:69-173 | what a handler reads at REQVA is the same from the delivery of the request to the reply |
| FsRpc.ScribbleShows | user/lib/fsipc.c:11 | a store through REQVA is possible during service and changes the client's buffer |
| FsHangs.AwaitsIffServed | user/lib/fsipc.c:9-13 | over every run a client awaits an answer if and only if the server is with its request and none of four things has happened since: it was destroyed, a peer answered it, the request was sent outside `fsipc`, it has the first of two replies; and then REQVA shows its buffer |
| FsHangs.HopelessUntil | user/lib/ipc.c:5-11 | a reply for which nobody at that index waits keeps the server from every other request, and every send to it from succeeding, until the environment at that index receives outside `fsipc` |
| FsHangs.ListenerTakes | kern/ecall_all.c:191-216 | such a receive takes the reply, and the server serves on |
| FsHangs.LoopIff | user/lib/ipc.c:5-11 | a reply loop can end without such a receive if and only if its client awaits the answer and it is the only one |
| FsHangs.LoopEndsIff | user/lib/ipc.c:5-11 | over every run: if and only if it is the only reply and none of the four causes has struck since the request came |
| FsHangs.DestroyedHangs | kern/env.c:77-94 | from every quiet state a run in which a client is destroyed between its send and its receive, and nobody takes the reply |
| FsHangs.PeerAnswerHangs | kern/ecall_all.c:191-216 | likewise one in which a peer answers a client with any value, the client returns with it, and nobody takes the reply |
| FsHangs.RawRequestHangs | kern/ecall_all.c:191-216 | likewise one in which an environment sends a request and does not receive |
| FsHangs.StuckIff | fs/serv.c:69-102 | over every run the server is caught in `serve_open` for a client if and only if it dispatched an open of that client when no slot of the open table was free, and no receive outside `fsipc` has taken the second reply since |
| FsHangs.FullTableHangs | fs/serv.c:35-55 | from any quiet state with every slot open in some client, an open by any client leads there |
| FsHangs.FullTableRun | fs/serv.c:74-76 | a run from one client and an empty table: it forks 33 more, they open 1024 files, at most 31 each, and one more open hangs the server |
| FsCalls.CallCompletes | user/lib/fsipc.c:9-13 | from every quiet state a call of every kind but open, with every answer and page, ends with the client idle and the answer in its mailbox, the request logged once as what its buffer held, the page mapped where asked, and nothing else changed |
| FsCalls.WriteAndCall | user/lib/fsipc.c:27-40 | what a client writes into its buffer, through the copy-on-write handler if need be, is what the server answers |
| FsCalls.MapCompletes | fs/serv.c:104-118 | a client that asks for a block has it on the page of the server's cache, with what the server read into it |
| FsCalls.OpenTakesSlot | fs/serv.c:35-55 | an open that finds the table not full has the lowest free slot, with its page cleared, and no other entry changes |
| FsCalls.FaultCopies | user/lib/fork.c:5-29 | the copy-on-write handler changes what nobody reads, and leaves the faulting client alone on a writable page |
| FsCalls.AllocStoreUnmap | kern/ecall_all.c:76-114 | a page that a client maps holds what it stores, and unmapping undoes mapping |
| FsCalls.PeerDelivers | user/lib/ipc.c:5-25 | a message between clients arrives with value, sender and page |
| FsCalls.DestroyLoses | kern/env.c:265-268 | a client destroyed with a file open leaves a reference to its slot that nobody holds |
| FsCalls.LostForEver | fs/serv.c:35-55 | over every run such a slot of the open table is never free again |
| Layers.MapCall | kern/ecall_all.c:87-104 | `e_mem_map` on the kernel's tables is one entry written in the copy-on-write machine, and nothing if it fails |
| Layers.AllocCall | kern/ecall_all.c:76-85 | `e_mem_alloc` is a new entry to a page that no entry of the machine refers to, exactly if the address is legal and there are pages |
| Layers.UnmapCall | kern/ecall_all.c:106-114 | `e_mem_unmap` takes one entry away exactly for a legal address, and changes nothing otherwise |
| Layers.PermissionBits | user/lib/fork.c:32-46 | the test, the set and cleared bits of `duppage` and `cow_entry` on a permission word are the operations of the machine on flags |
| Layers.DuppageWhole | user/lib/fork.c:37-39 | the first branch of `duppage` on the kernel's tables is the machine's step |
| Layers.DuppageHalf | user/lib/fork.c:40-43 | so is the first call of the second branch |
| Layers.DuppageRemap | user/lib/fork.c:44 | so is its second call |
| Layers.HandlerAlloc | user/lib/fork.c:11-19 | so is the scratch page of `cow_entry` |
| Layers.HandlerMap | user/lib/fork.c:21-23 | so is mapping it over the shared page |
| Layers.HandlerUnmap | user/lib/fork.c:24-26 | and unmapping it |
| Layers.ProgramAlloc | kern/ecall_all.c:76-85 | so is an allocation by a program |
| Layers.ProgramShare | kern/ecall_all.c:87-104 | and sharing a library page |
| Layers.ProgramUnmap | kern/ecall_all.c:106-114 | and unmapping a page |
| Layers.SendCall | kern/ecall_all.c:191-216 | `e_ipc_try_send` fills the mailbox of a receiver as the protocol's delivery does, and no other mailbox |
| Layers.RecvCall | kern/ecall_all.c:178-189 | `e_ipc_recv` marks the caller's mailbox and no other |
| Bitmap.PutBit | fs/fs.c:112-139 | setting or clearing a bit of a word leaves every other bit |
| Bitmap.PutBlockSpec | fs/fs.c:112-139 | marking one block leaves the mark of every other block, in its own and in other words |
| Bitmap.AllFree | tools/fsformat.c:108-114 | words of ones make every block free |
| FsBlocks.FirstFree | fs/fs.c:129-139 | the lowest free block from 3 on, or none is free |
| FsBlocks.SetDataPtr | fs/fs.c:214-240 | writing one data pointer changes no other pointer of any file: index blocks are not shared |
| FsBlocks.WalkKeeps | fs/fs.c:214-240 | the walk keeps ownership on every path and may only set the file's index pointer |
| FsBlocks.MapBlockKeeps | fs/fs.c:242-261 | mapping keeps ownership, also when allocation fails half way; it returns the mapped block, a formerly free one if the pointer was empty, and changes no other pointer |
| FsBlocks.MapBlockCode | fs/fs.c:214-261 | the exact code on the state before the call: success for a block that is there or can be allocated, with two free blocks if the index block is missing |
| FsBlocks.ClearBlockSpec | fs/fs.c:263-274 | clearing frees exactly that block and zeroes exactly that pointer |
| FsBlocks.ClearRangeSpec | fs/fs.c:437-447 | the loop frees exactly the blocks of its range |
| FsBlocks.TruncateSpec | fs/fs.c:429-450 | truncation frees exactly the blocks between the two counts and the index block when direct pointers suffice; smaller indices and other files stay |
| FsBlocks.TruncateExactIff | fs/fs.c:429-450 | it frees exactly all blocks at or beyond the new count if and only if no pointer lies beyond both sizes |
| FsBlocks.TruncateBytes | fs/fs.c:429-450 | in bytes: every block with a byte below the new size stays, every block within the old size that begins beyond the new one is gone, and the blocks freed are exactly those and an index block no longer needed |
| FsBlocks.BytesStay | fs/fs.c:429-450 | a byte that stays is in the same block, which is not free |
| FsBlocks.DoKeeps | fs/fs.c:214-460 | every block operation, and data written into any block that is no index block, keeps ownership: nonzero pointers are distinct, in range and marked used |
| FsBlocks.DataStays | fs/fs.c:214-460 | no operation changes what a data block holds, but a write to that block |
| FsBlocks.WriteOnly | fs/serv.c:118 | a write changes that block and no other, no pointer and no mark |
| FsBlocks.RunKeeps | fs/fs.c:214-460 | ownership holds in every state of every run |
| FsBlocks.RunConserves | fs/fs.c:122-152 | while blocks are mapped inside files, a block is used if and only if exactly one pointer names it, over every run |
| FsBlocks.IndexReadyIff | fs/fs.c:65-70 | taking an index block keeps ownership if and only if it reads as zeros |
| FsBlocks.StaleIndexShares | fs/fs.c:65-70 | a concrete disk on which a recycled index block makes two files share a block |
| FsBlocks.FileSys.TakeNumber | fs/fs.c:129-139 | the scan of the bitmap words takes the lowest free block |
| FsBlocks.FileSys.Take | fs/fs.c:141-152 | equals block allocation; a block that cannot be mapped is given back |
| FsBlocks.FileSys.BlockWalk | fs/fs.c:214-240 | equals the walk function, with its error codes |
| FsBlocks.FileSys.FileMapBlock | fs/fs.c:242-261 | equals the mapping function and keeps ownership |
| FsBlocks.FileSys.FileClearBlock | fs/fs.c:263-274 | equals the clearing function and keeps ownership |
| FsBlocks.FileSys.FileTruncate | fs/fs.c:429-450 | equals the truncation function, keeps ownership, and keeps and cuts blocks by bytes as promised |
| Paths.CompsOfJoin | fs/fs.c:346-376 | splitting a joined path gives back its names, for every list of names |
| Paths.NeverFree | fs/fs.c:354-402 | a walk that finds a file ends at a slot that carries the last component, never at a free slot |
| Paths.OpenIff | fs/fs.c:354-405 | opening a path gives a file if and only if the path spells the names on the way there, each the first of its directory, through directories, none too long |
| Paths.MissingIff | fs/fs.c:376-390 | a path is missing from a directory, where it can be created, if and only if all but its last component lead there and no entry has the last one |
| Paths.BadPathIff | fs/fs.c:373-375 | -E_BAD_PATH if and only if a component is too long after components that lead somewhere |
| Paths.OthersResolve | fs/fs.c:354-402 | a walk that does not pass through a file ends the same with and without that file |
| Paths.CreateThenOpen | fs/fs.c:409-426 | after creation the path opens to the new file |
| Paths.CreateOthers | fs/fs.c:409-426 | paths that do not pass through the new file resolve as before |
| Paths.CreateKeeps | fs/fs.c:409-426 | creation keeps names unique in every directory |
| Paths.RemoveMissingIff | fs/fs.c:500-513 | after removing a path below the root it is not found if and only if no other slot of the directory carries the name |
| Paths.RemoveThenMissing | fs/fs.c:500-513 | with unique names a removed path is not found |
| Paths.RemoveOthers | fs/fs.c:500-513 | paths that do not pass through the removed file resolve as before |
| Paths.RemoveKeeps | fs/fs.c:500-513 | removal keeps names unique |
| Paths.DirServer.DirLookup | fs/fs.c:299-315 | the first slot with the name; fails only for want of a block |
| Paths.DirServer.WalkPath | fs/fs.c:354-402 | equals component-wise lookup for every string, with its error cases, and changes no record |
| Paths.DirServer.DirAlloc | fs/fs.c:318-343 | the first free slot, or a new block; with all directory blocks on disk it fails if and only if the directory is full and cannot get a block, and then keeps its new size with a hole |
| Paths.DirServer.Create | fs/fs.c:409-426 | makes exactly the missing entry, which then opens; reports existing paths; refuses a missing entry if and only if its directory cannot grow, with the code of the walk, and the directory has grown; keeps names unique |
| Paths.DirServer.Remove | fs/fs.c:500-513 | removes exactly the file found, whose path is then not found |
| Image.LinkKeeps | tools/fsformat.c:122-159 | linking the next block keeps ownership, loses no block, leaves the rest of the disk blank and agrees with all links stored |
| Image.MakeLinkKeeps | tools/fsformat.c:161-166 | so does growing a directory by a block |
| Image.WriteFileKeeps | tools/fsformat.c:189-212 | so does writing a file, which then has exactly the blocks its size calls for |
| Image.FileWritten | tools/fsformat.c:189-212 | a file is written if and only if it is within the index limit and disk and directory have the blocks; it then has its size and a block for exactly each part of it, and no other record but the directory's has changed |
| Image.BuildGood | tools/fsformat.c:100-241 | every state of every build that fits the disk is good |
| Image.ImageAgrees | tools/fsformat.c:127-159 | `file_map_block` without allocation returns exactly the block stored at each index, the free blocks are those from nextbno on, and the image satisfies ownership without a lost block |
| Image.FlushBitmap | tools/fsformat.c:100-132 | the bitmap words written mark free exactly the blocks from nextbno on |
| Image.Formatter.SaveLink | tools/fsformat.c:148-159 | equals the link function |
| Image.Formatter.WriteBlocks | tools/fsformat.c:208-210 | equals the loop's function and keeps the image in order |
| Elf.SoundLoads | lib/elfloader.c:25-57 | a sound segment maps each covering page exactly once, in order, with the file bytes then zeros |
| Elf.ShortStartIsLost | lib/elfloader.c:34-55 | otherwise the first page is mapped twice and ends up blank |
| Elf.LoadIff | lib/elfloader.c:25-57 | the covering pages are each mapped once with the right bytes if and only if the start is aligned, or the file part fills the first page, or nothing follows it |
| Elf.SegmentBytes | lib/elfloader.c:42-55 | byte j of the loaded range is file byte j, or zero beyond the file part |
| Elf.Loader.Mapper | kern/env.c:211-221 | maps one fresh page with the bytes copied to the offset |
| Elf.Loader.ElfLoadSeg | lib/elfloader.c:25-57 | succeeds if and only if there are pages for all calls, and then equals the load function |
| InitStack.FitsHasRoom | user/lib/spawn.c:16-20 | arguments that pass the size check leave argc, pointers and strings in disjoint areas of one page |
| InitStack.RoundTrip | user/lib/entry.S:4-5 | the child reads back exactly the strings, in order; the pointer after the last leads to a zero byte |
| InitStack.Build | user/lib/spawn.c:8-60 | -E_NO_MEM if and only if the arguments do not fit, another failure if and only if a mapping call fails; otherwise the child recovers the arguments at the returned, aligned stack pointer |
| PrintNum.FormatLength | lib/print.c:236-240 | the output is as long as the width, or as digits and sign if they are longer |
| PrintNum.DigitsValue | lib/print.c:220-230 | the digits evaluate to the number in its base |
| PrintNum.NoLeadingZero | lib/print.c:220-230 | the digits of a nonzero number do not start with zero |
| PrintNum.FormatReadsBack | lib/print.c:203-276 | the output reads back as sign and number for every value, base, width and flag |
| PrintNum.FormatCase | lib/print.c:220-230 | letters are all upper-case or all lower-case, as asked |
| PrintNum.FormatAligned | lib/print.c:244-262 | left adjusted the text begins with its sign or digit and ends in spaces; otherwise it ends with its lowest digit, after the padding asked for |
| PrintNum.ReversedIsLayout | lib/print.c:257-273 | reversing the padded text, or its number part, puts sign, zeros and spaces in place |
| PrintNum.Print | lib/print.c:203-276 | what is written out equals the specification |

## Left out

- Trap entry and exit, CSR access, TLB flushes, the hardware page walker: machine interface.
- Device drivers, console and SBI: input and output. The disk is an array of blocks.
- `do_load_page`, the UVPT self-map, the kernel's shared base tables and kernel stacks: they break the disjointness of tables and add little; directories here hold private user mappings.
- Out-of-memory recovery in `env_setup_vm` and in `fork`, which ignores mapping errors: allocation is a parameter there, or taken to succeed.
- Block-cache write-back and crash consistency: nothing is claimed about the durable state.
- `spawn` apart from the argument page, the shell, demo programs, tools other than the image builder.
- `f_dir` back pointers, `file_flush`, `fs_sync`, and what the handlers of the server compute.
- Copy-on-write fork, pipes and the file-server protocol are state machines on values instead of classes, because their steps interleave; a whole kernel call is one step.
- Trap frames: the handler's entry and return are events, the registers saved for them are not modelled.
- `env_runs`, the counter that `_pipe_is_closed` compares, is unbounded, so its wrap after 2^32 switches is not captured; descriptor numbers are below MAXFD.
- PipeFifo.Fifo: one reader process and one writer process, because with two readers the code has no such order.
- CowFork.StepSim: environment ids are never reused, while `mkenvid` wraps after 2^21 allocations. `e_mem_map` outside `fork` maps library pages only, `e_mem_alloc` makes writable or library pages only, and environments end by their own call: IPC and `spawn` also map private pages into another environment, and two environments that write one private page have no counterpart in eager copying.
- CowFork.CowWritableOnlyHalfway: reading `vpt[i]` and the first mapping call of `duppage` are one step here; ForkRead has them apart.
- CowFork.CowRefinesEager: over the same events as CowFork.StepSim.
- CowFork.SameLoads: over the same events as CowFork.StepSim.
- Envs.DestroyCall: likewise for an environment on the run queue.
- Envs.DoKeeps: a destroyed environment is on the run queue, because the queue is a sequence here; RunQueue.RemoveAbsentIff says when the links survive one that is not.
- Envs.RunKeeps: over the same events as Envs.DoKeeps.
- Envs.Kernel.SetStatusOf: for targets that keep the invariant; Envs.StatusKeepsIff says which do not.
- FsRpc.PageUnchanged: the copy-on-write handler and `fork` are one step each; their steps are in CowFork. Clients do not touch their buffer inside `fsipc`, and do not unmap it, receive a page over it or send it to a peer, which would share it writable.
- FsRpc.ProtocolKept: a destroyed client is not blocked in a receive, as in Envs.DoKeeps; file-server calls and other IPC of one client do not overlap, as `fsipc` is not left before it returns.
- FsCalls.CallCompletes: an open is in FsHangs, where it needs the table; client and server are not interrupted by others here.
- FsHangs.StuckIff: `open_alloc` is one step with the dispatch, and has memory for the pages of the table.
- Pmap.TearDownKeepsIff: for a directory with one pin and no entries in the ranges `env_free` passes over, which hold the shared kernel tables.
- Pmap.PageMap.EnvFree: for the same directories as Pmap.TearDownKeepsIff.
- PageSequent.FreeList.AllocSequent: the page records are sequences indexed by page number, not an array of structures.
- Paths.DirServer.DirLookup: the blocks a directory can still get are one number; how the server finds them is in FsBlocks.
- Paths.DirServer.Remove: a removed directory takes the records under it along, as its blocks are given back; the blocks of files inside it stay marked used, which FsBlocks describes and this model does not.
- FsBlocks: file records are numbered, not placed in directory blocks; Paths and Image say which records a directory has.
- Image.WriteFileKeeps: whether a directory has a free slot is a parameter, and so is the size of the host file; host input and output are not modelled.
- Elf.LoadIff: addresses do not wrap at 2^32; p_memsz is at least p_filesz, as "Program Header" in chapter 5 of the System V gABI demands.
- InitStack.Build: the sum of the argument lengths does not overflow an `int`.
- PrintNum.Print: bases from 2 to 36 and widths that are not negative, as the callers in `vprintfmt` pass them.
