# A verified model of the Zonix kernel core

Zonix is a small x86 teaching kernel written in C. This project models its
core in Dafny, one module per C file, and proves what each part promises.

- **Process table and scheduler** (`Sched`, `SchedOps`, from
  `kern/sched/sched.c`). Tasks sit in an arena keyed by abstract addresses.
  `proc_list` and the 1024 pid hash chains are sequences. The family
  pointers (`parent`, `cptr`, `optr`, `yptr`) live in a second map. A ghost
  map holds each task's child chain. The class `SchedOps.Scheduler` holds the
  globals of sched.c. Its methods are get_pid, hash_proc, find_proc,
  set_links, remove_links, wakeup_proc, schedule, proc_run, do_fork,
  do_exit, idle_init, init_proc_init and sched_init. Every method keeps one
  invariant, `TableOK`, which says:
  - the hash chains match the pids, and the pids are unique;
  - the family chains are doubly linked and consistent;
  - only the current task runs;
  - idle and init keep their roles.
- **Shell** (`Shell`). strncmp, the skipping of leading spaces and the
  first-match lookup in the command table are pure functions. The line
  editor of `shell_handle_char` is a class over the 128-byte buffer.
- **Block-device registry** (`Blk`) and **IDE driver** (`Hd`). The disk
  status register is an oracle: the k-th status read returns `status(k)`.
  Port writes are recorded as a trace. Each driver result, the polls it
  uses and the events it issues are functions of the oracle. `ReadyWait`
  and `DataWait` give each wait's outcome, `SectorRun` and `TransferRun`
  chain the waits through a transfer, and `DetectOk` and `ProbeStart` do
  the same for detection. The model covers:
  - the polling loops with their 100000-poll timeout;
  - IDENTIFY-based detection;
  - the 28-bit LBA register encoding;
  - the range checks;
  - the slot tables.
- **Console output**: the CGA cell buffer and cursor (`Cga`), and the mini
  `cprintf` with its recursive digit printer (`Stdio`).
- **Memory**: `memset`/`memcpy` (`Memory`), the boot-time page map
  `mem_map` (`Pmm`), and the first-fit page allocator with block splitting
  (`SimplePmm`).
- **Interrupts and timers**: the 8259A mask (`Pic`), and the CMOS clock
  sampling loop with BCD decoding and 8253 timer programming (`Time`).
- **Boot loader** (`Boot`): sector reads in 28-bit LBA mode, `readseg`'s
  sector arithmetic, the ELF magic gate and the program-header loop.
- **Descriptors**: the gate descriptor bit-fields of `SET_GATE` (`Desc`), the
  assembler encoders `GATE_DESC`/`GEN_SEG_DESC`/`GEN_SEG_NULL` (`X86Asm`), and
  the IDT fill (`Idt`).

Some shared pieces:
- `Opt` is an Option type.
- `PortIo` holds the port events: byte writes, and word and long block
  transfers.
- Integer widths are written out where they matter. Examples are the
  32-bit product in hash32, the 32-bit byte count in the device listing,
  the 32-bit sum in the IDE range check, `print_num`'s conversion to a
  signed int, and the 16-bit `crt_pos`.

Where the code and the kernel's own description differ, this model
follows the code:
- schedule is not round-robin: it always picks the newest runnable task;
- wakeup_proc also turns a RUNNING task RUNNABLE;
- do_exit hands the children to init in reversed order.

Two operations are modelled with their evident intent where the code is
wrong. Each is listed under "## Left out" and "## Findings", with the code
as written modelled beside it:
- blk_init registers every present IDE slot;
- simple_pmm's alloc returns the page it carved, or NULL when no block fits.

## Model

| member | source | states |
|---|---|---|
| Sched.Hash32 | kern/sched/sched.c:35-38 | hash32 of a 32-bit value, taking the top `bits` bits of the wrapped product, is below 2^bits |
| Sched.PidHash | kern/sched/sched.c:28-30 | pid_hashfn always indexes one of the HASH_LIST_SIZE = 1024 chains |
| Sched.Wrap32 | kern/sched/sched.c:37 | the product reduced to a 32-bit unsigned value |
| Sched.TopBits | kern/sched/sched.c:37 | `w >> (32 - bits)` of a 32-bit word is below 2^bits |
| Sched.Remove | kern/sched/sched.c:164 | list_del on a list given as a sequence: exactly x goes, distinctness is kept, length drops by one when x was in it, unchanged when it was not |
| Sched.AllocProc | kern/sched/sched.c:53-69 | alloc_proc's record: UNINIT, pid -1, no stack, no mm, no frame, empty name, zero flags and wait state, zeroed context |
| Sched.CopyMm | kern/sched/sched.c:87-99 | copy_mm: the child ends up with the parent's mm (init_mm for kernel threads) and nothing else changes |
| Sched.Woken | kern/sched/sched.c:180-186 | wakeup_proc on a non-zombie: RUNNABLE afterwards whatever it was (RUNNING included), nothing else changes |
| Sched.StateStr | kern/sched/sched.c:379-388 | state_str: "U", "S", "R", "R+", "Z"; starts with 'R' iff runnable or running, two letters iff running |
| Sched.FirstRunnable | kern/sched/sched.c:199-208 | the scan of proc_list from its head: the index found is runnable and nothing before it is; none means nothing is runnable |
| Sched.PickNextIsNewestRunnable | kern/sched/sched.c:199-208 | schedule picks the runnable task nearest the head of proc_list, i.e. the newest one, not a round-robin successor |
| Sched.PickNextIdle | kern/sched/sched.c:200-208 | idle is chosen iff no task is runnable or idle is itself the first runnable task |
| Sched.Demote | kern/sched/sched.c:195-197 | the first step of schedule: a RUNNING current task becomes RUNNABLE, every other record is unchanged |
| Sched.ZombieNotPicked | kern/sched/sched.c:192-208 | a zombie other than idle is neither demoted nor picked by schedule |
| Sched.ZombieAmongAll | kern/sched/sched.c:302-306 | the per-child zombie test of do_exit's loop, accumulated, is "some moved child is a zombie" |
| Sched.LinkGraph | kern/sched/sched.c:151-161 | set_links keeps the family tree well formed, with x the youngest child of its parent |
| Sched.PrependChain | kern/sched/sched.c:155-159 | pushing x on the front of a child chain (optr = old head, old head's yptr = x, yptr = NULL) yields a consistent chain |
| Sched.UnlinkChain | kern/sched/sched.c:166-174 | remove_links' splice leaves the rest of the parent's chain consistent and in order |
| Sched.UnlinkGraph | kern/sched/sched.c:163-177 | remove_links of a childless task keeps the family tree well formed over the remaining tasks |
| Sched.LinkUnlinkRoundTrip | kern/sched/sched.c:151-177 | remove_links undoes set_links: every task other than x gets back its pointers, and list_del gives back the proc_list list_add extended |
| Sched.Adopt | kern/sched/sched.c:292-300 | one round of do_exit's loop: x's youngest child moves to the head of init's chain, with parent init and consistent sibling pointers |
| Sched.AdoptReady | kern/sched/sched.c:291-300 | before round i, x's youngest child is the i-th of its original children, registered and neither x nor init, and init's youngest child is another registered task |
| Sched.AdoptStep | kern/sched/sched.c:291-307 | the loop invariant of do_exit is kept by each round: the children moved so far head init's chain in reverse order |
| Sched.RoundReady | kern/sched/sched.c:291-307 | do_exit's loop runs exactly as many rounds as x has children and each round can adopt |
| Sched.RoundsMoved | kern/sched/sched.c:290-308 | after n rounds of the loop, the first n children have moved to init |
| Sched.WakeRound | kern/sched/sched.c:302-306 | one round's zombie test and wakeup of init advance init's record by one child |
| Sched.ReparentGraph | kern/sched/sched.c:289-308 | after the loop, x has no children, init's chain is x's children reversed before its own, and the tree is well formed |
| Sched.ReparentChildren | kern/sched/sched.c:299 | after the loop every former child of x has init as parent |
| Sched.OrphansOf | kern/sched/sched.c:290-291 | x's and init's child chains are disjoint, as the loop needs |
| Sched.HashAdd | kern/sched/sched.c:127-129 | hash_proc keeps every chain holding only tasks whose pid hashes to it |
| Sched.HashDrop | kern/sched/sched.c:131-133 | unhash_proc keeps the hash table and leaves the task in no chain |
| Sched.RecordsAdd | kern/sched/sched.c:261-262 | a record carrying next_pid keeps pids unique and below next_pid |
| Sched.LinkRoles | kern/sched/sched.c:151-161 | set_links of a task with a living parent keeps idle, init and current in their roles |
| Sched.UnlinkRoles | kern/sched/sched.c:163-177 | remove_links of a task with no role keeps the roles |
| Sched.ExitRoles | kern/sched/sched.c:274-308 | do_exit's stores keep the roles, with x a zombie and its children under init |
| Sched.WakeStep | kern/sched/sched.c:180-186 | wakeup_proc keeps the table invariant |
| Sched.DemoteStep | kern/sched/sched.c:195-197 | schedule's demotion keeps the table invariant |
| Sched.RunStep | kern/sched/sched.c:221-229 | proc_run to another living task keeps the table invariant with the new current task RUNNING |
| Sched.LinkStep | kern/sched/sched.c:151-161 | set_links keeps the table invariant, with nr_process one larger |
| Sched.UnlinkStep | kern/sched/sched.c:163-177 | remove_links of a childless zombie keeps the table invariant, with nr_process one smaller |
| Sched.ForkStep | kern/sched/sched.c:251-262 | do_fork's new hashed record keeps the table invariant and next_pid grows |
| Sched.ForkAll | kern/sched/sched.c:247-271 | do_fork as a whole keeps the table invariant |
| Sched.ExitTasks | kern/sched/sched.c:275-306 | do_exit's stores on records: x ZOMBIE with the exit code; the parent woken if it waits; init woken if a moved child is a zombie and init waits; nothing else changes |
| Sched.ExitStep | kern/sched/sched.c:274-308 | do_exit's stores after all rounds keep the table invariant with the relation reparented, and every former child has parent init |
| Sched.ExitWhole | kern/sched/sched.c:274-308 | do_exit's stores keep the table invariant, with x's children reparented to init |
| Sched.ExitAll | kern/sched/sched.c:274-308 | the same over the fields' new values: the table holds, every former child has parent init, x has no child |
| Sched.InitStep | kern/sched/sched.c:371-372 | naming the forked child init and recording it as init_proc keeps the table invariant |
| Sched.IdleStep | kern/sched/sched.c:318-337 | idle_init on empty lists yields a table holding idle alone |
| Sched.LinkReady | kern/sched/sched.c:155-159 | a registered parent's youngest child, if any, is another registered task |
| Sched.UnlinkReady | kern/sched/sched.c:163-177 | a zombie that is not current has a parent whose chain holds it between registered tasks, and it is neither idle nor init |
| Sched.ExitReady | kern/sched/sched.c:285-287 | the exiting task's parent, if any, is another living task, and init is alive |
| SchedOps.Scheduler.constructor | kern/sched/sched.c:20-32 | the state after the static initialisers and list_init: all lists empty, next_pid 1, no current task |
| SchedOps.Scheduler.CopyThread | kern/sched/sched.c:106-117 | copy_thread: the child's frame is the parent's with eax = 0, the given esp and IF set; the context resumes in forkret at the frame |
| SchedOps.Scheduler.Spawned | kern/sched/sched.c:251-261 | the child record: next pid, the parent's mm, the given stack, the copied frame and context |
| SchedOps.Scheduler.Forked | kern/sched/sched.c:247-271 | the child left in the table is the spawned record, RUNNABLE |
| SchedOps.Scheduler.GetPid | kern/sched/sched.c:120-124 | get_pid returns next_pid and advances it by one |
| SchedOps.Scheduler.HashProc | kern/sched/sched.c:127-129 | hash_proc puts the task at the front of exactly the chain pid_hashfn(pid) |
| SchedOps.Scheduler.UnhashProc | kern/sched/sched.c:131-133 | unhash_proc removes the task from its pid's chain |
| SchedOps.Scheduler.FindProc | kern/sched/sched.c:136-148 | find_proc: none for pid <= 0 (so idle is never found); otherwise exactly the hashed task carrying that pid, or none |
| SchedOps.Scheduler.SetLinks | kern/sched/sched.c:151-161 | set_links: prepended to proc_list, made its parent's youngest child, nr_process + 1 |
| SchedOps.Scheduler.RemoveLinks | kern/sched/sched.c:163-177 | remove_links: off proc_list, spliced out of its parent's chain, nr_process - 1 |
| SchedOps.Scheduler.WakeupProc | kern/sched/sched.c:180-186 | wakeup_proc requires a non-zombie and leaves it RUNNABLE |
| SchedOps.Scheduler.ProcRun | kern/sched/sched.c:221-244 | proc_run to the current task changes nothing; to another task, it becomes current and RUNNING |
| SchedOps.Scheduler.Schedule | kern/sched/sched.c:192-215 | schedule demotes a RUNNING current task, then runs the first RUNNABLE task of proc_list or idle |
| SchedOps.Scheduler.DoFork | kern/sched/sched.c:247-271 | do_fork returns the fresh pid and the child is hashed, linked as the youngest child of current, and RUNNABLE, with the table invariant kept |
| SchedOps.Scheduler.ForkCore | kern/sched/sched.c:251-268 | do_fork's stores in order: build, pid, hash, link, wake |
| SchedOps.Scheduler.ForkInsert | kern/sched/sched.c:251-262 | the first half of do_fork: the record built, numbered and hashed |
| SchedOps.Scheduler.DoExit | kern/sched/sched.c:274-315 | do_exit: current becomes ZOMBIE with the code, its children are init's, its parent is woken if it waits and init is woken on a zombie child if it waits (the table is exactly ExitTasks), then the task schedule picks from that table (PickNext, never x) is current and RUNNING, and the table invariant holds |
| SchedOps.Scheduler.ExitTable | kern/sched/sched.c:274-310 | do_exit up to schedule: the table holds again, x a zombie with no child, every former child under init |
| SchedOps.Scheduler.ExitCore | kern/sched/sched.c:275-308 | the stores of do_exit before schedule, as Rounds, ExitTasks and Reparent |
| SchedOps.Scheduler.HandChildren | kern/sched/sched.c:290-308 | the reparenting loop: all rounds run, and init is woken when a moved child is a zombie and init waits |
| SchedOps.Scheduler.AdoptOne | kern/sched/sched.c:292-306 | one round of the loop body |
| SchedOps.Scheduler.IdleInit | kern/sched/sched.c:318-337 | idle_init: pid 0, RUNNABLE, init_mm, current, the only hashed and listed task |
| SchedOps.Scheduler.IdleInstall | kern/sched/sched.c:329-336 | idle_init's stores in order: count, current, hash, list |
| SchedOps.Scheduler.InitProcInit | kern/sched/sched.c:354-376 | init_proc_init forks a child of idle, finds it by its pid and names it init |
| SchedOps.Scheduler.SchedInit | kern/sched/sched.c:418-429 | sched_init leaves idle (pid 0, current) and init (pid 1, idle's only child) in proc_list |
| Shell.StrncmpZero | kern/cons/shell.c:159-169 | strncmp is 0 iff the strings agree on their first n characters, counting s1's terminator |
| Shell.StrncmpAt | kern/cons/shell.c:159-169 | where strncmp is 0, the strings agree at each index before n up to s1's terminator |
| Shell.MatchesPrefix | kern/cons/shell.c:145-148 | an entry matches iff its name is a prefix of the line followed by the end or a space |
| Shell.FirstMatch | kern/cons/shell.c:143-152 | the index found matches and no earlier entry does; none means no entry matches |
| Shell.SkipSpaces | kern/cons/shell.c:135 | removes exactly the leading spaces |
| Shell.Execute | kern/cons/shell.c:133-157 | returns Empty (no output) iff the line is blank; otherwise the first matching command, or Unknown |
| Shell.FirstMatchIs | kern/cons/shell.c:143-152 | the first matching entry is the one dispatched |
| Shell.ExecuteRuns | kern/cons/shell.c:133-152 | a non-blank line runs the first entry matching it after its leading spaces |
| Shell.ExecuteFirst | kern/cons/shell.c:143-152 | a line without leading space runs the first entry that matches it |
| Shell.ExecuteNone | kern/cons/shell.c:143-156 | a line that no entry matches runs no command |
| Shell.NotPrefix | kern/cons/shell.c:147-148 | a line that differs from a name, or ends before it, does not match it |
| Shell.NotBeforeUname | kern/cons/shell.c:117-126 | no entry before "uname -a" matches a line starting with 'u' |
| Shell.UnameAll | kern/cons/shell.c:126 | "uname -a" runs cmd_uname_a |
| Shell.UnameBare | kern/cons/shell.c:127 | "uname" runs cmd_uname |
| Shell.UnameOther | kern/cons/shell.c:126-127 | "uname x" runs cmd_uname |
| Shell.UnameGlued | kern/cons/shell.c:147-148 | "unamex" matches nothing |
| Shell.ExecuteSpaces | kern/cons/shell.c:135 | leading spaces do not change what a line runs |
| Shell.LineEditor.constructor | kern/cons/shell.c:175-177 | shell_init: an empty line |
| Shell.LineEditor.Enter | kern/cons/shell.c:192-200 | Enter echoes a newline, runs Execute of the line, resets cmd_pos to 0 and prints the prompt |
| Shell.LineEditor.HandleChar | kern/cons/shell.c:186-223 | c <= 0 and DEL change nothing; '\n'/'\r' run the line; '\b' drops the last character only when there is one; a printable character is appended only while cmd_pos < 127 |
| Blk.DiskDevice | kern/drivers/blk.c:36-41 | the disk built for IDE slot i: type DISK, the slot's name and size, private data i, both operations set |
| Blk.ScanSound | kern/drivers/blk.c:33-44 | the registration scan yields one disk per present slot, in slot order |
| Blk.ScanComplete | kern/drivers/blk.c:33-44 | every present slot's disk is in the scan |
| Blk.RegisteredExact | kern/drivers/blk.c:22-45 | the intended registry holds a disk for slot i iff slot i is present, and there are at most four |
| Blk.LeadingSlotsAgree | kern/drivers/blk.c:32-33 | when the present slots are the leading ones, the loop as written registers them all |
| Blk.InitSkipsSlot | kern/drivers/blk.c:33 | with only slot 1 present the loop as written registers nothing, although the intended registry holds one disk |
| Blk.SizeTenths | kern/drivers/blk.c:117-124 | decimal <= 9 and size_mb.decimal is the size in MiB rounded down to a tenth |
| Blk.SizeAgrees | kern/drivers/blk.c:117-124 | below 2^23 blocks the 32-bit computation equals the exact one |
| Blk.SizeWraps | kern/drivers/blk.c:117 | a 0x800000-block disk lists as 0.0M as written, 4096.0M exactly |
| Blk.RowOf | kern/drivers/blk.c:106-137 | slot i's listing: major 8, minor 16*i, RM 0, RO 0, type "disk", "[SWAP]" for swap devices, and the size from the byte count wrapped to 32 bits, in whole MiB and a tenths digit; below 2^23 blocks that is the exact size in tenths of a MiB |
| Blk.Tenths | kern/drivers/blk.c:121-124 | from a byte count, size_mb and decimal give the size in MiB rounded down to a tenth, with decimal <= 9 |
| Blk.Registry.constructor | kern/drivers/blk.c:6-7 | every slot null, no device counted |
| Blk.Registry.Register | kern/drivers/blk.c:55-63 | blk_register: -1 and nothing changed when full, else stored at index num_devices, the count + 1, and 0 |
| Blk.Registry.GetDevice | kern/drivers/blk.c:68-75 | blk_get_device: the earliest registered device of the type, or none iff there is none |
| Blk.Registry.Init | kern/drivers/blk.c:19-50 | blk_init: registry emptied; hd_init run with its probe trace, its poll count and its two pic_enable write pairs for the IDE IRQ, and each IDE slot present exactly when its probe's DetectOk holds; then a disk for every present IDE slot in slot order |
| Blk.Registry.RegisterAll | kern/drivers/blk.c:33-45 | the registration loop fills the registry with the present slots' disks |
| Blk.Registry.Access | kern/drivers/blk.c:80-97 | blk_read/blk_write: -1 and no port access when the device or its operation is missing; otherwise the IDE transfer's result, 0 exactly when TransferRun succeeds, with its polls and events and hd.c's 32-bit range check |
| Blk.Registry.List | kern/drivers/blk.c:102-140 | blk_list_devices: one row per registered device, in registry order |
| Hd.DriveSel | kern/drivers/hd.c:171 | 0xF0 for a slave, 0xE0 for a master |
| Hd.ReadyWait | kern/drivers/hd.c:29-42 | a ready wait succeeds just after a poll with BSY clear and DRDY set, and fails after exactly the polls it was given when none is |
| Hd.ReadyWaitFirst | kern/drivers/hd.c:32-38 | a ready poll within the timeout makes the wait succeed no later than that poll, so a failed wait saw none and a successful one stops at the first |
| Hd.DataWait | kern/drivers/hd.c:49-67 | a data wait succeeds just after a poll with BSY clear and DRQ set, fails just after an earlier poll with ERR set, and otherwise fails once the polls run out |
| Hd.DataWaitFirst | kern/drivers/hd.c:52-64 | a poll with DRQ or ERR within the timeout ends the data wait no later than that poll |
| Hd.CoreRun | kern/drivers/hd.c:177-203 | one sector up to its data transfer: no events when the ready wait fails, the six command writes when the data wait fails, all seven when both succeed |
| Hd.SectorRun | kern/drivers/hd.c:177-203 | one sector: at most seven events, all seven when it succeeds; a read succeeds exactly when it issues all seven; it issues nothing exactly when its first ready wait fails |
| Hd.TransferRun | kern/drivers/hd.c:174-206 | a transfer of n sectors issues at most 7n events, all 7n when it succeeds; a read succeeds exactly when it issues all 7n |
| Hd.StopsAtFailure | kern/drivers/hd.c:178-180 | once a sector fails, later sectors add no polls and no events |
| Hd.FailedRun | kern/drivers/hd.c:174-199 | a transfer whose sector i fails after i good sectors ends at that sector's last poll, with 7i events plus the failed sector's |
| Hd.TraceAdvance | kern/drivers/hd.c:174-204 | the events so far are the first 7i + k of the whole transfer, and all of sector i when k is 7 |
| Hd.SectorAdvance | kern/drivers/hd.c:174-204 | one more sector either extends a successful run by one sector or ends the whole transfer's run, with its polls and events |
| Hd.HealthySector | kern/drivers/hd.c:177-203 | on a disk always reading DRDY and DRQ a sector succeeds with two polls, three for a write |
| Hd.HealthyDisk | kern/drivers/hd.c:174-206 | on such a disk an n-sector transfer succeeds with 2n polls (3n for a write) and 7n events |
| Hd.BusyNeverReady | kern/drivers/hd.c:29-42 | a ready wait on a disk that stays busy fails after all its polls |
| Hd.BusyDisk | kern/drivers/hd.c:174-180 | a disk that stays busy fails any transfer after 100000 polls, issuing nothing |
| Hd.Identified | kern/drivers/hd.c:106-120 | the slot filled from IDENTIFY: present, valid, size from words 60-61, or cylinders*heads*sectors when that is 0; the product is exact while it stays below 2^31 and is taken modulo 2^32 beyond |
| Hd.IdentifiedSizeExact | kern/drivers/hd.c:115-117 | with words 60-61 zero and cylinders * heads and the whole product below 2^31, where C defines it, the size is the CHS product exactly |
| Hd.DeviceByte | kern/drivers/hd.c:191 | the device register byte fits in a byte |
| Hd.SectorCommand | kern/drivers/hd.c:183-194 | six register writes per sector |
| Hd.SectorCommandLba | kern/drivers/hd.c:186-191 | for an LBA below 2^28 the LOW/MID/HIGH bytes and the device nibble reassemble it, and the high nibble is the drive select |
| Hd.LbaDigits | kern/drivers/hd.c:186-189 | the three low LBA bytes and bits 24-27 put back together give the LBA |
| Hd.SectorEvents | kern/drivers/hd.c:183-203 | one sector's seven events: the six-register command, then the 256-word transfer |
| Hd.TransferEvents | kern/drivers/hd.c:174-204 | seven events per sector; sector i goes to LBA secno + i in 32 bits |
| Hd.TransferStep | kern/drivers/hd.c:174-204 | one sector more adds that sector's events, for LBA secno + i in 32 bits, at the end |
| Hd.TransferPrefix | kern/drivers/hd.c:174-204 | a shorter transfer's events are a prefix of a longer one's |
| Hd.StoppedPrefix | kern/drivers/hd.c:178-199 | the first 7i + k events of a transfer are all of the first i sectors and the first k of sector i |
| Hd.RangeCheckWraps | kern/drivers/hd.c:166 | the 32-bit sum lets secno 0xFFFFFFFF, nsecs 2 pass on a 100-sector disk |
| Hd.InRangeLba | kern/drivers/hd.c:166-175 | under the intended check, each LBA secno + i is on the disk and does not wrap |
| Hd.WrappedTransfer | kern/drivers/hd.c:174-204 | the request the written check lets through sends its two sectors to LBA 0xFFFFFFFF, then LBA 0 |
| Hd.RangeChecksAgree | kern/drivers/hd.c:166 | without wrap-around the written and intended checks agree |
| Hd.ProbeWrites | kern/drivers/hd.c:80-88 | drive select, then IDENTIFY |
| Hd.Ide.constructor | kern/drivers/hd.c:9-10 | every slot zeroed, no device counted |
| Hd.Ide.WaitReady | kern/drivers/hd.c:29-42 | hd_wait_ready_on_base: 0 or -1, 0 exactly when ReadyWait over the next 100000 polls succeeds, and the polls end where that wait stops |
| Hd.Ide.WaitData | kern/drivers/hd.c:49-67 | hd_wait_data_on_base: 0 or -1, 0 exactly when DataWait over the next 100000 polls succeeds, and the polls end where that wait stops |
| Hd.Ide.Probe | kern/drivers/hd.c:80-91 | select, four status reads, IDENTIFY, a fifth status read returned |
| Hd.Ide.Detect | kern/drivers/hd.c:74-129 | hd_detect_device: 0 exactly when DetectOk holds for its first poll (the fifth status is neither 0 nor 0xFF and the data wait succeeds), the slot then filled from IDENTIFY and otherwise untouched; the polls end at DetectStop |
| Hd.Ide.ClearSlots | kern/drivers/hd.c:140-143 | present and valid cleared in all four slots |
| Hd.Ide.DetectAll | kern/drivers/hd.c:145-152 | each slot probed in order, its probe events appended after the previous slot's; slot i is present exactly when DetectOk holds at ProbeStart i, the first poll of its probe; the polls end at ProbeStart 4; num_devices is the number found |
| Hd.Ide.DetectNext | kern/drivers/hd.c:148-152 | one round: slot i present exactly when DetectOk holds at the current poll, its probe events appended, the polls ending at DetectStop, and the count growing by one exactly when the slot was found |
| Hd.ProbeTraceStep | kern/drivers/hd.c:148-152 | probing one slot more appends that slot's events and counts it iff it is present |
| Hd.Ide.Init | kern/drivers/hd.c:134-155 | hd_init: the PIC's mask writes for enabling IRQ 14 twice, slots cleared, then each slot present exactly when its probe's DetectOk holds, with the probe events of the four slots in order |
| Hd.Ide.Sector | kern/drivers/hd.c:177-203 | one sector: 0 exactly when SectorRun from the current poll succeeds; the polls end where that run stops and the trace gains that run's prefix of the sector's events |
| Hd.Ide.SectorCore | kern/drivers/hd.c:177-203 | the shared part of a sector: 0 exactly when CoreRun succeeds, with its polls and its prefix of the sector's events |
| Hd.Ide.CommandData | kern/drivers/hd.c:182-203 | once the disk is ready: 0 exactly when DataWait succeeds; the six command writes, then the 256-word transfer only on success; the polls end where the data wait stops |
| Hd.Ide.Sectors | kern/drivers/hd.c:174-206 | the sector loop: 0 exactly when TransferRun for nsecs sectors succeeds; the polls end where that run stops and the trace gains that run's prefix of the transfer's events |
| Hd.Ide.NextSector | kern/drivers/hd.c:174-204 | one round of the loop: after i good sectors either i + 1 good sectors, or the whole transfer's failed run with its polls and events |
| Hd.Ide.Transfer | kern/drivers/hd.c:160-264 | hd_read_device/hd_write_device: -1 before any port access when absent or when the 32-bit sum secno + nsecs exceeds the size; else 0 exactly when TransferRun succeeds, with its polls and events, so a request whose sum wraps reaches the disk with wrapped LBAs |
| Hd.Ide.GetDevice | kern/drivers/hd.c:269-275 | none exactly when the slot is not present |
| Hd.Ide.GetDeviceCount | kern/drivers/hd.c:280-282 | returns num_devices |
| Cga.Cell | kern/drivers/cga.c:22 | a cell with attribute 0x07 in its high byte and the character in its low byte |
| Cga.NextPos | kern/drivers/cga.c:24-39 | the new position stays a 16-bit value |
| Cga.Written | kern/drivers/cga.c:24-39 | the buffer keeps its size |
| Cga.CursorBytes | kern/drivers/cga.c:41-44 | registers 14 and 15 receive the high and low bytes of the new position |
| Cga.WrittenCells | kern/drivers/cga.c:24-39 | at most one cell changes: pos-1 with a blank for '\b', pos with the character otherwise, never for '\n'/'\r'; it carries attribute 0x07 |
| Cga.NewlinePos | kern/drivers/cga.c:31-35 | '\n' falls through to '\r': column 0 of the next row |
| Cga.ReturnPos | kern/drivers/cga.c:33-35 | '\r' goes to column 0 of the same row |
| Cga.StepPos | kern/drivers/cga.c:25-38 | '\b' moves back one unless at 0; any other character moves forward one |
| Cga.Console.constructor | kern/drivers/cga.c:14-19 | cga_init reads the position from registers 14 and 15 |
| Cga.Console.Putc | kern/drivers/cga.c:21-45 | cga_putc updates the position and the buffer as NextPos and Written, then writes the cursor |
| Stdio.PrintDigit | kern/cons/stdio.c:8-14 | print_digit emits at least one character |
| Stdio.PrintDigitDigits | kern/cons/stdio.c:8-14 | for num >= 0 every character is a digit of the base |
| Stdio.DigitRoundTrip | kern/cons/stdio.c:13 | a digit's character ('0'+d, or 'A'+d-10) reads back as d |
| Stdio.PrintDigitStep | kern/cons/stdio.c:9-13 | the digits of num / base first, then the last digit |
| Stdio.PrintDigitReads | kern/cons/stdio.c:8-14 | the digits printed read back as num |
| Stdio.PrintDigitLeading | kern/cons/stdio.c:8-14 | no leading zero: the first character is '0' iff num is 0 |
| Stdio.PrintNum | kern/cons/stdio.c:16-19 | the argument kept unsigned: digits of the base that read back as the argument |
| Stdio.PrintNumHighBit | kern/cons/stdio.c:17 | %x of 0x80000000 prints one non-digit character instead of "80000000" |
| Stdio.PrintNumLow | kern/cons/stdio.c:17 | below 2^31 the written and unsigned readings agree |
| Stdio.Format | kern/cons/stdio.c:27-53 | the number of arguments used is the number of x/d conversions met; each conversion prints its argument as print_num reads it, converted to int |
| Stdio.FormatVerbatim | kern/cons/stdio.c:30-35 | text without '%' is printed verbatim and uses no argument |
| Stdio.Chars | kern/cons/stdio.c:34 | the characters as the ints handed to cons_putc |
| Stdio.FormatSwallowed | kern/cons/stdio.c:46-47 | after '%', text with no 'x' or 'd' is dropped |
| Stdio.FormatUnsupported | kern/cons/stdio.c:30-47 | "%s" and the like: the text before '%' is printed, the rest is swallowed |
| Stdio.FormatOne | kern/cons/stdio.c:17-45 | "%x" and "%d" print their one argument through print_num in base 16 and 10: its unsigned digits below 2^31, and for 0x80000000 one character that is no hex digit |
| Stdio.FormatHead | kern/cons/stdio.c:27-53 | one step of the walk, in each state |
| Stdio.Advance | kern/cons/stdio.c:28-52 | each of the four switch cases keeps the loop state |
| Stdio.Cprintf | kern/cons/stdio.c:21-55 | cprintf's loop prints and uses exactly what Format says |
| Memory.Copied | kern/include/memory.h:16-19 | a front-to-back copy changes only the destination bytes |
| Memory.CopiedDisjoint | kern/include/memory.h:13-20 | for non-overlapping regions the destination receives the original source bytes |
| Memory.Memset | kern/include/memory.h:5-11 | bytes s..s+n-1 become c, every other byte is kept, s is returned |
| Memory.Memcpy | kern/include/memory.h:13-20 | the copy is Copied, front to back, and dst is returned |
| Memory.MemcpyDisjoint | kern/include/memory.h:13-20 | for non-overlapping regions, dst..dst+n-1 hold the original source and nothing else changes |
| Pmm.PagingPages | kern/mm/pmm.c:6-7 | PAGING_PAGES is 3840 |
| Pmm.FreedAligned | kern/mm/pmm.c:22-26 | for page-aligned bounds an entry is freed iff its page lies in [start, end) |
| Pmm.BelowSixteenMiB | kern/mm/pmm.c:16-26 | bounds in [0x100000, 16 MiB] keep the freed entries inside mem_map |
| Pmm.MemMap.constructor | kern/mm/pmm.c:10 | mem_map zero-initialised |
| Pmm.MemMap.Init | kern/mm/pmm.c:12-27 | pmm_init: the entries from MAP_NR(start) for (end-start)>>12 pages are 0, all others USED |
| Pmm.ReversedFreesNothing | kern/mm/pmm.c:22-26 | with end_mem below start_mem the shifted count is negative and no entry is freed, so pmm_init leaves every entry USED |
| Pic.Lo | kern/drivers/pic.c:11 | the master's byte |
| Pic.Hi | kern/drivers/pic.c:12 | the slave's byte |
| Pic.ClearBit | kern/drivers/pic.c:16 | clearing a bit keeps every other bit |
| Pic.EnabledBit | kern/drivers/pic.c:15-17 | pic_enable clears exactly bit irq |
| Pic.EnabledIdempotent | kern/drivers/pic.c:15-17 | unmasking twice is unmasking once |
| Pic.EnabledMonotone | kern/drivers/pic.c:15-17 | mask bits only go from 1 to 0 |
| Pic.Controller.constructor | kern/drivers/pic.c:7 | irq_mask starts at 0xFFFF |
| Pic.Controller.SetMask | kern/drivers/pic.c:9-13 | the mask stored; low byte to PIC1_IMR, high byte to PIC2_IMR |
| Pic.Controller.Enable | kern/drivers/pic.c:15-17 | the line's bit cleared and the new mask written out |
| Pic.Controller.Init | kern/drivers/pic.c:19-21 | from 0xFFFF the mask ends at 0xFFFB |
| Time.TimerBytes | kern/driver/time.c:14-15 | TIMER_DIV(100) = 11931; the low and high bytes written put it back together |
| Time.ModeByte | kern/driver/time.c:10-12 | SEL0, RATEGEN and 16BIT make 0x34 |
| Time.BcdToBin | kern/driver/time.c:22 | BCD_TO_BIN of a byte is at most 165 |
| Time.BinToBcd | kern/driver/time.c:22 | the BCD byte of a number below 100 has two BCD digits |
| Time.BcdRoundTrip | kern/driver/time.c:22 | on a valid BCD byte the result is its two-digit decimal reading, below 100, and BinToBcd undoes it |
| Time.BinRoundTrip | kern/driver/time.c:22 | every number below 100 comes back from its BCD byte |
| Time.SelectOr | kern/driver/time.c:18 | 0x80 \| addr adds 0x80 for a register below 0x80 |
| Time.RoundWrites | kern/driver/time.c:27-34 | a round makes seven address writes |
| Time.Rounds | kern/driver/time.c:27-34 | n rounds make 7n address writes |
| Time.RoundOrder | kern/driver/time.c:27-34 | a round selects registers 0, 2, 4, 7, 8, 9 in order, then 0 again |
| Time.ToBcd | kern/driver/time.c:36-41 | a calendar below 100 in each field encodes to one byte per field |
| Time.FromBcdToBcd | kern/driver/time.c:36-41 | a clock showing a calendar in BCD is read back as that calendar |
| Time.CmosRead | kern/driver/time.c:17-20 | CMOS_READ writes 0x80\|addr to port 0x70 and returns the byte read from 0x71 |
| Time.SampleRound | kern/driver/time.c:27-34 | one pass reads the six registers and then the seconds again |
| Time.SampleUntilSettled | kern/driver/time.c:27-34 | the loop stops at the first round whose re-read seconds equal the sampled ones |
| Time.TimerSetup | kern/driver/time.c:43-46 | mode 0x34 to port 0x43, then 0x9B and 0x2E to port 0x40 |
| Time.TimeInit | kern/driver/time.c:24-49 | time_init: the settled sample converted from BCD, the timer programmed, IRQ 0 unmasked |
| SimplePmm.SetReserved | kern/mm/simple_pmm.c:17 | SET_PAGE_RESERVED sets bit 0 and keeps the other bits |
| SimplePmm.ClearReserved | kern/mm/simple_pmm.c:44 | CLEAR_PAGE_RESERVED clears bit 0 and keeps the other bits |
| SimplePmm.Cleared | kern/mm/simple_pmm.c:12-14 | ref, flags and property zeroed, the rest kept |
| SimplePmm.BlockHead | kern/mm/simple_pmm.c:16-17 | property n and the reserved bit set |
| SimplePmm.FirstFit | kern/mm/simple_pmm.c:26-34 | the block found has at least n pages |
| SimplePmm.FirstFitFirst | kern/mm/simple_pmm.c:28-33 | no earlier block, and none at all when none is found, has n pages |
| SimplePmm.FirstFitIs | kern/mm/simple_pmm.c:28-33 | the first block that fits is the one found |
| SimplePmm.CarveWellFormed | kern/mm/simple_pmm.c:35-45 | carving keeps the free list's blocks inside the page array and disjoint |
| SimplePmm.CarveSum | kern/mm/simple_pmm.c:35-45 | carving takes exactly n pages off the free total and the chosen block leaves the list |
| SimplePmm.CarveSumSplit | kern/mm/simple_pmm.c:36-43 | with pages to spare, the remainder at page+n keeps all but n pages in the list |
| SimplePmm.CarveSumWhole | kern/mm/simple_pmm.c:42-43 | a block of exactly n pages leaves with its n pages |
| SimplePmm.CarveUnlisted | kern/mm/simple_pmm.c:40-42 | the chosen block is no longer listed |
| SimplePmm.NewBlock | kern/mm/simple_pmm.c:10-20 | a new n-page block at the tail keeps the list well formed and adds n to the sum |
| SimplePmm.AppendBlock | kern/mm/simple_pmm.c:18-19 | list_add_before at the tail of the free list keeps it well formed and adds the block's pages to the total |
| SimplePmm.FragmentedRefusal | kern/mm/simple_pmm.c:23-34 | a request no single block covers is refused although the free total would cover it |
| SimplePmm.AllocReturnsNothing | kern/mm/simple_pmm.c:35-46 | a satisfied request reaches the end of alloc without a return value |
| SimplePmm.NoFitReturnsNothing | kern/mm/simple_pmm.c:23-46 | a request within nr_free that no block covers also reaches the end of alloc without a return value |
| SimplePmm.Allocator.constructor | kern/mm/simple_pmm.c:3 | an empty free area |
| SimplePmm.Allocator.Init | kern/mm/simple_pmm.c:5-8 | init: empty free list, nr_free 0 |
| SimplePmm.Allocator.InitMemmap | kern/mm/simple_pmm.c:10-20 | init_memmap: the n pages cleared, base made a reserved n-page head at the list tail, nr_free + n, the invariant kept |
| SimplePmm.Allocator.ClearRange | kern/mm/simple_pmm.c:11-15 | the first loop clears exactly the n pages from base |
| SimplePmm.Allocator.MakeHead | kern/mm/simple_pmm.c:16-17 | base gets length n and the reserved bit |
| SimplePmm.Allocator.FindFirstFit | kern/mm/simple_pmm.c:26-34 | the list walk returns the first block with property >= n, or none |
| SimplePmm.Allocator.Alloc | kern/mm/simple_pmm.c:22-46 | alloc: no change when n > nr_free or nothing fits; else the first fit is carved, its page returned (the intended value, see Findings), nr_free - n, and the invariant kept |
| SimplePmm.Allocator.Carve | kern/mm/simple_pmm.c:36-44 | the remainder head is set up and linked after the block, then the block is unlinked and loses the reserved bit |
| SimplePmm.Allocator.NrFreePages | kern/mm/simple_pmm.c:51-53 | nr_free_pages is the number of pages in the listed blocks |
| Boot.DiskReadyBits | boot/bootload.c:8 | (status & 0xC0) == 0x40 iff BSY clear and DRDY set |
| Boot.SectWrites | boot/bootload.c:15-24 | count 1 first, command 0x20 to 0x1F7, then 128 long reads from 0x1F0 |
| Boot.SectLba | boot/bootload.c:16-19 | the four LBA bytes hold secno's low 28 bits, and the top nibble is 0xE |
| Boot.SegTrace | boot/bootload.c:34-36 | seven accesses per sector |
| Boot.PortsAppend | boot/bootload.c:34-36 | the accesses of two lists of reads are those of each in turn |
| Boot.SectorsPorts | boot/bootload.c:34-36 | consecutive sectors issue SegTrace |
| Boot.SectPorts | boot/bootload.c:12-25 | a sector read appends readsect's seven accesses |
| Boot.SegStart | boot/bootload.c:30 | va - offset % 512 wraps within 32 bits |
| Boot.SegLoads | boot/bootload.c:32-36 | consecutive sectors from offset/512 + 1 into consecutive 512-byte slots |
| Boot.StepBelow | boot/bootload.c:34 | the k-th step stays below end_va iff k is below the sector count |
| Boot.SegCount | boot/bootload.c:28-36 | readseg reads ceil((count + offset%512)/512) sectors |
| Boot.SegCovers | boot/bootload.c:27-37 | the loads cover [va, va+count), and each byte comes from the image byte offset + (a - va) |
| Boot.SegStartWraps | boot/bootload.c:30-34 | a destination below offset % 512 wraps and reads nothing |
| Boot.SegPorts | boot/bootload.c:27-37 | readseg's accesses are SegTrace from sector offset/512 + 1 |
| Boot.MagicBytes | boot/bootload.c:43 | ELF_MAGIC is the little-endian word of exactly 0x7F 'E' 'L' 'F' |
| Boot.HeaderLoads | boot/bootload.c:41 | the header is read from sectors 1 to 8 into eight consecutive slots |
| Boot.PhLoadsPrefix | boot/bootload.c:49-51 | the loads of the first j segments prefix those of the first k |
| Boot.PhLoadsAt | boot/bootload.c:49-51 | each segment's loads appear whole, once, in header order |
| Boot.Loader.constructor | boot/bootload.c:7-10 | a disk that becomes ready after every poll count |
| Boot.Loader.WaitDisk | boot/bootload.c:7-10 | waitdisk returns at the first ready status |
| Boot.Loader.ReadSect | boot/bootload.c:12-25 | readsect waits twice and records one sector read to dst |
| Boot.Loader.ReadSeg | boot/bootload.c:27-37 | readseg records exactly SegLoads |
| Boot.Loader.Bootmain | boot/bootload.c:39-57 | the header is always read; spin on a bad magic, with nothing asked of the program headers; else each segment loaded at p_va & 0xFFFFFF and a jump to e_entry & 0xFFFFFF |
| Boot.Loader.LoadSegments | boot/bootload.c:47-51 | the program header loop loads each segment in turn |
| Boot.Loader.LoadSegment | boot/bootload.c:50 | readseg(p_va & 0xFFFFFF, p_memsz, p_offset) |
| Desc.SetGate | include/kernel/desc.h:30-40 | every field fits its bit-field width |
| Desc.OffsetRoundTrip | include/kernel/desc.h:31-39 | the two offset halves recombine to (uint32_t)addr |
| Desc.SetGateFields | include/kernel/desc.h:32-38 | p = 1, s = 0, args = 0, rsv1 = 0; selector, type and DPL as given |
| Desc.HighWordIsGateDesc | include/kernel/desc.h:19-26 | the low half of the gate's second word equals GATE_DESC(type, dpl), as the assembler variant writes it |
| Desc.SysIsUserTrap | include/kernel/desc.h:43-44 | SET_SYS_GATE is SET_TRAP_GATE with DPL_USER; SET_TRAP_GATE has DPL_KERNEL |
| X86Asm.GateDescBits | include/arch/x86/x86_asm.h:7 | P in bit 15, DPL in bits 13-14, S clear, type in bits 8-11, low byte 0 |
| X86Asm.GenSegDesc | include/arch/x86/x86_asm.h:14-16 | eight bytes |
| X86Asm.GenSegNull | include/arch/x86/x86_asm.h:10-12 | eight bytes |
| X86Asm.SegBaseRoundTrip | include/arch/x86/x86_asm.h:15-16 | the three base fields reassemble to base |
| X86Asm.SegLimitPages | include/arch/x86/x86_asm.h:15-16 | the 20-bit limit is lim >> 12 |
| X86Asm.SegAccessFlags | include/arch/x86/x86_asm.h:16 | access byte 0x90 \| type (present, S = 1, DPL 0); flags 0xC (G = 1, D/B = 1) |
| X86Asm.SegBytes | include/arch/x86/x86_asm.h:15-16 | every emitted byte fits in a byte |
| X86Asm.SegByteLimit | include/arch/x86/x86_asm.h:14-16 | the segment ends at lim rounded up to its page end |
| X86Asm.SegNull | include/arch/x86/x86_asm.h:10-12 | eight zero bytes: not present |
| Idt.EntryShape | kern/arch/x86/idt.c:11-13 | every entry is present, TG32, GD_KTEXT, offset __vectors[i]; DPL_USER iff i = 0x80, else DPL_KERNEL |
| Idt.Table.constructor | kern/arch/x86/idt.c:7 | the table holds 256 gates |
| Idt.Table.Init | kern/arch/x86/idt.c:10-14 | idt_init: every entry a trap gate to its stub, then entry 0x80 a system gate |

## Left out

- Context switching is not modelled: `switch_to`, `forkret`/`trapret`, `lcr3` and `proc_get_cr3`. proc_run only updates `current` and the task state. `intr_save`/`intr_restore` are read as making each operation atomic on the single CPU.
- `kmalloc`, `alloc_page` and `page2kva` are parameters. The record's slot and the kernel stack address are given to do_fork, which never checks them for failure.
- SchedOps.Scheduler.GetPid: requires next_pid below INT_MAX, because the signed overflow of `next_pid++` is undefined in C.
- SchedOps.Scheduler.DoExit: requires the exiting task to be neither idle nor init. As written, init exiting with children would loop handing them to itself, and idle exiting would break the tree. It also requires init_proc to be set, so the `init_proc != NULL` guard at kern/sched/sched.c:290 is always taken. This holds at every call after sched_init.
- SchedOps.Scheduler.ProcRun: requires the current task not to be RUNNING, and the target to be a listed task that is not a zombie. proc_run itself accepts a RUNNING current task. Its only caller, schedule, demotes the current task first and picks only runnable tasks or idle.
- SchedOps.Scheduler.WakeupProc: wakeup_proc's `assert` on zombies is a precondition.
- SchedOps.Scheduler.RemoveLinks: stated for a task with a parent. The table lemma (Sched.UnlinkStep) covers a childless zombie, which is how reaping would use it. Nothing in sched.c calls it.
- The `panic` after schedule in do_exit, `init_main`'s endless loop and `print_all_procs`' text output are not modelled. state_str is modelled as Sched.StateStr.
- `task_struct` and `trap_frame` are not part of this model's sources. Their fields are taken from their uses in sched.c. KSTACK_SIZE minus the frame size is the constant `frameSlot`.
- Shell: the bodies of the `cmd_*` functions and the banner are not modelled. A command appears as the table entry that was chosen. `cons_defs.h` is not part of this model: ASCII_DEL is taken as 127 and the printable range as [32, 127).
- Shell.LineEditor.HandleChar: the `char` argument is taken as a signed 8-bit value.
- Cga.Console.Putc: takes the character as a byte (c < 256). The or with 0x0700 on a wider int is not modelled.
- Memory: memory is one flat byte array. Pointers are indices into it, and accesses outside it are excluded by the preconditions.
- Pmm.MemMap.Init: requires start_mem >= 0x100000 and, when end_mem >= start_mem, the freed entries to lie inside `mem_map` (Pmm.InMap). The code has no bounds check, so other inputs write outside the array. With end_mem below start_mem the call is accepted and frees nothing.
- Pic.Enabled: the line number is held in 16 bits and must be below 32, because a shift by 32 or more is undefined in C.
- Hd: sector data is not modelled, only the block transfer events. The copy of the device name is not modelled. One status oracle serves both channels.
- Hd: both channels use IRQ 14. This is the value of IRQ_IDE1 and IRQ_IDE2 in include/arch/x86/x86_def.h:71-72.
- Hd.Identified: cylinders * heads * sectors is computed in signed int, because the three uint16_t fields are promoted, so a product, or a partial product cylinders * heads, of 2^31 or more is undefined behaviour in C. The model takes such a product modulo 2^32, which is what a two's-complement build usually does, and promises the exact product only below 2^31.
- Time.TimeInit: the converted calendar is returned, because the kernel discards it. The loop needs a round in which the clock does not tick, which is given as a ghost witness.
- Blk: the read and write function pointers are flags, and the private data is the slot number. Registering NULL and aliasing of device structures are not modelled. The lsblk text is not modelled, only its values.
- Blk.Registry.Init: registers the intended set, a disk for every present slot, through Blk.Registry.RegisterAll, which loops over all four IDE slots. The loop as written, bounded by hd_get_device_count, is Blk.RegisteredAsWritten (see Findings).
- SimplePmm.Allocator.Alloc: requires n > 0. `alloc(0)` would `list_add` the chosen block after itself and break the list. Once n <= nr_free, kern/mm/simple_pmm.c:35-46 has no return statement on either path, so the caller gets an indeterminate value. The model returns the intended values instead: the carved block's page on success, and None (NULL) when no block fits. SimplePmm.AllocReturnsNothing and SimplePmm.NoFitReturnsNothing model the code as written (see Findings).
- SimplePmm.Allocator.InitMemmap: requires the new range not to meet a listed block.
- `free` in simple_pmm.c is empty and is not modelled.
- simple_pmm.h and the list helpers are not part of this model. The free list is a sequence of block heads, with list_add_before/list_add/list_del read from how they are used. SET_PAGE_RESERVED is read as setting bit PG_RESERVED = 0.
- Stdio.Format: takes format characters as ASCII, emitting each as its non-negative code. cprintf reads the format into a `char`, which is signed on i386, so a format byte of 0x80 or more reaches `cons_putc(int c)` (kern/cons/cons.c:21) as a negative int.
- Stdio.Chars: the same: it gives each character's non-negative code, which is what cons_putc receives for ASCII text only.
- Stdio: the digit lemmas are stated for bases 10 and 16, the two bases cprintf uses (kern/cons/stdio.c:39, 43). `cons_putc` is the output sequence.
- Boot.Loader.WaitDisk: the disk is required to become ready eventually (Live). The endless spin of a dead disk is not modelled.
- Boot.Loader.ReadSeg: requires va + count to leave one sector below 2^32. Otherwise `va += SECTSIZE` could wrap and the loop would not end.
- Boot.Loader.Bootmain: KERNEL_HEADER is a parameter, because defs/x86/seg.h is not part of this model. The header and program headers are given as already read. A segment that overwrites the header area is not modelled. The jump and the spin are an Outcome value.
- Boot: the port accesses are derived from the list of sector loads, and the status polls are not interleaved with them.
- Desc: the `_ASM_` variant of SET_GATE (include/kernel/desc.h:19-26) is not modelled separately. Desc.HighWordIsGateDesc shows that its immediate equals GATE_DESC.
- Idt: `__vectors` holds 32-bit addresses, given as a parameter.

## Findings

The stdio, hd and blk size rows describe code that the operations model
as written:
- Stdio.Cprintf prints through print_num's int conversion;
- Hd.Ide.Transfer applies the 32-bit range check;
- Blk.RowOf lists the wrapped byte count.

For these rows the corrected member proves the intended behaviour beside
the operation. For the blk_init and alloc rows, the operations follow the
corrected behaviour, as "## Left out" records.

| source | as written | input that shows it | evidently intended | confidence | as-written member | corrected member |
|---|---|---|---|---|---|---|
| kern/cons/stdio.c:17 | `int num = va_arg(*args, unsigned int)` turns arguments from 2^31 up negative; print_digit then emits one bogus character | `cprintf("%x", 0x80000000)` prints `'0' - 0x80000000` | print the unsigned value, "80000000" | not executed | Stdio.PrintNumHighBit | Stdio.PrintNum |
| kern/drivers/hd.c:166 | `secno + nsecs > size` is computed in 32 bits and wraps | secno 0xFFFFFFFF, nsecs 2, size 100 passes the check | every sector secno + i lies below size | not executed | Hd.RangeCheckWraps | Hd.InRangeLba |
| kern/drivers/blk.c:33 | the loop runs over slots 0 .. num_hd-1, but num_hd counts present slots, which need not be the leading ones | only slot 1 (hdb) present: num_hd = 1, slot 0 is examined, nothing is registered | register every present slot | not executed | Blk.InitSkipsSlot | Blk.RegisteredExact |
| kern/drivers/blk.c:117 | `size * BLK_SIZE` is stored in a uint32_t and wraps at 4 GiB | a disk of 0x800000 blocks lists as 0.0M | 4096.0M | not executed | Blk.SizeWraps | Blk.SizeTenths |
| kern/mm/simple_pmm.c:35-46 | the success path of alloc has no return statement | one free 4-page block, alloc(1) | return the allocated page | not executed | SimplePmm.AllocReturnsNothing | SimplePmm.Allocator.Alloc |
| kern/mm/simple_pmm.c:35-46 | the no-fit path with n <= nr_free has no return statement either | two free 2-page blocks, alloc(3) | return NULL | not executed | SimplePmm.NoFitReturnsNothing | SimplePmm.Allocator.Alloc |
