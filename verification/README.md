# KA9Q NOS: a verified model of its stateful cores

KA9Q NOS is a TCP/IP and packet-radio package that brings its own multitasking kernel, heap, terminal, file
streams and timers. Each of these keeps an invariant that spans many functions and that no single function
shows. This project models eleven of these cores in Dafny, with the branches, constants and corner cases of the
C code, and proves what they keep over whole runs.

`dafny verify dfyconfig.toml` checks everything.

| file | core | main results |
|---|---|---|
| `kernelspec.dfy`, `kernelcalls.dfy` | processes and queues of core/kernel.c, as values | every reachable state has each process on exactly the queue its flags and event select; `ksig` in closed form |
| `kernellaws.dfy` | the same calls, as their callers see them | a wait is posted before the queued signals are served; a signal returns 0; who runs first |
| `kernellinks.dfy`, `kernel.dfy` | the same, as linked descriptors and a signal ring updated in place | each call refines its specification |
| `common.dfy`, `chains.dfy` | what several cores share: lists, machine integers, remainders; linked nodes in memory | unlinking and pushing keep every list of a family linked |
| `runner.dfy` | the pthread realisation (unix/ksubr_unix.c) | one runner, assertions, nobody stranded, no deadlock, under every interleaving |
| `wakeup.dfy` | receive ring and its sleep and wake protocol (unix/unix_socket.c) | no lost wake-up, exactly for rings below 65536 bytes; exactly when a signal is safe |
| `heapspec.dfy`, `heap.dfy`, `heaplaws.dfy` | msdos/alloc.c | one address-ordered circle of disjoint, never adjacent chunks; conservation, unit by unit; both searches |
| `terminal.dfy`, `display.dfy` | msdos/display.c | the ring of lines is a list that only grows; dirty ranges are sound; exactly when the cursor stays on the screen, and up to which width |
| `terminallaws.dfy` | the terminal, byte by byte as it is sent | which cells and which cursor every control character and escape sequence leaves |
| `textfile.dfy`, `stdio.dfy` | lib/std/stdio.c | a buffered stream is an unbuffered file; text round trip, for CR LF and for every line end of one byte |
| `timer.dfy`, `timerlaws.dfy` | core/timer.c | wrap-around order; each tick fires exactly the timers that are due; over any ticks, starts and stops, however often the clock goes round, each fires on its schedule; a periodic one every so many ticks |
| `netrom.dfy`, `netrommemory.dfy`, `netromtables.dfy` | NET/ROM routes (cmd/netrom/nrcmd.c, net/netrom/nr3.c): as values, as a memory of linked nodes, and the operations on it | reference counts are the numbers of bindings and all lists stay linked, through ageing, adding and dropping |
| `netromlaws.dfy` | the routing table as a map | each operation changes one binding only, and how; when a binding ends |
| `crc.dfy` | lib/util/crc.c (RFC 1662, Appendix C.2) | table form is the shift register; bursts of up to 16 bits, every odd number of errors and a zero byte in front are detected; the check value |
| `mailbox.dfy`, `maillaws.dfy` | bmutil.c | reading back a rewritten mailbox, and reading it again when mail has come; the format in its own characters |
| `uuencode.dfy` | mailbox.c | the historical decoder recovers every byte sequence |

How the proofs are laid out: what the C code changes in place is a class whose methods follow it statement by
statement; each method's `ensures` equates the new abstract state with a function of the old one; the properties
are lemmas about those functions. The files named laws say what a caller sees in the literals of the C code, without
the functions that the methods are measured against. Concurrent protocols are step relations, and their properties hold after every
possible run. Many proofs begin with `hide *` and call small lemmas whose names end in `Is`, `Means`,
`Fields` or `Facts`; these only unfold a definition where it is needed.

## What the code does not do

Where a natural property fails, the model keeps the code and the condition is proved exact:

- A signal raised at interrupt level is safe exactly if it repeats the newest one or a slot is to spare, the slot
  counted that `procsigs` has claimed and not yet read; with the ring full and an entry claimed, a wake-up of the
  reader is lost (`Wakeup.SafelyPutExactly`, `Wakeup.FullRingLosesTheWakeup`).
- A signal to everybody wakes the first 65535 (`KernelSpec.SignalToAllWakesAll`).
- A process that suspends itself is stopped only if some other process is ready after the queued signals have been
  served (`KernelCalls.SelfSuspendNeedsAnother`).
- A dirty range is kept in two bytes: marking a whole row reaches all of it exactly on screens of at most 256
  columns (`DisplayRing.WholeRowExactly`). On every wider one the first update leaves the end of the top row as it
  was (`Display.EndGoesUnseen`).
- On such screens CSI L keeps the dirty ranges sound exactly if the cursor is on one of the last two rows or there is
  one column, because `dinsline` never moves `dirtp` (`Display.InsertLineTracksExactly`). From the first row of any
  display of three rows and two to 256 columns, four bytes leave a wrong row on the screen
  (`Display.InsertGoesUnseen`).
- `arg[]`, `row` and `col` are of type `int`, and `darg` tests one side of the range only. The letters A, B, C, D, f
  and H keep the cursor on the screen exactly if the arguments meet a test stated per letter
  (`Terminal.MoveStaysExactly`), and a byte string does exactly if no byte of it fails that test or begins a sixth
  argument (`Terminal.WriteStaysExactly`); numbers of at most nine digits never do (`TerminalBytes.TameIsBounded`).
  ESC [ 4294967295 B leads to row -1, where the next character would be stored in front of the buffer
  (`TerminalBytes.CursorLeavesTheScreen`).
- The receive ring counts its bytes in an `unsigned short`. Over all runs no wake-up of the reader is lost exactly if
  the ring has fewer than 65536 bytes (`Wakeup.NoLostWakeupExactly`), and neither is the count wrong
  (`Wakeup.CountIsRightExactly`); in a larger one the reader can park over 65536 bytes (`Wakeup.CountWrapsAround`).
- New mail is found behind the messages that were there exactly if the header of the last of these has ended
  (`MailText.NewMailExactly`); otherwise its From line becomes part of that header.
- A text with a carriage return directly followed by NUL is not read back from a CR LF stream; every other is
  (`TextFile.TextRoundTrip`). Where the line end is a single byte, a text comes back exactly if that byte is the
  newline or does not occur in it (`TextFile.SingleRoundTrip`).
- A heap request is rounded up to units that hold it, and sbrk is asked for these units, exactly up to 0x7FFFFFF0
  bytes (`Heap.PayloadFits`). Above, sbrk is asked for a negative number of bytes or for none (`Heap.TooLarge`); then
  a block without memory behind it can be handed out (`Heap.BlockWithoutMemory`), and for the largest seven requests
  one with room for eight bytes (`Heap.BlockTooSmall`).
- A timer lasts as long as asked exactly if rounding up does not overflow (`TimerSpec.DurationCovers`).
- A message whose header never ended loses its read mark and its forwarding line when the mailbox is written back;
  a mailbox comes back complete exactly if no such message should carry either (`MailText.RoundTrip`).
- The comment over `kwait` promises that no signal from interrupt level is lost; the first item above says when.

## Model

| member | source | states |
|---|---|---|
| KernelSpec.KsigExactly | core/kernel.c:480-536 | a signal moves exactly the first min(n, waiters) to the end of the ready queue, in order, then suspended ones to the end of theirs; everyone else keeps queue, place and flags |
| KernelSpec.PickTakesTheFirst | core/kernel.c:496-535 | those picked are the first min(n, waiters) waiters of the event; the other waiters and the hash collisions stay, each group in its order |
| KernelSpec.KeepKeepsOrder | core/kernel.c:503-516 | nobody who stays on a scanned queue overtakes anybody |
| KernelSpec.StillWaits | core/kernel.c:480-536 | those who still wait after a signal are exactly all but the first min(n, waiters), the waiting before the suspended ones |
| KernelSpec.SignalToAllWakesAll | core/kernel.c:496-497 | a signal leaves no waiter for the event exactly if there were at most n, and for n = 0 exactly if at most 65535 |
| KernelSpec.KsigKeepsInv | core/kernel.c:480-536 | waking keeps every process on exactly the queue its flags and event select |
| KernelSpec.RequeueKeepsInv | core/kernel.c:547-595 | delproc, a change of flags and addproc keep that invariant |
| KernelCalls.StepKeepsInv | core/kernel.c:82-471 | so does every call of the kernel, and an interrupt that ends a halt |
| KernelCalls.KwaitKeepsInv | core/kernel.c:284-344 | so does kwait, and it ends with a running process or a halted machine |
| KernelCalls.KillKeepsInv | core/kernel.c:135-185 | so does killing another process, which alone disappears |
| KernelCalls.EveryReachableStateIsInOrder | core/kernel.c:547-595 | after any sequence of legal calls, each process but the running one is on exactly one queue, once, the one its flags and event select |
| KernelCalls.SelfSuspendNeedsAnother | core/kernel.c:315-322 | suspend of oneself returns at once exactly if nobody is ready once the queued signals are served |
| KernelCalls.NobodyWaitsForTheDead | core/kernel.c:135-185 | after killproc nobody waits for the dead process exactly if at most 65535 did, or one more that is the process itself |
| KernelLaws.KsigValue | core/kernel.c:480-536 | after a signal the first n in line, 65535 for n = 0, wait for nothing and will see kwait return 0; everybody else is as before |
| KernelLaws.SignalledSeesZero | core/kernel.c:392-411 | and if one of them is dispatched next, its kwait returns 0 |
| KernelLaws.AlertValue | core/kernel.c:249-267 | an alerted process waits for nothing, will see the value, and goes to the end of the ready or suspended queue; nobody else changes |
| KernelLaws.AlertedSeesValue | core/kernel.c:249-267 | and if it is dispatched next, its kwait returns the value |
| KernelLaws.DispatchValue | core/kernel.c:341-411 | whoever is dispatched sees its return value, which is 0 the next time; the rest of the ready queue keeps its order |
| KernelLaws.KwaitPostsFirst | core/kernel.c:284-344 | kwait posts its wait before the queued signals are served: they reach it exactly if they may wake more than wait in front of it; then it waits for nothing, somebody runs at once unless it is suspended, and if it runs itself kwait returns 0 |
| KernelLaws.KwaitYields | core/kernel.c:315-344 | kwait of the null event returns 0 at once if nobody is ready; otherwise the first ready process runs and the caller goes behind the others |
| KernelLaws.KsignalIsLast | core/kernel.c:414-426 | whom the queued signals make ready runs before whom the new one makes ready |
| KernelLaws.OldestFirst | core/kernel.c:448-471 | queued signals are served oldest first |
| KernelLaws.NewprocIsReady | core/kernel.c:82-129 | a new process waits for nothing and is ready behind the others |
| KernelLaws.SuspendAndResume | core/kernel.c:221-242 | suspending and resuming change nothing but the flag, and put the process last where it then belongs |
| KernelLaws.MournersWake | core/kernel.c:135-185 | a killed process is on no queue, and the first 65535 who waited for its death see 0; the others are as before |
| KernelLaws.ChainOfEvent | unix/ksubr_unix.c:266-273 | an event's chain is its address as a 32-bit number, modulo 15 |
| KernelLinks.UnlinkKeepsOrder | core/kernel.c:547-565 | the assignments of delproc leave every queue a consistent doubly linked list, without the process |
| KernelLinks.AppendKeepsOrder | core/kernel.c:568-595 | the assignments of addproc leave every queue a consistent doubly linked list, the process at the end of its own |
| KernelScan.KsigInTwoScans | core/kernel.c:499-535 | the two loops of ksig, over live queues, are the two parts of the specification |
| KernelScan.WokenRest | core/kernel.c:520-535 | the scan of the suspended queue ends although it appends to the queue it scans: each turn picks what was left to pick |
| KernelSignals.SignalRing.Put | core/kernel.c:414-446 | a signal at interrupt level goes behind the others, unless it repeats the newest or the ring is full |
| KernelSignals.SignalRing.Take | core/kernel.c:454-466 | procsigs takes the oldest signal |
| KernelSignals.NothingIsLost | core/kernel.c:426-446 | over any batch of signals the queued ones stay; as long as fewer than 200 are queued every event signalled has an entry, and an event other than the newest one gets its own |
| Kernel.Tables.constructor | core/kernel.c:52-76 | one running process, all queues empty |
| Kernel.Tables.Delproc | core/kernel.c:547-565 | exactly the given process leaves its queue, all links stay consistent |
| Kernel.Tables.Addproc | core/kernel.c:568-595 | the process is appended to the queue its flags select, all links stay consistent |
| Kernel.Tables.Scan | core/kernel.c:503-535 | one loop of ksig wakes the first n waiters of a queue and returns what is left of n |
| Kernel.Tables.Ksig | core/kernel.c:480-536 | ksig on linked queues does what the specification says |
| Kernel.Tables.Dispatch | core/kernel.c:341-411 | the first ready process runs and collects its return value, once |
| Kernel.Tables.Newproc | core/kernel.c:82-129 | a new process is ready, behind the others |
| Kernel.Tables.Alert | core/kernel.c:249-267 | the alerted process waits for nothing and will see the value |
| Kernel.Tables.Suspend | core/kernel.c:221-232 | another process moves to the suspended queue |
| Kernel.Tables.Resume | core/kernel.c:235-242 | and back to where its flags say |
| Kernel.Kernel.Procsigs | core/kernel.c:448-471 | all queued signals are served, oldest first |
| Kernel.Kernel.Ksignal | core/kernel.c:414-446 | served at once with interrupts on, queued with interrupts off |
| Kernel.Kernel.Kwait | core/kernel.c:284-411 | posts the wait before it serves signals, then runs the first ready process or halts until an interrupt readies one |
| Kernel.Kernel.SuspendSelf | core/kernel.c:221-232 | suspend of the running process |
| Kernel.Kernel.Killproc | core/kernel.c:135-185 | mourners are woken, then the process is taken off its queue and freed |
| Runner.NextKeepsInv | unix/ksubr_unix.c:193-265 | every step of every thread, spurious wake-ups included, keeps the token-passing invariant |
| Runner.OneRunner | unix/ksubr_unix.c:385-441 | in every reachable state at most one thread executes NOS code; it is Curproc unless half way through a switch, and holds the mutex unless pteardown has dropped it |
| Runner.AssertionsHold | unix/ksubr_unix.c:385-397 | the assertions of proc_sleep and proc_entry never fail |
| Runner.NobodyIsStranded | unix/ksubr_unix.c:385-410 | a sleeper whose run or exit flag is set is about to be signalled by the thread that executes |
| Runner.OnlyCurprocStarts | unix/ksubr_unix.c:414-441 | while nobody executes, only Curproc can start |
| Runner.CurprocGetsGoing | core/kernel.c:367-384 | a switch cannot get stuck: at most three steps of the waiting threads make Curproc run |
| Runner.VictimLeaves | unix/ksubr_unix.c:385-397 | the victim of a teardown can always end, whatever it was doing |
| Runner.TeardownEnds | unix/ksubr_unix.c:244-265 | pteardown, which waits with the mutex dropped, can end: seven steps at most, each of them enabled, lead there, with the mutex held again |
| ReceiveFifo.Fifo.Put | unix/unix_socket.c:206-264 | for every bufsize: as many bytes as cnt leaves room for are stored in order behind those stored before, the others counted as overrun; cnt wraps at 65536 |
| ReceiveFifo.Fifo.Take | unix/unix_socket.c:407-441 | for every bufsize: as many bytes as wanted or counted come out, from the next place of the ring on |
| ReceiveFifo.Fifo.IsQueue | unix/unix_socket.h:46-54 | below 65536 bytes the ring is a queue: what comes out are the oldest stored bytes, unchanged and in order |
| Wakeup.NextKeepsInv | unix/unix_socket.c:227-260 | every step of reader, interrupts and halting machine keeps: no sleep over counted bytes without a signal under way |
| Wakeup.NoLostWakeup | unix/unix_socket.c:418-426 | for rings below 65536 bytes, over every interleaving in which each signal repeats the newest or finds a slot: a reader parked over received bytes has its event in the signal ring, and the machine is not asleep; bytes arrive unchanged, in order, lost ones counted |
| Wakeup.NoLostWakeupExactly | unix/unix_socket.h:46-54 | and for larger rings that fails |
| Wakeup.CountIsRightExactly | unix/unix_socket.h:46-54 | in every run cnt is the number of bytes that wait, exactly for rings below 65536 bytes |
| Wakeup.CountWrapsAround | unix/unix_socket.c:418-426 | the run: 65536 bytes arrive, the signals are served, and the reader sees cnt 0 and parks |
| Wakeup.PutIsQueued | core/kernel.c:426-446 | the protocol's signal ring does what the kernel's does |
| Wakeup.NeverAsleepOverSignals | unix/ksubr_unix.c:367-376 | giveup never sleeps over a queued signal |
| Wakeup.PutAppends | core/kernel.c:426-446 | with a slot to spare a signal goes behind those pending, unless it repeats the newest |
| Wakeup.SuppressedIsQueued | core/kernel.c:426-434 | a suppressed repetition is harmless: the newest pending signal is for the same event |
| Wakeup.DrainWakes | core/kernel.c:448-471 | once procsigs has finished, a parked reader with a signal pending is ready |
| Wakeup.ParkedReaderIsServed | unix/unix_socket.c:407-441 | and then, with a ring below 65536 bytes, takes the received bytes it wants |
| Wakeup.SafelyPutExactly | core/kernel.c:457-463 | a signal is safe exactly if it repeats the newest or a slot is to spare, counting the one procsigs has claimed |
| Wakeup.FullRingLosesTheWakeup | core/kernel.c:457-463 | a run in which one interrupt too many loses the reader's wake-up for good |
| HeapSpec.FitIsFirst | msdos/alloc.c:120-150 | the search finds the first chunk that is large enough, and misses none |
| HeapSpec.GrantedKeepsInv | msdos/alloc.c:122-147 | handing out a block keeps the free list in order, apart from all blocks, and conserves units |
| HeapSpec.ReleasedKeepsInv | msdos/alloc.c:273-299 | so does taking one back |
| HeapSpec.MergeKeepsOrder | msdos/alloc.c:279-297 | coalescing leaves the list in address order with no two chunks touching |
| HeapSpec.MergeSum | msdos/alloc.c:279-297 | coalescing loses no unit |
| HeapLaws.FreeReturnsItsUnits | msdos/alloc.c:273-299 | after free exactly the block's units are free that were not before |
| HeapLaws.GrantedBlock | msdos/alloc.c:122-140 | a block has as many units as are wanted, or one more if that is its whole chunk, and ends where its chunk ended |
| HeapLaws.GrantTakesItsUnits | msdos/alloc.c:122-140 | after malloc exactly the block's units are no longer free |
| HeapLaws.NoUnitTwice | msdos/alloc.c:91-165 | no unit is both free and in a block, or in two blocks |
| HeapLaws.UnitsOf | msdos/alloc.c:71-77 | a request is rounded up to units of 8 bytes and a header unit, and none is wasted |
| HeapMemory.FreeMemLinks | msdos/alloc.c:279-297 | what free writes into headers spells out the merged circle |
| HeapMemory.TakeMemLinks | msdos/alloc.c:122-140 | what malloc writes spells out the circle without the block |
| Heap.PayloadFits | msdos/alloc.c:71-77 | a block's payload has nb bytes, and its size in bytes is what sbrk sees, exactly up to 0x7FFFFFF0 |
| Heap.TooLarge | msdos/alloc.c:178-183 | what sbrk sees above that: a negative number, none, or one unit |
| Heap.BlockWithoutMemory | msdos/alloc.c:168-190 | a request for which sbrk is asked for nothing gets a block of 2^29 units at the end of memory |
| Heap.BlockTooSmall | msdos/alloc.c:91-165 | the largest requests get a block for eight bytes at most, on any heap |
| Heap.MallocIsRight | msdos/alloc.c:91-165 | malloc asks for more at most once, returns a large enough block whenever some chunk fits or the system gives, and otherwise changes nothing; units are conserved |
| Heap.RefillFits | msdos/alloc.c:144-150 | after a refill one more traversal finds a fit |
| Heap.OneGap | msdos/alloc.c:273-277 | free's search can stop at exactly one place, the right one |
| Heap.FreeIsRight | msdos/alloc.c:247-299 | after free the links, the marks of blocks in use and the audit of headers are right again |
| Heap.TakeIsRight | msdos/alloc.c:122-147 | and so they are after malloc |
| Heap.Allocator.FindGap | msdos/alloc.c:273-277 | the search loop of free ends, at that place |
| Heap.Allocator.Free | msdos/alloc.c:237-306 | a block in use goes back, anything else is counted as invalid and left; Availmem is the free total without Base |
| Heap.Allocator.TakeFrom | msdos/alloc.c:122-147 | a fitting chunk is taken whole or its end is carved off |
| Heap.Allocator.Morecore | msdos/alloc.c:168-190 | new units join the free list, if sbrk was asked for as many |
| Heap.Allocator.Alloc | msdos/alloc.c:91-165 | malloc on headers in memory does what the specification says |
| Terminal.StepFollows | msdos/display.c:156-476 | what has scrolled off stays, for every byte; cursor, saved cursor, tab stops and arguments stay in range and lines keep their width exactly if the byte does not start a sixth argument and, being a move, passes the test on its arguments |
| Terminal.MoveStaysExactly | msdos/display.c:366-415 | the test: A, B, C, D, f and H keep the cursor on the screen, in int arithmetic, exactly for these arguments |
| Terminal.WriteStaysExactly | msdos/display.c:156-182 | everything is in range after each byte of a string exactly if none of them is harmful |
| TerminalBytes.NumberIs | msdos/display.c:345-358 | the digits of a number leave its value reduced to an int32, however many they are |
| TerminalBytes.CursorLeavesTheScreen | msdos/display.c:376-390 | two byte strings that move the cursor above the screen, one of them without overflow in its digits |
| TerminalBytes.TameIsBounded | msdos/display.c:334-476 | numbers of at most nine digits, five to a sequence, are harmless on screens of up to 1147483648 rows and columns |
| Terminal.WriteFollows | msdos/display.c:156-182 | after a byte string without harmful bytes all is in range, and what has scrolled off stays |
| TerminalLaws.NewDisplay | msdos/display.c:61-98 | a new display is blank, white on black, with the cursor at home and a tab stop at every eighth column |
| TerminalLaws.TextRunsOn | msdos/display.c:638-662 | text runs on from line to line: seen as one long row of cells from the cursor on, it fills as many as it has characters, and no other |
| TerminalLaws.ShownAtTheEnd | msdos/display.c:638-680 | a character in the last column: the cursor stays in the mode without wrap, otherwise it goes to the next line, scrolling on the last row |
| TerminalLaws.CarriageReturn | msdos/display.c:634-637 | a carriage return and text: the text stands at the beginning of the cursor's row, the cursor behind it, and all other cells are as before |
| TerminalLaws.LineFeed | msdos/display.c:629-680 | one row down in the same column; on the last row everything moves up and a blank row comes |
| TerminalLaws.Controls | msdos/display.c:609-618 | backspace goes left but not off the line; nulls, bells and XON do nothing |
| TerminalLaws.TabStop | msdos/display.c:622-628 | a tab goes to the next tab stop, or to the last column |
| TerminalLaws.FormFeed | msdos/display.c:619-621 | a form feed blanks the screen in the colours that are set, and homes the cursor |
| TerminalLaws.EscapeCharacters | msdos/display.c:310-325 | ESC 7 and ESC 8 save and restore the cursor; ESC H sets a tab stop and goes on waiting, as ESC ESC does |
| TerminalLaws.EscapeIsIgnored | msdos/display.c:326-329 | ESC and any other character is that character |
| TerminalLaws.ValueIsDecimal | msdos/display.c:345-357 | one more digit makes a number ten times as large |
| TerminalLaws.SequenceIs | msdos/display.c:334-476 | the letter of a control sequence finds up to five numbers, separated by semicolons, where no digits stand for 0 |
| TerminalLaws.IgnoredMarks | msdos/display.c:301-344 | ESC O is as ESC [, and question marks and equals signs are as if they were not there |
| TerminalLaws.UnknownSequence | msdos/display.c:334-476 | every other letter does nothing |
| TerminalLaws.InsertsBlank | msdos/display.c:490-504 | ESC [ @: the cells from the cursor on move right and a blank comes at the cursor; all others, and the cursor, stay |
| TerminalLaws.DeletesCharacter | msdos/display.c:507-523 | ESC [ P: the cells behind the cursor move left and a blank comes last |
| TerminalLaws.ClearsLine | msdos/display.c:684-701 | ESC [ K: blanks from the cursor to the end of its line |
| TerminalLaws.InsertsLine | msdos/display.c:545-562 | ESC [ L: the rows from the cursor's on move down and a blank one comes there |
| TerminalLaws.DeletesLine | msdos/display.c:526-542 | ESC [ M: the rows below the cursor's move up and a blank one comes last |
| TerminalLaws.ClearsScreen | msdos/display.c:421-430 | ESC [ J with 0 blanks from the cursor to the end of the screen, with 2 all of it and homes the cursor, with others nothing |
| TerminalLaws.SavesCursor | msdos/display.c:455-463 | ESC [ s saves the cursor, ESC [ u restores it |
| TerminalLaws.CursorUp | msdos/display.c:366-374 | ESC [ A: up by the number, by one for 0 or none, not off the screen |
| TerminalLaws.CursorDown | msdos/display.c:375-382 | ESC [ B: down likewise, unless the sum overflows an int32 |
| TerminalLaws.CursorRight | msdos/display.c:383-390 | ESC [ C: right likewise |
| TerminalLaws.CursorLeft | msdos/display.c:391-399 | ESC [ D: left likewise |
| TerminalLaws.PutsCursor | msdos/display.c:400-413 | ESC [ row ; column H or f: both counted from 1, 0 stands for 1, too large ones for the last |
| TerminalLaws.TextAtPlace | msdos/display.c:400-413 | text sent behind such an address stands there, and nothing else changes |
| TerminalLaws.SetsModes | msdos/display.c:414-420 | ESC [ 7 h and l turn line wrap on and off; ESC [ g with 0 clears the tab stop at the cursor, with 3 all |
| TerminalLaws.SetsColours | msdos/display.c:565-592 | ESC [ m: the attribute byte for each number |
| TerminalLaws.SetsColoursInOrder | msdos/display.c:447-451 | several numbers before m are as so many sequences of one |
| DisplayRing.RingSet | msdos/display.c:715-731 | storing a line of the screen in its slot of the ring touches no other of the last lines |
| DisplayRing.RingScroll | msdos/display.c:640-668 | a new bottom line takes the slot of the oldest, so the last size lines survive |
| DisplayRing.OffsetsAreGood | msdos/display.c:724-731 | buffer offsets stay inside the buffer, and different cells of the screen share no byte |
| DisplayRing.RefreshedIsShown | msdos/display.c:192-225 | sound dirty ranges suffice: repainting them makes the screen equal to the virtual one |
| DisplayRing.WholeRowExactly | msdos/display_pc.h:43-51 | the range that is stored for a whole row covers it exactly if it has at most 256 columns |
| Display.Display.constructor | msdos/display.c:61-98 | a new display is in order, with a cleared screen, and its dirty ranges are sound exactly if it has at most 256 columns |
| Display.EndGoesUnseen | msdos/display.c:192-225 | a run: on every wider display the first update does not reach the end of the top row |
| Display.Display.Dclreol | msdos/display.c:684-701 | clears to the end of the line, and keeps dirty ranges sound |
| Display.Display.Dclreod | msdos/display.c:479-487 | clears to the end of the screen, likewise |
| Display.Display.Dclrscr | msdos/display.c:704-709 | clears the screen and homes the cursor, likewise |
| Display.Display.Dinsert | msdos/display.c:490-504 | inserts a character, likewise |
| Display.Display.Ddelchar | msdos/display.c:507-523 | deletes a character, likewise |
| Display.Display.Ddelline | msdos/display.c:526-542 | deletes a line, likewise |
| Display.Display.Dinsline | msdos/display.c:545-562 | inserts a line; dirty ranges stay sound with the cursor on the last two rows |
| Display.Display.ScrollUp | msdos/display.c:640-668 | the ring turns by one line, whose old content is the oldest |
| Display.Display.Dchar | msdos/display.c:596-680 | a character in normal mode does what the terminal does, and keeps dirty ranges sound |
| Display.Display.Desc | msdos/display.c:296-330 | so does one behind an escape |
| Display.Display.Darg | msdos/display.c:334-476 | so does a harmless one in a control sequence, CSI L as above |
| Display.Display.DisplayWrite | msdos/display.c:156-182 | the display of modular ring, state and arg[] refines the list-of-lines terminal over every byte string without harmful bytes |
| Display.Display.Dupdate | msdos/display.c:192-225 | after dupdate the real screen is the virtual one |
| Display.InsertLineTracksExactly | msdos/display.c:545-562 | CSI L keeps dirty ranges sound, whatever the screen and whatever ranges a display can hold, exactly if there are at most 256 columns and the cursor is on one of the last two rows, or there is one column |
| Display.InsertGoesUnseen | msdos/display.c:545-562 | a run: after the bytes a ESC [ L, with updates in between and behind, row 1 of the real screen is wrong, on every display of three rows and two columns or more |
| TextFile.WriteTwice | lib/std/stdio.c:518-568 | writing in two pieces is writing at once, gaps included |
| TextFile.DecodeUndoesExpand | lib/std/stdio.c:473-498 | reading a CR LF stream undoes the translation if no CR is directly followed by NUL |
| TextFile.TextRoundTrip | lib/std/stdio.c:473-498 | and only then |
| TextFile.DecodedLength | lib/std/stdio.c:473-498 | each such pair loses one character |
| TextFile.DecodedSingle | lib/std/stdio.c:473-484 | with a line end of one byte reading turns each of these bytes into a newline, and nothing else, whatever the text |
| TextFile.SingleRoundTrip | lib/std/stdio.c:473-484 | such text is read back exactly if the byte is the newline or does not occur in it |
| TextFile.LinesAreEnded | lib/std/stdio.c:405-437 | each newline is written as the line end, and text without one as it is |
| TextFile.TextChars | lib/std/stdio.c:849-922 | what kfread delivers on a text stream is what kfgetc would |
| Stdio.Stream.Kfflush | lib/std/stdio.c:518-568 | moves buffered output to the file without changing file and cursor as seen |
| Stdio.Stream.Kfputc | lib/std/stdio.c:405-437 | appends the encoded character at the cursor |
| Stdio.Stream.CopyText | lib/std/stdio.c:745-765 | the expansion loop makes progress and never overfills the buffer |
| Stdio.Stream.Kfwrite | lib/std/stdio.c:690-789 | writes the encoded data for every buffer size and mode, and terminates |
| Stdio.Stream.PutEach | lib/std/stdio.c:405-437 | kfputc of each character writes the same bytes as one kfwrite |
| Stdio.Stream.Fillbuf | lib/std/stdio.c:791-847 | looks ahead without moving the cursor, and fails exactly at the end of the file |
| Stdio.Stream.Getbyte | lib/std/stdio.c:501-514 | the byte at the cursor |
| Stdio.Stream.Kfgetc | lib/std/stdio.c:473-498 | the next character, a line end taken as one newline |
| Stdio.Stream.Kfread | lib/std/stdio.c:849-922 | the next characters, and the item count |
| Stdio.Stream.Kfseek | lib/std/stdio.c:628-666 | moves the cursor, buffers accounted for |
| Stdio.Stream.Kftell | lib/std/stdio.c:668-674 | tells the cursor, buffers accounted for |
| Stdio.Perform | lib/std/stdio.c:405-922 | one operation gives what it gives on an unbuffered file |
| Stdio.PerformAll | lib/std/stdio.c:405-922 | any sequence that obeys the rule for update streams (ISO C99, section 7.19.5.3) gives the results, bytes and position of an unbuffered binary file, for every buffer size |
| Stdio.Sync | lib/std/stdio.c:518-568 | once flushed the file itself is the unbuffered one |
| Stdio.WriteAndReadBack | lib/std/stdio.c:405-922 | a text written to a stream, with CR LF or any single byte as line end, and read back through the buffers is itself exactly under these conditions |
| Stdio.WriteThenRead | lib/std/stdio.c:628-674 | what is written can be sought back to from the current position, and read |
| Stdio.WriteAtTheEnd | lib/std/stdio.c:628-674 | written at the end it is added to the file |
| Stdio.WriteAnywhere | lib/std/stdio.c:628-666 | written anywhere it replaces as many bytes, and a gap is filled with zeroes |
| Stdio.SeekThenRead | lib/std/stdio.c:628-674 | from a position that was sought reading gives the bytes that stand there |
| Stdio.AtTheEnd | lib/std/stdio.c:405-514 | at the end and behind it there is nothing to read, and a character put there is the last one |
| Machine.WrappedDifference | core/timer.c:72-77 | subtracting wrapped tick counts gives their true distance within half the range |
| TimerSpec.DurationCovers | core/timer.c:176-189 | the duration covers the interval and a tick more exactly if rounding up does not overflow |
| TimerSpec.DueInTime | core/timer.c:113-113 | a timer set for i ms at real time t comes due strictly after t + i and within two ticks of it |
| TimerList.Wheel.SetTimer | core/timer.c:176-189 | the duration covers the interval and a tick more, and less than another tick, exactly if rounding up does not overflow an int32 |
| TimerList.Wheel.SetAndStart | core/timer.c:101-189 | set and started, a timer is on the list and comes due strictly after the interval and within two ticks of it |
| TimerSpec.PlacedIsSorted | core/timer.c:121-134 | inserting in front of the first no earlier one keeps the list sorted |
| TimerList.NoLoop | core/timer.c:78-83 | the timer loop panic cannot happen |
| TimerList.Wheel.StopTimer | core/timer.c:137-160 | exactly the given timer leaves the list |
| TimerList.Wheel.FindPlace | core/timer.c:121-124 | the search sees through the wrap-around |
| TimerList.Wheel.StartTimer | core/timer.c:101-134 | the timer is on the list exactly once, in order, with its expiration |
| TimerList.Wheel.Collect | core/timer.c:78-95 | exactly the due timers are moved, the latest in front |
| TimerList.Wheel.Fire | core/timer.c:87-95 | every collected timer's function is called once, and may restart it |
| TimerList.Wheel.Tick | core/timer.c:65-95 | a tick fires every due timer exactly once and no other; on the list are then exactly those not due and those restarted |
| TimerSpec.FiresOnTime | core/timer.c:65-95 | over any ticks, starts and stops a started timer fires at the first tick at or behind its due time, unless it is stopped or started anew before, not before that, and then as it has been restarted |
| TimerSpec.StoppedIsSilent | core/timer.c:137-160 | a stopped timer does not fire until it is started |
| TimerList.Wheel.Advance | core/timer.c:65-77 | the wrapped clock follows the true one |
| TimerList.Wheel.Do | core/timer.c:65-160 | a tick, a start or a stop changes the schedule of exactly the timers concerned |
| TimerList.Wheel.Run | core/timer.c:65-160 | over any sequence of ticks, starts and stops, through any number of rounds of the 32-bit clock, each timer fires at exactly the ticks its schedule says |
| TimerLaws.TicksOf | core/timer.c:176-189 | an interval is rounded up to ticks of 55 ms, and one more is added |
| TimerLaws.StartedFires | core/timer.c:65-134 | a timer started for dur ticks fires at the dur-th tick behind the start and, if its function restarts it with a period, exactly every so many ticks from then on |
| TimerLaws.StoppedDoesNotFire | core/timer.c:101-160 | a timer that is stopped, or started with 0, does not fire, however many ticks come |
| Netrom.WhoSurvives | cmd/netrom/nrcmd.c:448-471 | exactly the bindings that are permanent or have more than one tick left survive a tick |
| Netrom.WorstIsWorst | net/netrom/nr3.c:711-725 | find_worst finds a binding that is not permanent and of least quality |
| Netrom.Released | cmd/netrom/nrcmd.c:458-470 | dropping a reference keeps the counts right, and frees the neighbour with its last one |
| Netrom.Gained | net/netrom/nr3.c:786-812 | a new reference keeps the counts right |
| Netrom.AddedVias | net/netrom/nr3.c:754-840 | entering an offer adds one reference for a new binding, none for an old one |
| Netrom.DroppedVias | net/netrom/nr3.c:853-907 | dropping a binding removes exactly one reference, and the route with its last binding |
| Netrom.TheWorstGoes | net/netrom/nr3.c:836-846 | a route with too many bindings loses one that is not permanent and of least quality, unless there is none |
| Netrom.EnteredRefs | net/netrom/nr3.c:754-835 | entering an offer keeps the counts right, and each route has at most one binding to a neighbour |
| NetromLaws.OfferEnters | net/netrom/nr3.c:754-835 | an offer sets the binding it is about, where a permanent one yields only to permanent offers and a broadcast one not to recorded routes, and changes no other binding |
| NetromLaws.TickAges | cmd/netrom/nrcmd.c:445-484 | a tick takes one off the count of every binding that is not permanent, ends it at 1, and wraps 0 to 4294967295 |
| NetromLaws.Lifetime | cmd/netrom/nrcmd.c:445-484 | a binding with n ticks left goes at the n-th tick and not before; a permanent one stays |
| NetromLaws.DropTakesOne | net/netrom/nr3.c:853-907 | a drop takes exactly one binding out of the table |
| NetromLaws.OfferKeepsOneEach | net/netrom/nr3.c:768-786 | there is at most one route to each destination |
| NetromLaws.DropKeepsOneEach | net/netrom/nr3.c:853-907 | so there is after a drop |
| Chains.RemoveKeepsOk | cmd/netrom/nrcmd.c:451-456 | unlinking a node between its neighbours, or behind the head, leaves every list of its kind linked, without the node |
| Chains.AddKeepsOk | net/netrom/nr3.c:776-779 | putting a new node in front of a list leaves every list linked |
| Chains.Nodes.Unlink | cmd/netrom/nrcmd.c:460-467 | the assignments to prev, next and head take exactly that node off its list |
| NetromMemory.SeekingEnds | net/netrom/nr3.c:651-667 | a callsign not found on the list of its hash value is on none |
| NetromTables.Tables.AgeBinds | cmd/netrom/nrcmd.c:446-472 | ages the bindings of a route while it frees some of them, all lists stay linked, counts right, other routes untouched |
| NetromTables.Tables.AgeRoute | cmd/netrom/nrcmd.c:445-483 | a route left without bindings is unlinked from its chain and freed |
| NetromTables.Tables.AgeChain | cmd/netrom/nrcmd.c:445-484 | the walk along a chain, whose nodes it may free, ages exactly the routes of that chain |
| NetromTables.Tables.Obsotick | cmd/netrom/nrcmd.c:436-487 | after a tick the memory holds the aged table: every list linked, every refcnt the number of bindings via that neighbour, every num_routes the length of its list, no route without bindings, no neighbour unreferenced |
| NetromTables.Tables.Release | cmd/netrom/nrcmd.c:459-471 | the last reference takes the neighbour off its hash chain |
| NetromTables.Tables.Findroute | net/netrom/nr3.c:651-667 | finds the first route to the callsign, NULL exactly if there is none |
| NetromTables.Tables.Findnbr | net/netrom/nr3.c:628-647 | finds the neighbour of that call and interface, NULL exactly if there is none |
| NetromTables.Tables.Findworst | net/netrom/nr3.c:711-725 | the loop finds what the specification says |
| NetromTables.Tables.Enter | net/netrom/nr3.c:754-835 | the offer is entered, with a new route, neighbour and binding where there was none; lists stay linked and counts right |
| NetromTables.Tables.Routeadd | net/netrom/nr3.c:754-848 | and if there are too many bindings the worst that is not permanent goes |
| NetromTables.Tables.Routedrop | net/netrom/nr3.c:853-907 | drops exactly that binding if there is one, with route and neighbour if it was their last, and otherwise changes nothing |
| FcsTable.TableEntry | lib/util/crc.c:9-42 | every entry of the table is eight clocks of the shift register on its index |
| Crc.TableStepIsShiftRegister | lib/util/crc.h:6-9 | the table step is eight bitwise steps with polynomial 0x8408 |
| Crc.FcsIsShiftRegister | lib/util/crc.c:76-82 | the FCS of any bytes is the shift register run over their bits, least significant first |
| Crc.TrailerEndsWell | lib/util/crc.c:86-98 | the complemented FCS, low byte first, leads to the good final value |
| Crc.PassesExactlyWithTrailer | lib/util/crc.c:47-65 | a buffer passes exactly if its last two bytes are the ones crc_gen would store |
| Crc.BurstOfSixteenIsDetected | lib/util/crc.c:47-54 | two distinct buffers of one length that differ only within 16 consecutive bits cannot both pass |
| ShiftRegister.ClockKeepsParity | lib/util/crc.h:6-9 | x + 1 divides the polynomial: a clock changes the parity of the register by that of the data bit |
| Crc.OddErrorsAreDetected | lib/util/crc.c:47-54 | two buffers of one length that differ in an odd number of bits cannot both pass |
| Crc.EmptyFrame | lib/util/crc.h:6-9 | a frame without data passes with 00 00, and with nothing else |
| Crc.CheckValue | lib/util/crc.c:47-54 | the characters 1 to 9 pass with 6E 90 behind them, and with nothing else |
| Crc.ZeroInFront | lib/util/crc.h:6-9 | a byte of 0 put in front of a frame is detected |
| Crc.CrcUpdate | lib/util/crc.c:76-82 | the running FCS |
| Crc.CrcGen | lib/util/crc.c:58-65 | the filled buffer passes, the data and what lies behind are untouched |
| Crc.CrcCheck | lib/util/crc.c:47-54 | 0 exactly for buffers that pass |
| MailText.ParseIsGood | bmutil.c:143-183 | what is found in any file are messages with a From line, no Status line kept, no From line in a body, and only the last without end of header |
| MailText.TableTiles | bmutil.c:143-183 | the start and size entries tile the temporary file |
| MailText.RoundTrip | bmutil.c:441-475 | a rewritten private mailbox is parsed into exactly the undeleted messages, in order, with bodies, headers, forwarding lines and read marks, if and only if no message to be marked lacks the end of its header |
| MailText.FileRoundTrip | bmutil.c:143-183 | the same from one mailbox file to the next |
| Mailbox.Mailbox.ReadHeader | bmutil.c:160-178 | the header loop copies all but Status lines, and notes the read mark |
| MailText.NewMailExactly | bmutil.c:143-183 | a mailbox to which mail has been appended is parsed into the old messages and the new ones exactly if the last old header has ended |
| MailLaws.MessageIs | bmutil.c:143-183 | a line that begins with "From ", header lines, an empty line and lines none of which begins so are one message with exactly that body; Status lines are left out, in whatever case, and an R in one marks it as read; lines in front belong to no message |
| MailLaws.NextMessageBegins | bmutil.c:147-149 | behind an ended header a line begins the next message exactly if it begins with "From " |
| MailLaws.OpenMessage | bmutil.c:160-178 | a header in which the file ends |
| MailLaws.WrittenBack | bmutil.c:449-461 | a message is written back with "X-Forwarded-To: " and the name, and "Status: R", in front of the empty line of its header; a deleted one is not written |
| MailLaws.WrittenInOrder | bmutil.c:441-475 | one behind the other |
| Mailbox.Mailbox.Readnotes | bmutil.c:131-185 | temporary file and table hold exactly the messages of the file, over whatever file and table held before, whose status bits stay; it fails exactly if they are too many |
| Mailbox.Mailbox.Initnotes | bmutil.c:95-103 | on the first read each entry carries the read mark of its message and no other |
| Mailbox.Mailbox.Scanmail | bmutil.c:849-866 | on a reread each entry keeps the marks of its place in the table |
| Mailbox.Mailbox.ScanNewMail | bmutil.c:849-866 | if mail has only been appended, the messages that were there keep entries and marks, and the new ones follow |
| Mailbox.Mailbox.CopyHeader | bmutil.c:449-461 | the header comes out with its marks in front of the empty line |
| Mailbox.Mailbox.CopyMessage | bmutil.c:441-475 | one message, found by its offset and ended by its size |
| Mailbox.Mailbox.ReadIsOpened | bmutil.c:143-183 | what readnotes leaves is what the rewriting loop needs: each entry's offset and size are those of its message |
| Mailbox.Mailbox.Mark | bmutil.c:353-380 | changing marks disturbs neither offsets nor sizes |
| Mailbox.Mailbox.Close | bmutil.c:441-475 | whatever was marked since, the next readnotes finds exactly the undeleted messages with their marks, under the condition above |
| Mailbox.Mailbox.Rewrite | bmutil.c:441-475 | all undeleted messages come out, in order |
| UuFormat.DecodeRecovers | mailbox.c:1746-1772 | the historical uudecode (IEEE Std 1003.1, uuencode utility) recovers every byte sequence from the data lines, whatever the stale bytes and whatever lines follow |
| UuFormat.GroupsBack | mailbox.c:1748-1758 | each line gives back its bytes, the last group's stale ones left out |
| UuFormat.DataLinesPrint | mailbox.c:1748-1768 | data lines hold only printing characters, 1 to 61 of them |
| UuFormat.KnownLine | mailbox.c:1746-1768 | the bytes of Cat are sent as #0V%T |
| UuFormat.FullLine | mailbox.c:1746-1768 | as long as there are 45 bytes left a line has them all, as M and 60 characters |
| Uuencode.PutGroup | mailbox.c:1748-1763 | the shifts over in[] and out[] give the four sixes |
| Uuencode.Flush | mailbox.c:1764-1768 | the null behind the last group cuts off the extra group and stale characters |
| Uuencode.Encode | mailbox.c:1746-1772 | the loop writes exactly the data lines, and counts all bytes |

## Left out

- Devices, sockets, curses, DPMI, threads' own reads and writes: only their effect, as inputs.
- The packet-driver ring of msdos/pktdrvr.c and the Telnet option negotiation: not modelled.
- Kernel.Kernel.Kwait: is called with interrupts on; statistics, stack traces and the saved machine state are not modelled. The arrivals of each halt are parameters.
- Kernel.Tables.Alert: a null process, which alert, suspend, resume and killproc ignore, is not modelled; the same holds for null timers.
- Kernel.Tables.Newproc: name, stack, sockets and arguments are not modelled.
- Kernel.Kernel.Killproc: of another process only; killing oneself goes through the killer process, which is such a call.
- Runner.NextKeepsInv: signal masks, g_interrupt_mutex and thread creation failures are not modelled; the interrupt side is Wakeup's.
- Wakeup.NextKeepsInv: one reader, and no trigger character; interrupt_cond_wait has no callers and is left out.
- ReceiveFifo.Fifo.Put: the bytes arrive as one sequence per read of the device; a ring has at least one byte.
- Heap.Allocator.Alloc: sbrk's answer is a parameter, given only for at most 0x7FFFFFF0 bytes, with new units none of which is next to Base; nb + 7 must fit 32 bits, since above that Base itself is handed out; the 16-bit block path of morecore, realloc, calloc, memory debugging and statistics are left out, and so is what programs write into their blocks.
- Heap.Allocator.Free: a pointer must lie behind a header that exists; the source would read arbitrary memory.
- Terminal.StepFollows: a sixth argument would be written past the end of arg[]; what happens then, and behind a cursor off the screen, is not modelled.
- Display.Display.DisplayWrite: only without harmful bytes, since the others make it write outside its buffer.
- Display.Display.constructor: no_scroll mode, scrollback navigation (sadjust) and its clamp are left out.
- Display.Display.Dupdate: the cursor position on the real screen is not modelled.
- Stdio.Stream.Kfwrite: append mode and device errors are left out; with no data at all the source reads an unset buffer pointer, so data is not empty.
- Stdio.Stream.Kfread: binary requests of kBUFSIZ bytes or more, which bypass the buffer and can report a short count, are left out; partial reads are off.
- Stdio.Stream.Kfgetc: a two-character end of line ends in a newline; kungetc would otherwise put back something else.
- Stdio.Stream.Kfseek: to positions that exist; the source does not check.
- TimerList.Wheel.Fire: functions that stop or start other timers are left out, and so they are in Tick and Run.
- TimerList.Wheel.Run: durations are not negative, and at most some number that together with the distance of any two ticks stays below 2^31.
- TimerList.Wheel.Tick: all expirations lie within half the clock's range of each other, and a function restarts at most its own timer, since start_timer overwrites next.
- NetromTables.Tables.Routeadd: nodes are addresses, new ones given as parameters; a callsign is a number that stands for the bits addreq compares, and its hash an arbitrary function of it. Aliases, and the bits of a neighbour's call that addreq ignores, are not modelled.
- NetromTables.Tables.Obsotick: the timer that calls it is left out.
- Crc.CrcGen: buffers have room for the two bytes of the FCS; for shorter ones the source's unsigned length wraps around and it writes elsewhere.
- Mailbox.Mailbox.Readnotes: lines hold no NUL (strlen would cut them off), end in a newline and are shorter than LINELEN; locking and file errors are left out.
- Mailbox.Mailbox.Scanmail: the tests of file sizes that decide between it and Initnotes, and the count of new messages, are left out.
- MailText.FileRoundTrip: for such lines.
- Mailbox.Mailbox.Rewrite: a private mailbox, where deletion and status are allowed; public areas are left out.
- Uuencode.Encode: the begin line with its file mode, and the lines behind the blank one, are left out; cnt, an int32 in the source, counts without bound.
- Access control, X-BBS headers, FTP, SMTP, POP and NNTP clients, sessions and command tables: plumbing or printing.
- Floating-point formatting (lib/std/format.c), dumps and traces: printing.
