# FlowScanner: a verified model

FlowScanner keeps a master copy of every executable page, overwrites the page with the
invalid opcode `0x0E`, and opens one basic block (a zone) at a time when the CPU traps.
This project models the default zone build (`ZONE_KERNEL_SYNC_CHECK`, one open zone off,
at most two pages in a zone, one block in a zone) in Dafny and proves what the module
relies on.  `dafny verify dfyconfig.toml` checks all of it.

## The parts

**The length disassembler.**  `Ld` and `LdTables` hold the predicates and the tables of
`libs/ld.h`; the tables are the definition of the instruction set, whatever the hardware
says.  `Decoder` gives one instruction twice: `DecodeOne` reads a window, `Instr` and
`Encode` spell the layout of section 2.1 of Intel SDM Volume 2A, and the two are inverse.
`DecoderLengths` gives the length and the kind of every form of instruction in plain numbers,
without the size functions both of them share, and `LdEncodings` some known encodings.
`Scanner` is what one call of `disassemble_code` computes on its window, `Disassembler` the
loop itself with its cursor and counters, proved equal to it.  `FindRet` is the second copy
of the decoder.

**Zones.**  `ZoneSearch` says where a zone ends on at most two pages, and what crossing the
boundary between them does.

**The masked-page machine.**  `PageMachine` has one page as the process sees it, its stack
of registered copies, its page-table bits, and as a history the bytes that were in a range on
which `run_kernel_check` returned 1 since the page's last write fault.  Each event (mapping,
write of the process, first fetch, invalid-opcode trap, write fault, materialisation, change
of protection) is one step; the verdicts of the checks are inputs.  `PageEffects` says exactly
what each event makes of each page, so that the rest speaks of one page at a time: `PageBits`
of its page-table bits in every run, `PageSafety` of its mediation in the runs whose fetches
meet an exact guard, `PagePrograms` of the bytes of a program that guarantee the guard,
`PageMasking` of what it shows below its copies, `PageLocking` of when it can be written while
registered and what follows for the masking, `PageGrowth` of when an open byte is taken back
and when a trap makes progress, `PageCrossing` of what the cross-page flags hold and protect.
`PageAccess` says what the process gets: which pages execute after a handler, what they show,
what enters the history, and what a page can do next.
`PageWitnesses` has the runs that end where a property fails.  `FetchHandler`, `TrapHandler`
and `FaultHandlers` are the handlers as they run, with their loops, buffers and early exits,
each proved to take exactly the machine's step.

**The rest.**  `PageTable` is the four-level walk of section 4.5 of Intel SDM Volume 3A and
the bit flips at its leaves; `HList` the lock-free chain, under racing adders and used
sequentially; `ZoneStore` the zones kept for user space; `SyncCheck` the sliding search and
the verdict over the active checks.  `Fannkuch` and `Brainfuck` are bundled benchmark programs.

## What does not hold

Where a property fails the code is kept as it is and a lemma names an input.

- *Mediation.*  A first fetch whose search enters a second page, and yet ends in the first
  one, leaves unchecked bytes visible: `close_outer_zone` adds the offset of the end to the
  start of the last page.  A NOP and 8191 prefixes do it
  (`PageWitnesses.MediationFailsOnPrefixRun`); the page-table bits stay right all the same.
  `PageSafety.StepMediates` is the exact condition of every event on every page, and
  `PageSafety.EarlyEndExactly` spells it out.  It always holds when no instruction is longer
  than fifteen bytes, and in runs that leave neither the page nor the next one registered and
  writable and put there no contents made of prefixes up to the last thirty-two bytes
  (`PagePrograms.MediationOfPrograms`).
- *Address zero.*  `do_fault_ret_handler` takes address zero for a fault it should not see.  A
  write fault there leaves page 0 writable though it executes
  (`PageWitnesses.BitsFailAtAddressZero`).  `PageBits.StepBits` shows that no other event breaks
  the bits of any page.
- *Masking.*  The process can break the masking of a page if and only if the page is registered
  and writable (`PageLocking.LockedExactly`).  Four events can leave it so, and
  `PageLocking.StepLocks` says exactly when: the fetch of a writable page is refused after
  registering it; a trap enters a writable second page and does not come to its end; a
  registered page is materialised with its write bit; a write fault gives back fewer copies than
  there are.  `PageWitnesses.MaskingFailsOnWrite` has runs for the first and the third.
- *Growth.*  Between two write faults an open byte can be masked again: the fetch of a page that
  runs into the next one registers and closes that one anew, though it was already opened and
  checked, if it was mprotected since; only its execute-disable bit is tested
  (`PageWitnesses.GrowthFailsOnNextPage`).  `PageGrowth.StepGrowsExactly` shows that
  registering a page anew is the only way, and `PageGrowth.OpenOnlyGrows` what holds otherwise.
- *Progress.*  A handled trap changes nothing of its page exactly when it gives no copy back and
  no byte between the faulting one and the end of the zone is masked and has something else in
  the master copy (`PageGrowth.WorkDropsExactly`).  So a trap on an open byte can come back for
  ever (`PageWitnesses.ProgressFailsOnOpenByte`); all the others are bounded.
- *Cross-page flags.*  A fetch at the first byte of a page drops every flag of the page,
  the one it has just set for its last instruction included (`PageCrossing.EndFlagKeptExactly`).
  A flagged page before does not protect the head of a page whose zone has an aligned end
  (`PageCrossing.HeadKeptExactly`).
- *Restarted search.*  When nothing fits in a page from its first byte on, the fetch searches
  that page twice and not the next one (`ZoneSearch.FetchIsOneScan`).
- *Stored end.*  `create_zone` computes the end from the number of pages, so it is right
  exactly when the end lies in the last of them (`ZoneStore.CreatedZoneIsExact`).
- *Back pointers.*  Racing adders can leave a back pointer wrong (`RacingAdders.BackPointersFail`);
  they are right when no swap of the run failed (`RacingAdders.BackPointersRight`).  That is
  sufficient, not necessary.
- *Sliding search.*  A zone of at most eleven bytes is never found to contain the shellcode
  (`SyncCheck.OneSearchExactly`), and the last alignment of a window is never tried.
- *Summed verdicts.*  A check that returns 2 can hide one that refuses (`SyncCheck.SumHidesARefusal`).
  The verdict is right for every list of checks exactly when all the values they may return lie
  on one side of 1 (`SyncCheck.VerdictRightExactly`).
- *User bit.*  The loops that deny writes test `entry & USER_BIT`, and that number is the bit
  position 2, so they test the write bit; no writable page is missed, but pages of the kernel
  are not spared.
- *Slot 255.*  When no slot is free, `map_user_address` takes slot 255 from whoever has it
  (`PageTable.LastSlotIsLost`).
- *Group opcodes.*  `CHECK_F6_F7` is never true, and a two-byte VEX instruction takes part in
  the one-byte groups, so `C5 xx FF` with reg field 2 or 3 is reported as a call, and with 4 or
  5 as a jump (`LdTablesFacts.VexGroupIsTakenForCall`).
- *Left of cell 0.*  The two brainfuck interpreters part there (`Brainfuck.LeftOfZeroTheyPart`).

Two comments of the source disagree with its code, and the model follows the code:
`find_ret` returns 0, not -1, when it finds nothing (`libs/utils.c:423`), and
`find_first_invalid_opcode_byte` returns an offset in the page, not an address, and looks for
the end of the masked gap (`libs/fprobes/fprober_invalid_op.c:221-228`).

## Model

| member | source | states |
|---|---|---|
| Ld.F6F7NeverRecognised | libs/ld.h:1005 | the macro that should recognise the NOT/NEG/MUL/DIV group is true of no byte |
| LdTablesFacts.LdTablesOk | libs/ld.h:41-115 | the tables meet what the decoder's control flow takes for granted: vector prefixes are prefixes, REX bytes and the escape byte are not, TEST has a ModRM byte |
| LdTablesFacts.MaskByteIsInvalid | libs/ld.h:193-213 | decoding at a mask byte always fails, so a masked address always traps |
| LdTablesFacts.VexGroupIsTakenForCall | libs/zone.c:668-700 | every two-byte VEX instruction with opcode FF, whatever its second byte, operands and what follows, is classified as a CALL exactly if its reg field is 2 or 3 and as a JMP exactly if it is 4 or 5 |
| Decoder.DecodeOne | libs/zone.c:245-815 | a decoded instruction takes at least one byte and ends inside the window |
| Decoder.DecodeOfLonger | libs/zone.c:245-815 | a verdict on one instruction reached in a window is the verdict in every longer window |
| Decoder.EncodeThenDecode | libs/zone.c:245-815 | decoding the bytes of any well-formed instruction, whatever follows, consumes exactly them and reports its kind |
| Decoder.DecodeThenEncode | libs/zone.c:245-815 | every accepted instruction is a well-formed one spelled by exactly the consumed bytes |
| Decoder.PrefixFree | libs/zone.c:245-815 | no instruction is a proper prefix of another, so boundaries are unique |
| DecoderLengths.OneByteLength | libs/zone.c:604-815 | the verdict and the length for every one-byte opcode: the immediates of its tables, of TEST and of the 64-bit moves, the SIB byte, and a displacement of 1 byte, of 4, or of 2 behind 0x67 |
| DecoderLengths.TwoByteLength | libs/zone.c:495-603 | the same for two-byte opcodes |
| DecoderLengths.ThreeByteLength | libs/zone.c:495-603 | the same for the maps 0F38 and 0F3A |
| DecoderLengths.Vex2Length | libs/zone.c:314-493 | the same for two-byte VEX, which takes every opcode |
| DecoderLengths.Vex3Length | libs/zone.c:314-493 | the same for three-byte VEX, by its map |
| DecoderLengths.EvexLength | libs/zone.c:314-493 | the same for EVEX, by its map |
| DecoderLengths.OnlyPrefixes | libs/zone.c:245-307 | prefixes to the end of the window are no instruction yet |
| DecoderLengths.OneByteKindIs | libs/zone.c:604-735 | the kind of a one-byte opcode is that of the first table that holds it, unless its group and the reg field say otherwise |
| DecoderLengths.EscapedKindIs | libs/zone.c:495-603 | the kind of a two- or three-byte opcode is that of the first table of its map that holds it |
| DecoderLengths.VectorKindIs | libs/zone.c:314-493 | a vector instruction is untyped, unless its opcode is in a group |
| LdEncodings.MovLoads | libs/ld.h:41-115 | the eight addressing forms of opcode 8B have 2, 3, 6, 6, 3, 4, 7 and 7 bytes and are of the memory kind |
| LdEncodings.NearCall | libs/ld.h:41-115 | E8 is a call of five bytes, and does not fit in fewer |
| LdEncodings.MovImmediate | libs/ld.h:41-115 | B8 takes 32 bits of immediate, 16 behind 66 and 64 behind REX.W |
| LdEncodings.LoadThenReturn | libs/zone.c:199-925 | a scan of a load followed by C3 ends behind the RET, with one instruction of each kind counted |
| Scanner.WindowExtension | libs/zone.c:245-925 | SUCCESS or ERROR on a window is the result on every longer window; CONTINUE at e makes the longer window the restart at e, counters added |
| Scanner.ScanIsExplained | libs/zone.c:808-925 | what the scan consumed is a run of whole non-branch instructions, closed by one branch of the reported kind on SUCCESS, followed by an instruction that does not fit on CONTINUE and an invalid one on ERROR |
| Scanner.ScanSkips | libs/zone.c:808-895 | the scan steps over any run of non-branch instructions it is given |
| Scanner.ExplanationDecides | libs/zone.c:808-925 | such a decomposition of the window determines the result |
| Scanner.EachCountedOnce | libs/zone.h:39-48 | each decoded instruction increments exactly one of the seven counters, modulo 256 |
| Scanner.EachInItsCounter | libs/zone.c:850-869 | each of the seven counters is the number of instructions of its kinds, modulo 256 |
| Disassembler.SkipPrefixes | libs/zone.c:245-303 | the prefix loop stops at the first byte that is neither a legacy prefix nor REX, with the operand sizes those bytes set |
| Disassembler.ReadOperands | libs/zone.c:668-815 | ModRM, SIB, displacement and immediate are read as the specification says, within the window |
| Disassembler.ReadVector | libs/zone.c:314-493 | VEX and EVEX instructions, with the unchecked look-ahead that never decides |
| Disassembler.ReadEscape | libs/zone.c:495-603 | two- and three-byte opcodes |
| Disassembler.ReadOneByte | libs/zone.c:604-666 | one-byte opcodes and the immediate of TEST |
| Disassembler.DecodeAt | libs/zone.c:245-815 | one turn of the loop is DecodeOne on the rest of the window |
| Disassembler.ZoneStats.Bump | libs/zone.c:850-869 | exactly the counter of the instruction's type goes up, with wrap-around |
| Disassembler.DisassembleCode | libs/zone.c:199-925 | the loop returns the code, the end and the counters of one scan of the window, and depends on nothing outside it; the error guards leave end and counters alone |
| Disassembler.SuccessCodeFlags | libs/zone.h:24-31 | the codes of success carry bit 0 and exactly the flag of the branch found, and differ from the codes of failure and of continuing |
| FindRet.DecodersAgree | libs/utils.c:461-1055 | on every byte stream the two copies agree on length, validity and on being a RET |
| FindRet.ScansFollowSteps | libs/zone.c:245-925 | repeated disassemble_code calls report exactly the branches of the run of instructions |
| FindRet.SearchFindsFirstRet | libs/utils.c:461-1065 | find_ret steps through the same boundaries and returns the start, prefixes included, of the first RET among its first n instructions |
| FindRet.SearchStopsWithSteps | libs/utils.c:461-1062 | without a RET it stops at an invalid opcode, at the end of memory or when its budget is spent |
| FindRet.ThousandInstructions | libs/utils.c:427-460 | a RET is found exactly if one is among the first thousand instructions, and then the first of them |
| FindRet.FindRet | libs/utils.c:427-1066 | the loop, with its limit of 1000 instructions, returns that address or 0 |
| ZoneSearch.FetchExtent | libs/fprobes/fprober_sig_handler.c:302-477 | a found zone spans at most two pages and ends inside them |
| ZoneSearch.FetchIsOneScan | libs/fprobes/fprober_sig_handler.c:364-387 | resuming in the second page loses nothing: the search fails, ends and counts as one scan of the joined pages, except when the first page stops at its own first byte; then that page is searched twice and the end is byte 0 of two pages |
| ZoneSearch.FetchInOnePage | libs/fprobes/fprober_sig_handler.c:302-362 | without a second page it is one scan of the rest of the first |
| ZoneSearch.CrossingsExactly | libs/fprobes/fprober_sig_handler.c:402-407 | which of the two pages is flagged to end inside an instruction |
| ZoneSearch.ZoneExtent | libs/fprobes/fprober_sig_handler.c:302-508 | with no instruction longer than fifteen bytes the end, after the fix-up of an empty zone, lies in the last page and past its first byte |
| ZoneSearch.CrossingIsABoundary | libs/fprobes/fprober_invalid_op.c:33-80 | a successful handle_cross_page lands strictly inside the next page, on an instruction boundary of the joined pages |
| ZoneSearch.CrossingExactly | libs/fprobes/fprober_invalid_op.c:60-76 | a crossing succeeds if and only if the fifteen bytes hold a whole instruction and no invalid one up to the first branch or the end, and its offset is the length of that run less the leftover |
| ZoneSearch.CrossingPositive | libs/fprobes/fprober_invalid_op.c:69-75 | the subtraction that gives the offset never goes below zero |
| ZoneSearch.GapFrom | libs/fprobes/fprober_invalid_op.c:229-265 | the gap ends at the first open byte after the start, and what lies between is masked |
| ZoneSearch.GapExactly | libs/fprobes/fprober_invalid_op.c:229-265 | the gap is UpTo an offset exactly if all bytes from the start to it are masked and it is open, and PageEnd exactly if the start is open or all the rest is masked |
| ZoneSearch.FirstPageExactly | libs/fprobes/fprober_invalid_op.c:381-646 | where the search ends in the first page: behind a branch, at the open byte after the gap, with the page given up, or in or before the next page |
| ZoneSearch.SecondPageExactly | libs/fprobes/fprober_invalid_op.c:381-646 | the same in the second page, from the crossing on |
| ZoneSearch.TrapZoneEndsInLastPage | libs/fprobes/fprober_invalid_op.c:351-656 | a two-page zone ends past the first byte of its second page, so the copy of its last page is never empty |
| ZoneSearch.ShortInstructionsStitch | libs/fprobes/fprober_invalid_op.c:38-57 | with no instruction longer than fifteen bytes the crossing buffer is never overrun, whatever the page after is |
| PageMachine.CloseOuterKeepsTheZone | libs/zone.c:938-989 | nothing outside start..end stays visible; start..end stays visible exactly when the end is not page aligned, and an aligned end closes the whole last page |
| PageMachine.RestoreUndoesRegister | libs/zone.c:1112-1182 | restoring undoes registering, whatever the page has shown in between |
| PageEffects.FetchMakes | libs/fprobes/fprober_sig_handler.c:510-680 | what a fetch makes of every page: one copy pushed or not, one range left shown or all, one range checked or none, and the bits allowed |
| PageEffects.TrapMakes | libs/fprobes/fprober_invalid_op.c:270-883 | what a trap makes of every page: entered or not, a part of the latest copy checked, opened, or the whole given back, and the bits allowed; and when it is reported as handled |
| PageBits.StepBits | libs/fprobes/fprober_sig_handler.c:603-679 | every event keeps the page-table bits of every page if and only if it is no fault at address zero that makes a page writable that executes or is marked as checked |
| PageBits.PageTableBits | libs/fprobes/fprober_handle_mm.c:252-329 | after any run, whatever the searches and the checks say, a page is never writable and executable, an executable page is marked as checked, and a marked page is not writable; page 0 alone asks that no such fault happened |
| PageWitnesses.BitsFailAtAddressZero | libs/fprobes/fprober_handle_mm.c:188-192 | a run after which page 0 executes and is writable |
| PageSafety.CompleteMediation | libs/fprobes/fprober_sig_handler.c:524-679 | after any run in which the fetches of a page and of the one before meet the exact guard, that page, if it is marked as checked, shows only mask bytes and bytes checked since its last write fault |
| PageSafety.StepMediates | libs/fprobes/fprober_invalid_op.c:703-798 | an event keeps a page mediated if and only if it is no fetch outside the guard |
| PageSafety.FetchStepSafe | libs/fprobes/fprober_sig_handler.c:479-680 | a first fetch keeps a page mediated if and only if all that closing leaves visible of it was in the checked range, or is the mask, or was checked before |
| PageSafety.EarlyEndExactly | libs/zone.c:942 | an accepted zone that ends early is harmless to its first page exactly if the rest of that page was masked or checked, and to the second exactly if the same holds of its bytes before the offset of the end |
| PageSafety.WriteFaultedSafe | libs/fprobes/fprober_handle_mm.c:252-316 | a write fault leaves the page writable only while it cannot execute and is not marked as checked |
| PageSafety.OthersSafe | libs/fprobes/fprobe_change_prot.c:208-247 | so do materialisation and a change of protection that stays executable |
| PageSafety.ShortInstructionsGuard | libs/fprobes/fprober_sig_handler.c:479-508 | no zone ends early when no instruction is longer than fifteen bytes |
| PagePrograms.EarlyEndSkips | libs/fprobes/fprober_sig_handler.c:302-477 | a two-page zone ends early only in front of prefixes that reach through the second page to its last thirty-two bytes |
| PagePrograms.LdMaskStops | libs/ld.h:41-115 | the tables meet what the next two rows ask of them: the mask byte is no prefix |
| PagePrograms.MediationOfPrograms | libs/fprobes/fprober_sig_handler.c:524-679 | mediation of a page in every run, fetches unguarded, when all that is mapped or written there and in the next page holds a byte that is no prefix before its last thirty-two bytes and neither is left registered and writable |
| PagePrograms.MediationOfAnchoredPrograms | libs/fprobes/fprober_sig_handler.c:524-679 | the same whatever is left writable, when that byte has one place in all versions of each of the two pages |
| PageWitnesses.MediationFailsOnPrefixRun | libs/zone.c:942 | a run with a NOP and 8191 prefixes on two fresh pages: unchecked bytes stay visible, and the bits are right |
| PageAccess.AcceptedZoneOpens | libs/fprobes/fprober_sig_handler.c:524-679 | after an accepted fetch every page of the zone executes, is marked as checked, has its bytes as its latest copy, shows them from the start to the end counted from the last page's start, and has all of the zone in its history |
| PageAccess.UnalignedZoneIsShown | libs/zone.c:938-989 | a zone whose end lies unaligned in its last page is shown unchanged, and no other byte |
| PageAccess.AcceptedPageExecutes | libs/fprobes/fprober_sig_handler.c:755-820 | when the handler falls back to the whole page and it is accepted, the page executes as it is, all of it checked |
| PageAccess.RefusedFetchGivesNothing | libs/fprobes/fprober_sig_handler.c:542-580 | a refused fetch changes of a page at most its copies, by one |
| PageAccess.CheckedPageExecutes | libs/fprobes/fprober_sig_handler.c:155-170 | a page already checked executes again at once, with its bytes, copies and history |
| PageAccess.AddressZeroFetched | libs/fprobes/fprober_sig_handler.c:69-70 | a fetch at address zero does nothing |
| PageAccess.NextSearchedExactly | libs/fprobes/fprober_sig_handler.c:353-439 | a zone has two pages exactly if the search runs out of the first and the next one is tracked, read-only and not fetched |
| PageAccess.RegistrableExactly | libs/fprobes/fprobes_helper.c:210-313 | registering is refused exactly if the first nine bytes or the last nine are all mask bytes |
| PageAccess.HandledExactly | libs/fprobes/fprober_invalid_op.c:667-883 | when a trap is reported as handled: the verdicts, the quota, the first byte of the zone, and nine mask bytes where the search was last started |
| PageAccess.TrappedPageExecutes | libs/fprobes/fprober_invalid_op.c:757-798 | after a handled trap its page executes, and one that had no copy is marked as checked |
| PageAccess.FreshTrapShows | libs/fprobes/fprober_invalid_op.c:195-219 | a page that traps without a copy is registered and masked entirely unless it is page 0, then shows the zone of a handled trap, or is given back |
| PageAccess.EnteredPageOpens | libs/fprobes/fprober_invalid_op.c:757-798 | a second page without a copy is registered and masked; if the trap is handled with two pages it executes and shows exactly its part of the zone, and otherwise its bits stay |
| PageAccess.AfterExactly | libs/fprobes/fprober_invalid_op.c:133-219 | what the handler knows of the page after the trapping one |
| PageAccess.UnfoundTrapDoesNothing | libs/fprobes/fprober_invalid_op.c:314-345 | a trap at address zero, or in a page that has no copy and cannot get one, changes nothing |
| PageAccess.HistoryIsHonest | libs/kernel_checks.c:95-124 | nothing enters the history but by an accepted check, and then bytes the fetched page showed or of the trapped page's latest copy |
| PageAccess.WriteFaultLetsWrite | libs/fprobes/fprober_handle_mm.c:252-316 | after a write fault a page the module had made read-only is writable, shows its latest copy if it was checked, does not execute and is to be checked again |
| PageAccess.MaterialisedPage | libs/fprobes/fprober_handle_mm.c:306-326 | a page materialised again does not execute and is to be checked again, with its bytes, copies and history |
| PageAccess.AddressZeroFaulted | libs/fprobes/fprober_handle_mm.c:188-192 | a fault at address zero leaves everything but the kernel's write bit |
| PageAccess.ProtectedPage | libs/fprobes/fprobe_change_prot.c:202-247 | after a change of protection a page does not execute and is not writable; that it was checked, its bytes, copies and history stay |
| PageAccess.MappedPage | libs/fprobes/fprober_mmap.c:188-212 | a fresh page shows what was mapped, does not execute, is unchecked and has no copy |
| PageAccess.OthersUntouched | libs/fprobes/fprober_sig_handler.c:138-820 | an event changes no page but the one it names and, a fetch or a trap, the next one |
| PageMasking.TrapStepOpens | libs/fprobes/fprober_invalid_op.c:270-883 | a trap only opens: a registered page shows at least what it showed, from its own copies, and no copy is added to it |
| PageMasking.StepChains | libs/zone.c:938-989 | only a write of the process brings a byte to a page from elsewhere, and only one of a registered page can break the chain of its copies |
| PageMasking.RunChains | libs/zone.c:938-989 | over any run in which the process does not write a page while it is registered, what the page shows stays below its copies, whatever becomes of the other pages |
| PageLocking.LockedExactly | libs/zone.c:938-989 | no write the hardware allows can break the masking of a page if and only if it is not both registered and writable |
| PageLocking.StepLocks | libs/fprobes/fprober_sig_handler.c:524-640 | an event leaves a page locked if and only if it is not one of four, told from the state and the event |
| PageLocking.TrapLocks | libs/fprobes/fprober_invalid_op.c:757-798 | a trap does unless it enters the page, writable, and does not come to its end |
| PageLocking.MaskingInvariant | libs/zone.c:938-989 | after any run without those events on the page, whatever the process writes and whatever becomes of the other pages, each byte it shows while registered is its master byte or 0x0E |
| PageWitnesses.MaskingFailsOnWrite | libs/fprobes/fprober_handle_mm.c:306-316 | fetch, materialisation with the write bit, write; and refused fetch of a writable page, write: runs that break the masking |
| PageGrowth.StepGrowsExactly | libs/fprobes/fprober_sig_handler.c:358-362 | an event other than a write of the process masks an open byte of a registered page if and only if it is a fetch that registers it anew and closes that byte |
| PageGrowth.OpenOnlyGrows | libs/fprobes/fprober_invalid_op.c:742-750 | while a page stays registered and no copy is added to it no open byte is masked again |
| PageWitnesses.GrowthFailsOnNextPage | libs/fprobes/fprober_sig_handler.c:358-362 | a run in which a page already opened and checked is closed again and loses an open byte |
| PageGrowth.TrapHandles | libs/fprobes/fprober_invalid_op.c:667-883 | a handled trap gives the whole latest copy back, or opens exactly the zone from the faulting byte on, which is no mask byte in the copy |
| PageGrowth.WorkDropsExactly | libs/fprobes/fprober_invalid_op.c:667-883 | a handled trap leaves fewer masked bytes or copies if and only if it gives the copy back or the zone has a masked byte to open; otherwise no byte and no copy of the page changes |
| PageGrowth.TrapsAreBounded | libs/fprobes/fprober_invalid_op.c:667-883 | while no copy is added, the handled traps that change the page are paid for by bytes opened and copies given back |
| PageGrowth.AtMostPageTraps | libs/fprobes/fprober_invalid_op.c:667-883 | a page with one copy takes at most PAGE_SIZE of them |
| PageWitnesses.ProgressFailsOnOpenByte | libs/fprobes/fprober_invalid_op.c:736-750 | after the first fetch of a page of RETs a trap at its open first byte is handled and changes nothing |
| PageCrossing.EndFlagKeptExactly | libs/fprobes/fprober_sig_handler.c:402-407 | the flag of a page that ends inside an instruction survives the fetch if and only if the fetch was not at the first byte |
| PageCrossing.HeadKeptExactly | libs/fprobes/fprober_sig_handler.c:510-522 | bytes before the fetched one are left alone if and only if the fetch does not close the page, or the page before is flagged and the zone is not one page with an aligned end, or nothing is left to mask |
| PageCrossing.FlagsAfterZone | libs/fprobes/fprober_sig_handler.c:402-407 | the whole cross-page table after a fetch whose zone is registered |
| PageCrossing.FlagsOfUndecodable | libs/fprobes/fprober_sig_handler.c:755-767 | a page of which nothing decodes is flagged at both ends |
| PageCrossing.FlagsOfUnregistered | libs/fprobes/fprober_sig_handler.c:769-781 | the table after a fetch whose first page cannot be registered: an unaligned start and an unaligned end are flagged too |
| PageCrossing.FlagsAfterTrap | libs/fprobes/fprober_invalid_op.c:586-592 | the whole table after a trap: what the search found, and both flags of a page given back |
| FetchHandler.AddressSpace.SearchBlock | libs/fprobes/fprober_sig_handler.c:302-477 | the search loop finds the extent of the specification, sets its cross-page flags and adds its counters |
| FetchHandler.AddressSpace.RegisterPage | libs/fprobes/fprobes_helper.c:210-313 | a page is pushed on its stack of copies unless it begins or ends with nine mask bytes |
| FetchHandler.AddressSpace.RegisterPages | libs/fprobes/fprober_sig_handler.c:524-540 | pages are registered in order up to the first refused one |
| FetchHandler.AddressSpace.CloseOuterZone | libs/zone.c:938-989 | the pages show what the specification of close_outer_zone says; an empty zone, and one that starts at address zero, is refused and changes nothing |
| FetchHandler.AddressSpace.AllowPages | libs/fprobes/fprober_sig_handler.c:603-680 | the bits of the first page and of the remaining ones |
| FetchHandler.AddressSpace.OpenFirstZone | libs/fprobes/fprober_sig_handler.c:479-680 | from the end of the search to the bits: the machine's step |
| FetchHandler.AddressSpace.SigHandler | libs/fprobes/fprober_sig_handler.c:69-820 | a fetch fault takes exactly the machine's fetch step, fallbacks and address zero included |
| TrapHandler.FindFirstInvalidOpcodeByte | libs/fprobes/fprober_invalid_op.c:229-265 | the loop returns the end of the gap, or PAGE_END |
| TrapHandler.HandleCrossPage | libs/fprobes/fprober_invalid_op.c:33-80 | the fifteen-byte buffer gives the crossing of the specification |
| TrapHandler.GatherZone | libs/fprobes/fprober_invalid_op.c:679-701 | the gathered bytes are the rest of the first page and the head of the last |
| TrapHandler.WriteZone | libs/utils.c:279-418 | the scattered bytes replace start..end of the user pages and nothing else |
| TrapHandler.RestoreZone | libs/zone.c:1061-1103 | gather then scatter makes user bytes equal master bytes exactly on start..end and changes nothing else |
| TrapHandler.FindPage | libs/fprobes/fprober_invalid_op.c:133-219 | an unregistered executable page is registered and, unless it is page 0, closed entirely |
| TrapHandler.SearchTrap | libs/fprobes/fprober_invalid_op.c:351-648 | the search loop finds the extent of the specification, enters the second page when it reaches it and flags crossings |
| TrapHandler.RestoreWholePage | libs/fprobes/fprober_invalid_op.c:833-882 | the fallback: check, restore and unregister the whole page, unless nine mask bytes stand where the search was last started |
| TrapHandler.InvalidOpHandler | libs/fprobes/fprober_invalid_op.c:270-883 | a trap takes exactly the machine's trap step and reports it handled exactly when the machine says so |
| FaultHandlers.DoFaultRet | libs/fprobes/fprober_handle_mm.c:188-329 | a write fault of a writable mapping gives the page back and forgets its check; every other fault that materialises makes it non-executable and unchecked; the rest, and faults at address zero, change nothing |
| FaultHandlers.RestorePage | libs/zone.c:1112-1182 | registering the returned page gives the old one back, up to what that showed; the page shows no less than before and its copies stay a chain |
| FaultHandlers.DoMmapRet | libs/fprobes/fprober_mmap.c:188-212 | every page of an executable mapping starts marked, non-executable and unchecked |
| FaultHandlers.MappedRangeExactly | libs/fprobes/fprober_mmap.c:188-212 | which pages those are, and what each shows |
| FaultHandlers.ChangeProtection | libs/fprobes/fprobe_change_prot.c:202-247 | execution is denied, a write is made to fault, the checked mark stays |
| PageTable.FlipReadsBack | libs/page_table_libs/page_table_utils.c:172-277 | a harmless flip reads back, changes no other bit of any entry, and no address's mapping |
| PageTable.MappingKeptExactly | libs/page_table_libs/page_table_utils.c:200-230 | an address stays mapped where it was if and only if the flip does not clear bit 0, nor bit 7 of a 2 MiB mapping |
| PageTable.LeafIsOnePage | libs/page_table_libs/page_table_utils.h:41-44 | on a tree-shaped table a flip is seen by exactly the addresses of the same 4 KiB or 2 MiB page |
| PageTable.PageNumberIsIndices | libs/page_table_libs/page_table_utils.h:41-44 | the index macros together are the page number of the 48-bit address |
| PageTable.FrameExactly | libs/page_table_libs/page_table_utils.h:13 | the frame of an entry is its bits 12 to 62 and no other |
| PageTable.MapUserAddressWalks | libs/page_table_libs/page_table_utils.c:335-350 | the new address walks to the same leaf and offset, and addresses outside the reused slot are unaffected |
| PageTable.SlotIsReplaced | libs/page_table_libs/page_table_utils.c:346 | addresses of the reused slot see what the kernel's slot maps |
| PageTable.NothingIsLost | libs/page_table_libs/page_table_utils.c:310-333 | a slot below 255 is reused without loss |
| PageTable.LastSlotIsLost | libs/page_table_libs/page_table_utils.c:326-332 | when slot 255 is taken every address mapped there loses its mapping |
| PageTable.DenyAllExactly | libs/page_table_libs/page_table_utils.c:493-535 | exactly the reached writable entries lose the write bit and remember it; no walk changes |
| PageTable.NoneWritable | libs/page_table_libs/page_table_utils.c:493-535 | no visited address is writable afterwards |
| PageTable.DeniedExactly | libs/page_table_libs/page_table_utils.c:520-530 | a denied entry has lost its write bit and has bit 57, and nothing else changed |
| PageTable.VisitedExactly | libs/page_table_libs/page_table_utils.c:493-515 | the addresses visited are exactly the pages of the shared writable executable mappings |
| PageTable.PageTables.FlipBitOnOther | libs/page_table_libs/page_table_utils.c:172-231 | MAP and the flipped leaf, or NO_MAP and nothing changed |
| PageTable.PageTables.IsBitSetOnOther | libs/page_table_libs/page_table_utils.c:240-277 | the bit of the leaf, or NO_MAP |
| PageTable.PageTables.GetPageTableEntry | libs/page_table_libs/page_table_utils.c:650-687 | the leaf's entry; 0 exactly when there is none |
| PageTable.PageTables.GetFreePgdOffset | libs/page_table_libs/page_table_utils.c:310-333 | the first slot below 255 with the same table, else the first free one, else 255 |
| PageTable.PageTables.MapUserAddress | libs/page_table_libs/page_table_utils.c:335-350 | the root entry is copied into that slot and the address built from it |
| PageTable.PageTables.SetAllShPagesNonWritable | libs/page_table_libs/page_table_utils.c:478-539 | the loops over mappings and pages visit exactly the shared writable executable ones |
| RacingAdders.StepKeepsInv | libs/hlist_lock_free.h:15-29 | one memory access of any adder keeps the chain, the commit order and every adder's expectation |
| RacingAdders.ForwardChain | libs/hlist_lock_free.h:15-29 | under any interleaving the forward chain is acyclic and holds exactly the committed nodes in reverse commit order |
| RacingAdders.SwapSucceedsExactly | libs/hlist_lock_free.h:28 | a swap succeeds if and only if no node was committed since the head was read |
| RacingAdders.BackPointersRight | libs/hlist_lock_free.h:15-29 | when every swap of a run succeeds and all adders finish, every back pointer names the field before its node |
| RacingAdders.BackPointersFail | libs/hlist_lock_free.h:24-26 | an interleaving of two adders after which a back pointer is wrong |
| HList.List.AddHead | libs/hlist_lock_free.h:15-29 | the node comes first and both kinds of pointers are right |
| HList.List.DelInit | libs/hlist_lock_free.h:37-60 | exactly the node leaves, the others keep their order and pointers; an unhashed node changes nothing |
| ZoneStore.CreatedZoneIsExact | libs/zone.c:106-163 | create_zone stores exactly start..end if and only if the end lies in the last page it is told |
| ZoneStore.CreatedZoneHolds | libs/zone.c:106-163 | create_zone refuses exactly an empty zone, and otherwise stores the bytes of the zone and the caller's statistics |
| ZoneStore.TransferredZoneIsExact | libs/zone.c:18-92 | transfer_zone refuses exactly a zero address or an end before the start, and otherwise stores start, end, the bytes between and the caller's statistics as given |
| ZoneStore.TransferredZoneComesBack | driver.c:214-296 | GET_CFG_BY_PID then delivers exactly these |
| ZoneStore.TrapZonesAreExact | libs/fprobes/fprober_invalid_op.c:736 | the zones of the trap handler meet that condition |
| ZoneStore.RunConserves | driver.c:82-296 | over any sequence of operations created and earlier zones are exactly the delivered and the stored ones, and the counters stay sum and number |
| ZoneStore.AddAccounts | libs/zone.c:179-182 | adding a zone keeps the counters right if and only if its size is that of its stored range |
| ZoneStore.ReadFindsAll | driver.c:86-190 | RD_VALUE comes back empty-handed only when no zone is stored |
| ZoneStore.ReadsDrain | driver.c:86-190 | as many reads as zones deliver every zone and leave none |
| ZoneStore.ByPidFindsOwn | driver.c:241-296 | GET_CFG_BY_PID finds a zone of the process whenever one is stored, and never another's |
| ZoneStore.ZoneTable.CreateZone | libs/zone.c:106-185 | the new zone, its place and the counters, or nothing |
| ZoneStore.ZoneTable.TransferZone | libs/zone.c:18-92 | the same for a zone that keeps the end it is given |
| ZoneStore.ZoneTable.RdValue | driver.c:82-190 | the bucket loop delivers and removes the first stored zone |
| ZoneStore.ZoneTable.GetCfgByPid | driver.c:214-296 | the chain loop delivers and removes the first zone of the process |
| SyncCheck.DumbMemmem | libs/check_functions/check_functions.c:9-27 | found if and only if the needle occurs strictly before its last alignment, for a length that has wrapped around too |
| SyncCheck.CheckFunction1 | libs/check_functions/check_functions.c:29-109 | all three branches search the windows i .. min(i + size, size + bytes to the page's end) |
| SyncCheck.WindowsStayInPage | libs/check_functions/check_functions.c:49-105 | the windows move with the zone up to the end of the page of the zone's end, and none passes it |
| SyncCheck.OneSearch | libs/check_functions/check_functions.c:49-105 | for zones longer than eleven bytes they collapse to one search of their union |
| SyncCheck.OneSearchExactly | libs/check_functions/check_functions.c:49-105 | the exact condition for that |
| SyncCheck.RunKernelCheck | libs/kernel_checks.c:95-124 | 1 exactly when the results add up to the number of runs, as unsigned longs; with results of at most 1, exactly when every active check returns 1 |
| SyncCheck.VerdictRightExactly | libs/kernel_checks.c:95-124 | over all lists of checks with given possible results the verdict is 1 exactly when all returned 1, if and only if no result is below 1 or none is above it |
| SyncCheck.SumHidesARefusal | libs/kernel_checks.c:111-124 | results 0 and 2 pass |
| Flips.WeightGrows | user/jit-benchmarks/fannkuchredux/test.c:46-52 | a flip strictly increases the sum of 2^i over the places i >= 1 that hold their own number |
| Flips.CountFlips | user/jit-benchmarks/fannkuchredux/test.c:43-52 | the in-place loop ends and counts the flips |
| Flips.FlipCountExactly | user/jit-benchmarks/fannkuchredux/test.c:43-52 | the count is k exactly if the arrangement after k flips begins with 0 and no earlier one does |
| Odometer.NthInjective | user/jit-benchmarks/fannkuchredux/test.c:57-76 | no arrangement comes twice |
| Odometer.NthOnto | user/jit-benchmarks/fannkuchredux/test.c:57-76 | every permutation comes |
| Fannkuch.StepUp | user/jit-benchmarks/fannkuchredux/test.c:64-73 | a rotation that leaves the counter positive is the next number of the odometer |
| Fannkuch.StepOver | user/jit-benchmarks/fannkuchredux/test.c:64-74 | a rotation that empties it brings the level back to where it began and carries |
| Fannkuch.MaxOverAll | user/jit-benchmarks/fannkuchredux/test.c:54 | the maximum over the counted arrangements is the maximum over all permutations |
| Fannkuch.ChecksumAlternates | user/jit-benchmarks/fannkuchredux/test.c:55 | the checksum is the flips of the arrangements with even numbers less those of the odd ones |
| Fannkuch.ArrangementsOfThree | user/jit-benchmarks/fannkuchredux/test.c:57-76 | the six arrangements of three in the order the odometer brings them |
| Fannkuch.Fannkuchredux | user/jit-benchmarks/fannkuchredux/test.c:20-78 | for every n >= 1 it ends after evaluating exactly n! arrangements and returns the greatest number of flips that brings 0 to the front of a permutation, and the alternating sum |
| BrainfuckBrackets.BracketsOfFlat | user/jit-benchmarks/brainfuck/test.py:24-40 | on a balanced text the stack finds exactly the table of its tree |
| BrainfuckBrackets.JumpsPaired | user/jit-benchmarks/brainfuck/test.py:38-39 | each bracket in the table points to its partner and back |
| BrainfuckText.ReadBalanced | user/jit-benchmarks/brainfuck/test.py:30-40 | every balanced text is the text of a tree |
| Brainfuck.ParseFlat | user/jit-benchmarks/brainfuck2/test.py:28-55 | parsing the text of a tree gives its operations |
| Brainfuck.ParseFiltered | user/jit-benchmarks/brainfuck2/test.py:28-55 | characters that are no commands do not matter to the parser |
| Brainfuck.TreeToTable | user/jit-benchmarks/brainfuck2/test.py:57-66 | what the tree run does the table run does in some number of steps |
| Brainfuck.TableToTree | user/jit-benchmarks/brainfuck/test.py:42-63 | what the table run does the tree run does |
| Brainfuck.InterpretersAgree | user/jit-benchmarks/brainfuck/test.py:24-63 | for every balanced program and run that never moves left of cell 0 the one ends with a tape, head and output if and only if the other does |
| Brainfuck.OutputGrows | user/jit-benchmarks/brainfuck/test.py:42-63 | output is only added at its end |
| Brainfuck.StraightLinePrints | user/jit-benchmarks/brainfuck/test.py:42-63 | a text of +, - and . prints at each . how many more + than - came before, in both interpreters |
| Brainfuck.LoopsAndMoves | user/jit-benchmarks/brainfuck/test.py:42-63 | `[+].` and `+[-].` print 0, and `>+.<.` prints 1 and 0 |
| Brainfuck.LeftOfZeroTheyPart | user/jit-benchmarks/brainfuck/test.py:19-21 | after `<+` the heads differ |
| BrainfuckPrograms.TableProgram.ReadProgram | user/jit-benchmarks/brainfuck/test.py:24-40 | the loop keeps the commands and builds the table, for any text |
| BrainfuckPrograms.TableProgram.RunProgram | user/jit-benchmarks/brainfuck/test.py:42-63 | the loop is the table run |
| BrainfuckPrograms.Tape.Shift | user/jit-benchmarks/brainfuck2/test.py:23-26 | moving extends the tape with zeros up to the head |
| BrainfuckPrograms.ParseOps | user/jit-benchmarks/brainfuck2/test.py:28-55 | the recursive loop over the shared iterator is the parser, for any text |
| BrainfuckPrograms.RunOps | user/jit-benchmarks/brainfuck2/test.py:57-66 | the recursive loop is the tree run |

## Left out

- Shared mappings and fork: one private address space; `shared_flip_bit` returns at once in this build, and a page inherited from a parent process is not modelled.
- Runs that drop PROT_EXEC: the third branch of the write-fault handler reads `orig_write_bit` before it is set and is never taken.
- More than one block in a zone (`num_of_contiguous_block` above 1), and zones of more than two pages.
- Locks, TLB flushes, `kmalloc` and `get_user_pages` failures, and the refault of a forced write: handlers are atomic steps that succeed in writing user pages.
- The byte quota: its verdict is an input of a trap, and in the fetch handler it is off.
- 1 GiB mappings: the walk takes a level-3 entry for a pointer, as the source does.
- The kernel's own page-table updates: what its fault handling and `change_protection` leave in the write bit is an input; at address zero, where the handler does nothing, it is taken to touch no other bit.
- Threads of one process that fault at the same time.
- The timestamp, thread and user fields of a zone; GET_CFG_BY_PID copies the tail of one structure over another with a different order, so the statistics and the time it delivers are scrambled.
- `agent_*.py`, the injector, the other benchmarks, and the plotting and signature scripts: input, output and data analysis.
- PageSafety.CompleteMediation: the history records pairs of an index and a byte value, not the ranges themselves, and begins anew at the write faults the handler sees; a fetch is taken under the exact guard of `FetchStepSafe`, which `MediationOfPrograms` and `MediationOfAnchoredPrograms` discharge.
- PageLocking.MaskingInvariant: holds of runs in which no event leaves the page registered and writable; `StepLocks` says which do, and `LockedExactly` why that is needed.
- RacingAdders.BackPointersRight: sufficient, not necessary; a failed swap may be repaired by a later one.
- SyncCheck.VerdictRightExactly: fewer than 2^32 checks, so that the totals cannot wrap around into agreement.
- TrapHandler.InvalidOpHandler: a trap is excluded when the search goes on in a usable second page with more than fifteen bytes left over, and so writes past the crossing buffer; `ShortInstructionsStitch` says when there is none.
- TrapHandler.HandleCrossPage: likewise a leftover of more than fifteen bytes, which the source copies past the end of its buffer.
- FindRet.FindRet: the source reads memory without a bound; a search that leaves the array says so.
- RacingAdders.ForwardChain: adders only; deleting while others add is not modelled.
- HList.List.DelInit: the swap compares a word with itself, so it always succeeds; that is modelled by a plain store.
- SyncCheck.CheckFunction1: the buffer is taken to hold every byte the windows reach, as a whole page does; `num_of_sync_checks` is not negative.
- PageTable.NothingIsLost: the kernel address has a valid root entry, as a mapped address has.
- Fannkuch.Fannkuchredux: C's ints are unbounded, so the overflow of the counters at large n is not modelled.
- Brainfuck.InterpretersAgree: the condition is on the run and goes one way; `chr()` of a cell that is no character is left out, and a bound on the steps stands for the time a run may take.
