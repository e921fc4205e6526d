# Verification of the AMX Mod X virtual machine and its runtime

Dafny models of the parts of AMX Mod X in which plugins are loaded, run, called and scheduled, with proofs of what
these parts promise. `dafny verify dfyconfig.toml` checks everything.

Programs from compiler to machine:

- `Expand.dfy`: compact encoding as the compiler writes it, and in-place expansion with its ring of parked outputs.
- `Amx.dfy`, `Loader.dfy`: the instruction set of the abstract machine; relocation of the code block and the peephole
  rewrite of float natives.
- `Machine.dfy`: the interpreter as a transition system. Relocation and rewrite together preserve every run.
- `Track.dfy`: which programs stay on instructions.
- `AmxInit.dfy`: the whole way, from the cells the compiler has to the program that runs.
- `Words.dfy`, `Wrappers.dfy`: bytes and cells, optional values.
- `PackedString.dfy`, `Utf8.dfy`: strings in machine memory, and the UTF-8 codec of RFC 2279 section 2.

Text:

- `Strings.dfy`: strcmp and strstr.
- `Smc.dfy`, `SmcParser.dfy`: the SMC parser as a function on the whole input, with its bracketing theorems, and as the
  loop that updates flags and staged strings, proved equal to it.
- `SmcPrinter.dfy`: writing documents, and exactly when reading them back succeeds.
- `SmcComments.dfy`: what lies between strings, and words without quotes.
- `GameConfig.dfy`: the game-config listener on top of the parser.

The runtime around plugins:

- `ForwardSlots.dfy`: single-plugin forwards, their reuse and deferred deletion.
- `Marshal.dfy`: the call itself: parameters in machine memory, nested execution, copying back, results.
- `Tasks.dfy`, `Commands.dfy`, `Events.dfy`, `LogEvents.dfy`, `Tracer.dfy`, `DataPack.dfy`: timers, command lists, message
  filters, log filters, the debugger's call stack and the tagged serialiser.

How the models are built. Code that updates fields is a class whose methods are proved equal to a function on values,
and the theorems are about that function, over every run. Actions of plugins inside a callback are a script that may
contain further calls, so statements about every script are statements about every nesting. What is outside the code
(clocks, plugin state, natives, floating-point operations, the game host) is a parameter. Undefined behaviour of C is
an explicit outcome (`None`, `Stuck`, `AssertionFails`, `Unterminated`), and theorems say when it does not occur.
Several obvious claims fail in corner cases; there the code is modelled as it is and the exact condition is proved, as
in `Machine.RoundExactly`, `Smc.UnendedExactly`, `SmcPrinter.PrintParse`, `GameConfig.ConservedExactly`,
`ForwardSlots.ReentryExactly`, `Marshal.StackExactly`, `Marshal.HandedBackExactly`,
`PackedString.UnpackedExactly` and `Commands.InsertExactly`.

Where comments and code differ the code is followed: ET_STOP stops on any positive result, not only on
PLUGIN_HANDLED (amxmodx/CForward.h:35), and an empty data pack accepts every position instead of refusing those
out of bounds (amxmodx/CDataPack.h:58-64).

## Model

| member | source | states |
|---|---|---|
| Expand.Expand | amxmodx/amx.cpp:789-841 | In-place expansion succeeds exactly on the streams whose cells (one to five groups, sign-extended) fill the memory block and never need more than 64 parked outputs; then memory is the little-endian image of the cells of a simple forward decoder, and nothing behind the block changes |
| Expand.ReadCell | amxmodx/amx.cpp:802-820 | Reading backwards finds the last cell of the unread part: fails exactly when its last byte has the continuation bit or it has more than five groups, else the value is the forward decoder's |
| Expand.SignExpand | amxmodx/amx.cpp:815-820 | The byte-wise fill sets every bit from `shift` up, as sign extension from bit 6 of the first group demands |
| Expand.BackwardIsForward | amxmodx/amx.cpp:802-820 | Accumulating groups from the last one with growing shifts gives the same 32-bit value as folding them from the first |
| Expand.Flush | amxmodx/amx.cpp:821-826 | Exactly the parked outputs whose slots lie above the read position are stored, in order, without touching unread input |
| Expand.StoreNow | amxmodx/amx.cpp:827-830 | A cell stored at once lands in its slot and leaves every unread byte alone |
| Expand.Place | amxmodx/amx.cpp:827-837 | The new cell is stored, or parked in descending slot order; a full ring is refused exactly when the stream is not acceptable |
| Expand.Round | amxmodx/amx.cpp:801-838 | One round keeps: ring and memory together hold exactly the forward decoding of what has been read, and the ring holds exactly the outputs at or below the read position |
| Expand.RingExactly | amxmodx/amx.cpp:795-836 | The ring of 64 never overflows if and only if, for every cell, the smaller of the number of later cells and the bytes by which input leads output is below 64 cells |
| Expand.MarginSuffices | amxmodx/amx.cpp:831-836 | If every k-cell prefix takes fewer than 4k + 256 bytes the ring suffices |
| Expand.LongCellRejected | amxmodx/amx.cpp:804-813 | A stream with an unfinished cell or one of more than five groups has no decoding |
| Expand.DecodeConcat | amxmodx/amx.cpp:801-838 | Decoding a stream split at a cell boundary is decoding the parts: what lets a backward pass equal a forward one |
| Expand.SevenBits | compiler/libpc300/sc6.c:212-215 | The five groups of seven bits stand for the cell |
| Expand.StripSign | compiler/libpc300/sc6.c:216-223 | The groups dropped are ones sign extension restores, and no more could be dropped |
| Expand.WriteEncoded | compiler/libpc300/sc6.c:206-230 | The bytes written for any 32-bit cell decode to that cell, and are the fewest groups of seven bits that hold it as a signed number |
| Expand.WriteCells | compiler/libpc300/sc6.c:206-240 | The compiler gives up if and only if after some cell the output leads the input by 62 bytes; otherwise its output is accepted by the in-place expansion and decodes to the cells written |
| Loader.OnBrowseRelocate | amxmodx/optimizer.cpp:36-78 | A SYSREQ.C whose operand is a known float native becomes that native's opcode and NOP, the first match winning; any other keeps its operand; the walk moves past the operand |
| Loader.RelocateCases | amxmodx/amx.cpp:758-770 | Default and every target of a case table are moved once; counts and values stay |
| Loader.RelocateOperands | amxmodx/amx.cpp:582-774 | For every opcode but SYSREQ.C: exactly its code-address operands are moved, and the walk ends at the next instruction |
| Loader.RelocateOne | amxmodx/amx.cpp:564-775 | One instruction is rewritten to its relocated form and no other cell changes |
| Loader.BrowseRelocate | amxmodx/amx.cpp:508-786 | The walk succeeds exactly on blocks tiled by instructions, the last of which may lack operands that are only stepped over; then every instruction has its relocated form: label for opcode, every jump and case operand moved exactly once, nothing else touched |
| Loader.WellFormedAccepted | amxmodx/amx.cpp:564-775 | Blocks whose last instruction is whole are among them |
| Loader.Disjoint | amxmodx/amx.cpp:564-775 | Instructions of a block do not overlap |
| Loader.SetupStage2 | amxmodx/optimizer.cpp:84-126 | Native indices are looked up for exactly the names the level enables; without the processor capability the comparison bit is switched off |
| Amx.StoreLoad | amxmodx/amx.cpp:1790-1945 | A cell stored in the data segment is what a load of that address gives, and loads of cells apart from it are unchanged |
| Machine.StepMoved | amxmodx/amx.cpp:1785-2612 | Away from patched calls, one step of the loaded program from the corresponding instruction does exactly what the original does: same registers and data, corresponding instruction |
| Machine.SwitchMoved | amxmodx/amx.cpp:2508-2518 | SWITCH in the relocated block takes the corresponding case or default |
| Machine.ScanMoved | amxmodx/amx.cpp:2513-2516 | The case-table search finds the same record before and after relocation |
| Machine.TargetMoved | amxmodx/amx.cpp:2082-2170 | CALL, jumps and all conditional jumps go to the corresponding instruction, or fall through, together |
| Machine.FloatAgrees | amxmodx/float.cpp:57-241 | Each float opcode computes what the native of the same name computes, over any floating-point operations, for floatround in modes 0 to 2 |
| Machine.RoundExactly | amxmodx/amx.cpp:2567-2578 | The rounding opcode agrees with the native for every operand if and only if the mode is 0, 1 or 2 |
| Machine.PatchedMoved | amxmodx/amx.cpp:2445-2465 | A patched native call: one step of the original corresponds to the float opcode and a NOP, with the same PRI, ALT, frame, stack, heap and data |
| Machine.RunMoved | amxmodx/amx.cpp:1785-2612 | For every run of the original that stays on its instructions and in defined behaviour, of any length, the loaded program reaches the corresponding state, taking two steps for each patched call and one otherwise |
| Track.StepLands | amxmodx/amx.cpp:1785-2612 | When every code address in the program names an instruction, each instruction but RET, RETN, CALL.PRI, JUMP.PRI, JREL and SCTRL 6 leads to an instruction or behind the last: calls, jumps, case tables and falling through |
| Track.StaysOnTrack | amxmodx/amx.cpp:1785-2612 | So such a program stays on instructions in every run whose computed transfers do |
| Track.ClosedRunMoved | amxmodx/amx.cpp:1785-2612 | And loading preserves every such run that starts on an instruction |
| AmxInit.Init | amxmodx/amx.cpp:878-908 | A compressed program is expanded and its code block relocated: the code is the relocated form of what the stream encodes and the data is what it encodes |
| AmxInit.CompileAndLoad | amxmodx/amx.cpp:844-911 | From compiler to machine: unless compression is given up, cells written in compact form, expanded in place and relocated give a program each of whose runs corresponds to the run of the cells as compiled |
| AmxInit.ImageHolds | amxmodx/amx.cpp:829-830 | A cell stored by the expansion is the cell read at its address |
| Smc.StepInv | amxmodx/CTextParsers.cpp:395-703 | For every character, state and listener: events stay bracketed, the level equals their depth, no string is staged inside a block comment, and no assertion fails |
| Smc.NewlineInv | amxmodx/CTextParsers.cpp:398-456 | The end of a line keeps the invariant; properties are told only inside a section |
| Smc.OpenInv | amxmodx/CTextParsers.cpp:567-598 | An opening brace keeps the invariant and deepens by one |
| Smc.CloseInv | amxmodx/CTextParsers.cpp:599-642 | A closing brace keeps the invariant; sections are left only when one is open |
| Smc.ParseWell | amxmodx/CTextParsers.cpp:281-774 | For every input and every listener: ParseStart once and first, ParseEnd once and last, depth never negative, properties only at depth one or more and with both strings present, sections with a name, and no assertion fails |
| Smc.OkayIsClosed | amxmodx/CTextParsers.cpp:744-763 | If the listener always continues, Okay means every section opened was closed |
| Smc.UnendedExactly | amxmodx/CTextParsers.cpp:567-642 | Over every parse: a key always has an end; a name or value that nothing terminates is told if and only if, outside quotations and comments, an opening or closing brace arrives while that string is still being read |
| Smc.StepEnded | amxmodx/CTextParsers.cpp:395-703 | The same for one character in every state that keeps the invariants |
| Smc.NameRunsOn | amxmodx/CTextParsers.cpp:567-598 | The file `A{` and `}` tells a section whose name nothing terminates |
| SmcParser.Parser.StepAt | amxmodx/CTextParsers.cpp:395-703 | Each round of the loop moves the fields as the transition function says |
| SmcParser.Parser.ParseStream | amxmodx/CTextParsers.cpp:323-774 | The loop's result and events are those of the parse function whose bracketing is proved |
| SmcParser.UnescapeLoop | amxmodx/CTextParsers.cpp:238-268 | Unescaping in place writes the unescaped text over the escaped one, never overtaking what is still to be read |
| SmcParser.FixupInPlace | amxmodx/CTextParsers.cpp:218-273 | A string with escapes ends up as its unescaped text with a terminator, so that what is read at the pointer is the text the events carry |
| SmcParser.FixupPair | amxmodx/CTextParsers.cpp:218-273 | Both strings of a property fixed up in one buffer, in either order: each reads as its text, except that a value beginning where the key ends reads as nothing |
| SmcPrinter.UnescapeEscape | amxmodx/CTextParsers.cpp:238-268 | Unescaping undoes escaping, for every text |
| SmcPrinter.QuoteCloses | amxmodx/CTextParsers.cpp:459-488 | A quotation of an escaped text is closed by its quote exactly when the text does not end in a backslash |
| SmcPrinter.HeldRun | amxmodx/CTextParsers.cpp:395-703 | Whatever follows, a token waiting to be a name or key is in the next structural event, if there is one |
| SmcPrinter.ItemRun | amxmodx/CTextParsers.cpp:395-703 | A written item is read back as its events if and only if none of its strings ends in a backslash or contains a NUL |
| SmcPrinter.PrintParse | amxmodx/CTextParsers.cpp:281-774 | Writing any document and parsing it tells a continuing listener exactly that document if and only if no name, key or value ends in a backslash or contains a NUL |
| SmcComments.LineCommentInvisible | amxmodx/CTextParsers.cpp:525-566 | Outside a string, whatever is staged on the line, a comment to the end of the line changes nothing: the parse goes on as if the line ended where it starts |
| SmcComments.BlockCommentInvisible | amxmodx/CTextParsers.cpp:489-558 | A block comment on one line, or over any number of lines unless a whole pair stands before it, tells the listener nothing but raw lines and leaves level and staged strings alone; it ends at the first star and slash behind its opening slash |
| SmcComments.BlockCommentEndsPair | amxmodx/CTextParsers.cpp:398-456 | A pair before a block comment is told at the first newline inside the comment, with its own key and value; outside of all sections the parse fails there |
| SmcComments.BlanksInvisible | amxmodx/CTextParsers.cpp:674-698 | White space outside strings changes nothing, whatever is staged on the line |
| SmcComments.WordKeyRun | amxmodx/CTextParsers.cpp:659-698 | A word without quotes and a blank are staged as the same key in quotes would be |
| SmcComments.WordPairRun | amxmodx/CTextParsers.cpp:398-456 | A line of two words without quotes is told as that pair, each cut at its first NUL |
| SmcComments.QuotationErased | amxmodx/CTextParsers.cpp:398-456 | A quotation nothing closes, right behind an unquoted key, is told as the empty value whatever it holds |
| GameConfig.HearKeeps | amxmodx/CGameConfigs.cpp:84-296 | Unless a section is misplaced, each event changes the accounted depth as it changes the number of open sections |
| GameConfig.LeaveKeeps | amxmodx/CGameConfigs.cpp:503-738 | Leaving a section lowers the accounted depth by exactly one, from every state |
| GameConfig.MisplacedTraps | amxmodx/CGameConfigs.cpp:124-190 | A misplaced section breaks the count at once or leaves a state in which it will be broken |
| GameConfig.ForeignExactly | amxmodx/CGameConfigs.cpp:124-190 | By name, the sections misplaced in a class: CRC, #supported of the default game, a registered name no known word hides, and Classes when the class has an empty name; they are the ones that enter a state of the game alone or a second level of classes |
| GameConfig.TrappedStays | amxmodx/CGameConfigs.cpp:503-738 | From such a state the count stays broken or the state stays trapped |
| GameConfig.ConservedExactly | amxmodx/CGameConfigs.cpp:84-738 | After every event depth by state + ignore level + custom level equals the number of open sections, if and only if no #supported, CRC or custom section was opened inside a class and no class had an empty name when Classes was opened in it |
| GameConfig.ParsedFileEndsFresh | amxmodx/CGameConfigs.cpp:853-884 | Any successfully parsed file without misplaced sections leaves the start state with both levels zero |
| GameConfig.NoCustomLeft | amxmodx/CGameConfigs.cpp:503-516 | Wherever custom sections were opened, misplaced or not, a successfully parsed file has closed them all |
| GameConfig.CrcInClassBreaks | amxmodx/CGameConfigs.cpp:162-172 | A written file with CRC inside a class is parsed without an error and with every section closed, and its nesting is not conserved |
| GameConfig.SupportedExactly | amxmodx/CGameConfigs.cpp:401-432 | Whether a #supported section turns reading on: if and only if at some game or engine line every kind given up to there had matched; later lines that do not match take nothing back |
| GameConfig.Reader.ReadKeyValue | amxmodx/CGameConfigs.cpp:298-501 | The callback for properties: only #supported and CRC decide whether a game is read |
| GameConfig.Reader.ReadNewSection | amxmodx/CGameConfigs.cpp:84-296 | The callback for a section opens one level: from every state that keeps the invariant and for every name not misplaced, the invariant is kept and the accounted depth grows by one |
| GameConfig.Reader.ReadLeavingSection | amxmodx/CGameConfigs.cpp:503-738 | The callback for leaving a section: from every such state at depth one or more the invariant is kept and the accounted depth falls by one |
| GameConfig.Reader.EnterFile | amxmodx/CGameConfigs.cpp:853-884 | Reading a file plays the parser's events to the listener; a file that fails inside a custom section takes the custom level back; no file, good or bad, leaves a custom level behind; on success without misplaced sections the listener is back in its start state |
| ForwardSlots.ReuseInv | amxmodx/CForward.cpp:422-431 | Registration takes the slot on top of the stack, which nobody held, dying or running |
| ForwardSlots.MissInv | amxmodx/CForward.cpp:453-486 | A name that is not found overwrites the inspected slot but leaves it free |
| ForwardSlots.AppendInv | amxmodx/CForward.cpp:432-448 | With no free slot a new handle nobody had is appended |
| ForwardSlots.UnregisterInv | amxmodx/CForward.cpp:576-593 | Giving up an idle handle frees its slot at once, a running one only marks it |
| ForwardSlots.LeaveInv | amxmodx/CForward.cpp:497-504 | At the end of a call a marked slot goes on the stack, once, and no other slot changes |
| ForwardSlots.ExecInv | amxmodx/CForward.cpp:240-266 | Whatever the callback does, at any nesting: the slot is not freed or reused while it runs, and if it was given up meanwhile it is freed exactly once when the call ends |
| ForwardSlots.PerformInv | amxmodx/CForward.cpp:402-512 | Every allowed action keeps the slots partitioned into held, dying and free, the stack without duplicates, and running calls in their slots |
| ForwardSlots.RunInv | amxmodx/CForward.cpp:402-593 | The same after every run from the start, with nothing left running |
| ForwardSlots.ReentryExactly | amxmodx/CForward.cpp:240-266 | Executing a running handle, whatever its callback does, leaves the outer call its protection if and only if that handle is already marked for deletion or its plugin is not executable; then nothing changes, and otherwise no bookkeeping of holders keeps the invariant |
| ForwardSlots.ReentryReuses | amxmodx/CForward.cpp:240-266 | Re-entering a held handle, giving it up and registering again puts another function into the slot still running |
| ForwardSlots.ReentryFromStart | amxmodx/CForward.cpp:240-266 | A script that from the start brings this about: the handle of a call still running names another function |
| ForwardSlots.StaleExactly | amxmodx/CForward.cpp:576-593 | Giving up a handle one does not hold duplicates a stack entry if and only if its slot was left overwritten by a failed registration |
| ForwardSlots.ForwardManager.RegisterSPForward | amxmodx/CForward.cpp:417-486 | Both registrations keep the slots partitioned; a successful one returns a handle that nobody held, was giving up or runs under, with the new function in its slot |
| ForwardSlots.ForwardManager.UnregisterSPForward | amxmodx/CForward.cpp:576-593 | Given up by its holder, a handle is pushed on the stack of free slots exactly if it is not running, and the slots stay partitioned |
| ForwardSlots.ForwardManager.ExecuteForwards | amxmodx/CForward.cpp:493-512 | Execution with a callback that may come back into the manager |
| Marshal.AllotExactly | amxmodx/amx.cpp:3721-3722 | The unsigned test accepts exactly the requests that leave the margin if and only if the request is not larger than the gap itself |
| Marshal.PrepareFits | amxmodx/CForward.cpp:62-113 | With room, every object is copied to its own block, one behind the other, and only those blocks are written |
| Marshal.PushFits | amxmodx/CForward.cpp:115-119 | Pushing backwards leaves the parameters in order, the first lowest, and counts them |
| Marshal.CalleeSees | amxmodx/CForward.cpp:62-128 | The called function finds return address 0, the byte count, the parameters in order and every object at the address passed for it; all other cells are unchanged |
| Marshal.Restores | amxmodx/CForward.cpp:40-221 | At any nesting depth of forwards on any machines: if every call has room, for its arrays as they are prepared when its turn comes, and ends by HALT or an aborting error, all heap tops, stack pointers and parameter counts are as before |
| Marshal.StackExactly | amxmodx/amx.cpp:1776-1783 | When the allotments succeed the stack pointer is restored if and only if there are no parameters or there is room for them, the byte count, the return address and the margin; otherwise the function does not run |
| Marshal.CleanRestores | amxmodx/CForward.cpp:145-190 | Releasing the blocks in parameter order takes the heap top back to where they begin |
| Marshal.OutAndIn | amxmodx/CForward.cpp:145-190 | An object copied back and passed again is what the function left in its block |
| Marshal.LeftBehind | amxmodx/CForward.cpp:145-190 | After a plugin's turn in which no array in use was prepared again, the host's object is what that plugin left in its block |
| Marshal.HandedOn | amxmodx/CForward.cpp:49-190 | Along the whole list of plugins, for every execution type, while no array in use is prepared again: each plugin called finds in an object passed for copying back, referred to once, what the one called before it left in its block, the first one the object of the host, and in the end the host has what the last one left |
| Marshal.SteadyExactly | amxmodx/CForward.cpp:493-512 | With room, the arrays in use stay as they were passed if and only if the scripts alone, simulated on the table of prepared arrays and its counter, leave them so |
| Marshal.HandedBackExactly | amxmodx/CForward.cpp:160-176 | Whatever was prepared during the call: the object passed holds what the function left in its block if and only if the part of it that the entry no longer covers held that already |
| Marshal.PreparedAgainFails | amxmodx/CForward.cpp:777-797 | A function that executes a forward and then prepares an array takes the place of the one passed: the object passed is not written, the other one is, and the next plugin is given the other one |
| Marshal.HandedOnFails | amxmodx/CForward.cpp:777-797 | So for such a function the hand-over fails although there is room |
| Marshal.PreparedLargeFails | amxmodx/CForward.cpp:78-91 | Room for the arrays as passed is not enough: a large array prepared inside the first call makes the second plugin's turn undefined, while without it the same forward has room throughout |
| Marshal.ForwardResult | amxmodx/CForward.cpp:192-221 | ET_IGNORE gives 0; ET_STOP the first positive result and no later calls; ET_STOP2 gives 1 and no later calls, or the greatest result; ET_CONTINUE the greatest; never below 0 |
| Marshal.Runtime.AmxAllot | amxmodx/amx.cpp:3710-3729 | A request not larger than the gap between heap and stack is granted exactly when the margin stays free; the address is the old heap top |
| Marshal.Runtime.PrepareTmpArray | amxmodx/CForward.cpp:777-797 | An array takes the next entry and its number is returned; when all are taken preparing starts again and the number is -1 |
| Marshal.Runtime.AmxRelease | amxmodx/amx.cpp:3731-3736 | The heap top never rises and ends at or below the address; nothing else changes |
| Marshal.Runtime.AmxExec | amxmodx/amx.cpp:1735-1783 | Entry pushes byte count and return address and clears the parameter count; bad registers or a missing margin return early; HALT and ABORT restore |
| Marshal.Runtime.CopyParamsIn | amxmodx/CForward.cpp:62-113 | The loop that allots and copies in |
| Marshal.Runtime.PushParams | amxmodx/CForward.cpp:115-119 | The loop that pushes, from the last parameter |
| Marshal.Runtime.CopyParamsOut | amxmodx/CForward.cpp:145-190 | The loop that copies back, through the entries as they are after the call, and releases |
| Marshal.Runtime.RunPlugins | amxmodx/CForward.cpp:49-221 | The loop over the plugins and its stopping rules |
| Marshal.Runtime.ExecuteForward | amxmodx/CForward.cpp:40-221 | The object executes a forward as the function on worlds does, nested calls included, and starts preparing anew at its end |
| Tasks.RunInv | amxmodx/CTask.cpp:15-80 | Over every run, whatever callbacks register, remove or change: the registrations of each forward equal its unregistrations plus the slots that hold it |
| Tasks.UnregisteredOnce | amxmodx/CTask.cpp:49-56 | A forward registered once is unregistered exactly once if its slot is gone, and not before |
| Tasks.OldRunSparesNew | amxmodx/CTask.cpp:120-153 | A callback that removes its own timer is not charged for it, its slot is not handed out while it runs, and what it registers is untouched by the old run |
| Tasks.FrameKeeps | amxmodx/CTask.cpp:270-281 | A frame treats each timer once, as if it were alone |
| Tasks.RunKeeps | amxmodx/CTask.cpp:99-281 | Over every run that neither removes nor changes it, a timer has the calls and the end it would have alone |
| Tasks.Lifetime | amxmodx/CTask.cpp:134-153 | Endless ones stay; one good for n calls is gone exactly when it has had n; with none it goes at its first due frame |
| Tasks.NeverEarly | amxmodx/CTask.cpp:113-116 | The k-th call is never before k periods after the first due time |
| Tasks.Finishes | amxmodx/CTask.cpp:99-154 | With n frames at or after the last due time all n calls are made |
| Tasks.TaskRuns | amxmodx/CTask.cpp:15-154 | Registered at t0 with repeat n >= 1, neither removed nor changed, over any run: at most n calls, at most one a frame, the k-th not before t0 + k * base, gone exactly after n, and all n made once n frames came at or after t0 + n * base |
| Tasks.CallbackTaskRuns | amxmodx/CTask.cpp:15-154 | The same for a timer a callback registers in the middle of a frame, such as one that registers itself again: over the rest of that frame and any later steps, whatever else the callback does before and after; it is called in that frame only if its interval is zero or less |
| Tasks.CallRegisters | amxmodx/CTask.cpp:120-153 | The timer registered inside a callback lies new in a slot other than the running one when the call is over |
| Tasks.TaskMngr.RegisterTask | amxmodx/CTask.cpp:203-223 | The first slot that is free and not executing is reused, else one is appended |
| Tasks.TaskMngr.RemoveTasks | amxmodx/CTask.cpp:225-239 | All matching slots are cleared and counted |
| Tasks.TaskMngr.ChangeTasks | amxmodx/CTask.cpp:241-256 | All matching slots get the new base and, unless executing, a new time |
| Tasks.TaskMngr.ExecuteIfRequired | amxmodx/CTask.cpp:99-154 | One slot's turn: the call, then the charge or the end |
| Tasks.TaskMngr.StartFrame | amxmodx/CTask.cpp:270-281 | The loop over the slots there were at the start of the frame |
| PackedString.SetPacked | amxmodx/amx.cpp:3798-3824 | For every string without NUL and every limit of m >= 1 cells the memory then means the longest prefix of at most 4m - 1 characters |
| PackedString.PackMeans | amxmodx/amx.cpp:3801-3823 | Swapping cells of laid-out characters and unpacking gives the characters back, whatever follows in memory |
| PackedString.SetUnpacked | amxmodx/amx.cpp:3826-3841 | Unpacked storing keeps the longest prefix of at most m - 1 characters, each sign-extended |
| PackedString.UnpackedExactly | amxmodx/amx.cpp:3826-3841 | An unpacked string reads back as itself if and only if it is empty or begins with a character below 128 |
| PackedString.GetString | amxmodx/amx.cpp:3848-3893 | The destination gets the longest prefix of the text that leaves room for the terminator, terminated; a packed text that ends early is terminated twice; nothing else is written |
| PackedString.StrLen | amxmodx/amx.cpp:3752-3785 | For every terminated string, packed or not, the result is the length of the text GetString reads |
| PackedString.FullCells | amxmodx/amx.cpp:3763-3777 | The first zero byte in address order lies in the same cell as the terminator |
| Utf8.PutExactly | amxmodx/amx.cpp:3990-4047 | A non-negative value is stored if and only if it is no surrogate, not 0xfffe or 0xffff, and its encoding fits |
| Utf8.PutGet | amxmodx/amx.cpp:3907-3981 | Decoding an encoding returns the value and consumes exactly its bytes, whatever follows |
| Utf8.GetPut | amxmodx/amx.cpp:3907-3981 | Whatever decodes is the only encoding of its value: encoding gives the same bytes |
| Utf8.RoundTripExactly | amxmodx/amx.cpp:3990-4047 | Over all 32-bit values the round trip holds for exactly the encodable ones |
| Utf8.EncodeInjective | amxmodx/amx.cpp:4050-4063 | No two texts share an encoding |
| Utf8.Check | amxmodx/amx.cpp:4050-4063 | A string is accepted if and only if it encodes a text, and then the count is that text's length |
| DataPack.CDataPack.CheckSize | amxmodx/CDataPack.cpp:52-67 | The capacity doubles until the need fits, and every byte is kept |
| DataPack.CDataPack.Pack | amxmodx/CDataPack.cpp:96-152 | An item packed anywhere replaces what lay there, keeps every other byte across growth, and adds its size to the count |
| DataPack.CDataPack.ReadCell | amxmodx/CDataPack.cpp:170-201 | At an item boundary or the end: a cell is returned and the cursor moves behind it; for any other item the result is 0 and the cursor stays |
| DataPack.CDataPack.ReadFloat | amxmodx/CDataPack.cpp:203-234 | The same for floats |
| DataPack.CDataPack.ReadText | amxmodx/CDataPack.cpp:241-288 | The same for strings |
| DataPack.CDataPack.SetPosition | amxmodx/CDataPack.cpp:159-168 | A position is accepted if and only if it is below the count or nothing is counted |
| DataPack.CDataPack.Reset | amxmodx/CDataPack.cpp:69-72 | The position goes back to the start of what the pack holds; with the size reset too any pack holds nothing, as a fresh one does |
| DataPack.AtBoundary | amxmodx/CDataPack.cpp:170-268 | What the readers see where an item begins: its own type and value, and nothing of another type |
| DataPack.AppendExactly | amxmodx/CDataPack.cpp:96-152 | Packing at the end of what is counted appends an item; the count reaches exactly as far as what was written if and only if the cursor was there |
| DataPack.OverwriteMeets | amxmodx/CDataPack.cpp:96-152 | Packing over a counted item: a reader there meets the new one; all others stay readable if it is as long as the old one, else readers behind it meet what the old bytes happen to be; the count then lets readers on behind the last item |
| DataPack.PackAndRead | amxmodx/CDataPack.cpp:69-288 | Packing any cells, floats and NUL-free strings into a pack that holds none, rewinding and reading with matching types returns them all and ends at the end |
| DataPack.FreshPackAndRead | amxmodx/CDataPack.cpp:69-288 | So for a fresh pack |
| DataPack.ResetPackAndRead | amxmodx/CDataPack.cpp:69-288 | And for any pack after position and size were reset, whatever it held |
| Commands.CmdMngr.SetCmdLink | amxmodx/CCmd.cpp:129-147 | Sorted insertion keeps the list in order, the new command behind its equals, all others where they were |
| Commands.NotBeforeTrans | amxmodx/CCmd.cpp:139-142 | The order by command and then argument is total |
| Commands.CmdMngr.GetCmd | amxmodx/CCmd.cpp:65-102 | Whatever was asked before, the answer is the id-th accessible, executable, listed command of the list; a negative number finds its command |
| Commands.CmdMngr.GetCmdNum | amxmodx/CCmd.cpp:104-122 | The count of such commands |
| Commands.CmdMngr.Listed | amxmodx/CCmd.cpp:65-122 | A number has a command if and only if it is below the count |
| Commands.NthUnique | amxmodx/CCmd.cpp:88-99 | A number names at most one command |
| Commands.InsertExactly | amxmodx/CCmd.cpp:129-147 | A command inserted under a waiting cursor leaves later answers right if and only if it does not qualify, lies behind the cursor, or the cursor is at the end waiting for a number still out of range |
| Commands.CmdMngr.ClearBufforedInfo | amxmodx/CCmd.cpp:255-263 | Resetting the cursor makes every later answer right again |
| Events.Filter | amxmodx/CEvent.cpp:278-326 | One value: an event goes on unless it has conditions on this parameter and none holds |
| Events.Test | amxmodx/CEvent.cpp:287-317 | The inner loop: whether a condition on the parameter holds, and whether there is any |
| Events.EventsMngr.NextParam | amxmodx/CEvent.cpp:72-111 | Room for the next parameter; those parsed before survive growth |
| Events.EventsMngr.ParserInit | amxmodx/CEvent.cpp:221-276 | Before the first value exactly the events the flags admit are still in play |
| Events.EventsMngr.ParseValue | amxmodx/CEvent.cpp:278-417 | After any prefix of the message the events in play are exactly those that pass on it, and the vault holds the prefix |
| Events.Fire | amxmodx/CEvent.cpp:462-479 | The events in play are called in order with all arguments and stamped; every flag is clear afterwards |
| Events.EventsMngr.ExecuteEvents | amxmodx/CEvent.cpp:420-488 | The calls of a message, with the read vault restored |
| Events.EventsMngr.Message | amxmodx/CEvent.cpp:221-488 | A whole message that starts no other, at any time: an active event is called if and only if the flags admit it and every parsed parameter with conditions satisfies one of them; all done flags are clear again and the next message can come |
| Events.EventsMngr.Messages | amxmodx/CEvent.cpp:221-488 | Any sequence of messages: each makes the calls of the batch reading on the events as those before it left them, and the manager can take the next |
| Events.StampsOnly | amxmodx/CEvent.cpp:420-488 | However many messages came, only the stamps of events have changed |
| Events.AnyTime | amxmodx/CEvent.cpp:221-326 | So an event not limited to once passes on a message whatever messages came before |
| Events.PassesSnoc | amxmodx/CEvent.cpp:278-326 | Passing on a longer message is passing on the shorter one and on the new value |
| LogEvents.LogEventsMngr.CompareCondition | amxmodx/CLogEvent.cpp:32-43 | The result is right for this line, and a condition is evaluated only if it was not yet on this line |
| LogEvents.LogEventsMngr.RegisterCondition | amxmodx/CLogEvent.cpp:45-69 | A known condition is shared, a new one is added unevaluated |
| LogEvents.LogEventsMngr.RegisterFilter | amxmodx/CLogEvent.cpp:71-92 | The filter joins the filters of exactly this event and nothing else changes |
| LogEvents.WithCondAdds | amxmodx/CLogEvent.cpp:76-92 | Grouping by argument keeps one group an argument and adds exactly the new condition |
| LogEvents.MeetsExactly | amxmodx/CLogEvent.cpp:212-228 | The nested loops' condition holds if and only if every argument with filters satisfies one of them |
| LogEvents.LogEventsMngr.ExecuteLogEvents | amxmodx/CLogEvent.cpp:202-237 | Exactly the active events of the line's length whose filters are met are called, in order, each condition evaluated at most once |
| LogEvents.LogEventsMngr.Line | amxmodx/CLogEvent.cpp:94-237 | Line set, parsed and executed: memoised filters agree with direct evaluation, line after line |
| Tracer.TraceList.StepI | amxmodx/debugger.cpp:171-214 | Used nodes are exactly those up to the current one, and follow the frame pointer: push on a lower frame, pop on a higher, instruction saved |
| Tracer.TraceList.Reset | amxmodx/debugger.cpp:233-245 | No node is used afterwards; none is lost |
| Tracer.BoundedRun | amxmodx/debugger.cpp:171-279 | For every run of nested executions, resets and steps at any frames: if in each execution no frame lies above the first one seen, popping never runs off the start, the frames of every list strictly decrease, and each list still begins at the first frame of its execution |
| Tracer.OneList | amxmodx/debugger.cpp:171-214 | So for one list and any frames of which none lies above the first |
| Tracer.SteppedIsReal | amxmodx/debugger.cpp:189-211 | With one call or one return at a time the lists are the real call stacks |
| Tracer.RunIsReal | amxmodx/debugger.cpp:171-279 | Over every run of nested executions, calls and returns, told after each of them, no pop runs off and the lists are the real call stacks |
| Tracer.DoubleReturn | amxmodx/debugger.cpp:204-211 | A return through two frames at once leaves the list one too long, until the next step |
| Tracer.Debugger.BeginExec | amxmodx/debugger.cpp:257-270 | A nested execution starts with an empty list and leaves the others alone |
| Tracer.Debugger.EndExec | amxmodx/debugger.cpp:272-279 | Its end gives the outer list back |
| Tracer.Debugger.Watch | amxmodx/debugger.cpp:171-279 | The object with its reused lists and nodes shows those lists, for every run in which no pop runs off |
| Tracer.WatchBounded | amxmodx/debugger.cpp:171-305 | A new debugger under any run bounded by the first frames never fails, and its lists are in order |
| Tracer.WatchReal | amxmodx/debugger.cpp:171-305 | A new debugger told after every call and return shows the real call stacks |

## Left out

- The just-in-time and assembler back ends, big-endian hosts, other cell sizes and wide characters; one C form of the interpreter is modelled, the one with a label table.
- Machine.RunMoved: the interpreter is a transition function on values, not a loop, because runs need not end; the instruction walk of the loader counts cells, and blocks longer than the address space are excluded.
- Machine.StepMoved: behaviour C leaves open (data accesses outside the segment, shifts by 32 or more, INT_MIN / -1 and overflow on the way to a rounded quotient, opcodes that assert) has the outcome Stuck, and the theorems are about runs without it; the last-native tag and the binary log are not modelled.
- Loader.BrowseRelocate: a block in which the walk would touch cells behind its end (a jump, a native call or a table cut short) is excluded.
- Expand.Expand: the failed assertions of the code appear as `ok == false`; or-ing disjoint groups of bits is written as addition; the header arithmetic that yields the sizes is a parameter.
- AmxInit.Init: header checks and the sentinel cell are not modelled.
- Floating point is uninterpreted: any operations, the same on both sides; times of timers are reals.
- The parser's 4096-byte window, byte order mark and line and column counters; staged strings are spans of the whole input.
- Smc.UnendedExactly: what the listener reads behind a string that nothing terminates is a parameter of the game-config model.
- Smc.StepInv: the table of white space has 255 entries, so the code reads past it for the byte 0xFF; the model takes that byte for an ordinary character.
- Quoted strings changed in place by the listener's reading are not seen again by raw-line events in the model.
- GameConfig.ConservedExactly: offsets, keys, signatures and addresses gathered on the way, logging, and the reading of binaries are not modelled (the host says which binaries are known and whether a checksum matches); custom handlers always continue.
- `CGameMasterReader`, whose ignore level does not nest, and `Reparse`, which chooses the files.
- ForwardSlots.RunInv: handles of normal forwards (even numbers), which the unregistration does not tell apart, and `duplicateSPForward` are left out; requires that clients give up only handles they hold and do not re-enter live ones, and the exact lemmas show what happens otherwise.
- Marshal.HandedBackExactly: an object prepared both as characters and as cells is excluded.
- Marshal.Restores: a bare error return inside a function or at its entry, or a HALT that sleeps, leaves the stack pointer where it was last saved, so calls that end that way are excluded; so are allotments that fail, after which the code uses an unset address. Continuing a sleeping machine is not modelled. What a function does is a script of memory writes, register moves, prepared arrays and forwards, not code of the interpreter model. Sizes stay below 2^28 cells.
- Marshal.HandedOn: objects that parameters refer to lie apart from the memory of the machines, also those a plugin passes from its own memory, and each has one element type.
- The debugger's and performance hooks around a call.
- Tasks.TaskRuns, Tasks.CallbackTaskRuns: parameters of tasks, and the modes after start and before end of a map, are modelled but only plain ones have the timing theorem; counting down is on unbounded integers; requires that nobody removes or changes the timer or takes its forward's number.
- PackedString.SetPacked: a limit of zero cells, for which the code computes a negative length, is excluded; characters are signed, as on the usual compilers.
- Utf8.Check: strings are without their terminator.
- DataPack.CDataPack.Pack: raw memory blocks are left out; positions and sizes stay below 2^32; reading a string that nothing terminates stops at the end of the buffer.
- DataPack.CDataPack.ReadCell: requires that the bytes counted are there, which AppendExactly shows to hold as long as packing goes on at the end.
- Commands.CmdMngr.GetCmd: lists are sequences and the cursor an index into one instead of linked nodes; splitting a command line and the prefix lists are left out; requires lists and plugin states unchanged since the cursor was reset, apart from what InsertExactly allows.
- Events.EventsMngr.Message: messages started inside a callback are left out, as is the text form of filters; one message index beyond the table, which the code lets through, is excluded.
- LogEvents.LogEventsMngr.Line: splitting the line into arguments is a parameter, callbacks set no line of their own, and the line counter does not wrap.
- Tracer.Debugger.Watch: nodes are a sequence in list order instead of linked objects.
- Signature scanning, library loading, modules, Metamod and engine calls, cvar detours, message hooks, formatting, menus, files, sounds and the simple containers: foreign code or plumbing that would only add easy members.
