# OpenTV: verification model

This project models the machinery around the OpenTV speech engine and proves what that
machinery is for. Each module follows one component:

- `Coverage`, `TracedRun`, `Blocklist`: one-shot breakpoints planted at block starts, and
  the simulation between the traced and the plain run.
- `DisasmWalk`, `Disasm`, `ControlFlow`, `Gaps`: the recursive-descent disassembler, its
  reachability walk, its fixpoint, what control flow it finds, and the code it leaves
  uncovered.
- `Layout`, `Relinker`, `RelinkEmit`, `TvRef`, `Extract`, `Interchange`: moving a DLL's
  data into one region, rewriting its stored addresses as offsets, reading them back, and
  when the extracted file gives the same as the DLL.
- `AudioRing`, `AudioRingProof`, `AudioRingRuns`, `AudioRingStops`: the eight playback
  blocks shared by the synthesis thread, the device and the window, as a state machine
  over every interleaving.
- `VolumePlan`: which volumes are probed to compare two attenuation curves.
- `Escapes`, `Utterance`, `Scales`, `SeamRule`, `UtteranceRight`, `Retuning`, `SapiSpeak`,
  `Refusals`, `SapiEvents`, `ComServer`: the SAPI 5 server: inline commands and the
  engine's reading of them, the utterance built from a fragment list, exactly when it
  means what the fragments ask for, what allocations refused do to it, the events the
  site receives, and the reference counts.
- `JaPool`, `JaRows`, `JaOrder`, `JaFile`, `JaRead`, `JaDict`: the Japanese dictionary
  from CSV rows to a file and back, and the look-up.
- `Wav`, `Splitter`, `PeLoad`: WAV files, the two text splitters, and the PE loader.
- `Bytes`, `Segments`, `Wrappers`: words in little-endian bytes, byte strings placed in
  larger ones, optional values.

Code that changes things in place is methods over classes and arrays; what it promises is
stated by functions and proved of them. Concurrency is a state machine whose runs are all
interleavings of the threads' steps. What the surroundings decide (decoding of
instructions, the heap, the device, the SAPI site, the clients of the server, what `int`
makes of a CSV field) is a parameter.

Where the code and its documentation disagree, the model follows the code:

- `sapi5/tvsapi.c:431-438` says a space is restored at a seam when neither side brought
  one. The text before a seam ends in the letter of a command, so the space is added
  whether or not the words before it ended in one; letters spelled out after a seam get
  none; and an empty text makes the code forget the seam. `SeamRule.SeamsRightIff` gives
  the exact condition.
- The pitch a fragment's state maps to goes up to 500, but the command for it carries half
  of at most 400, so odd pitches and those above 400 are not what is heard. Rates above
  255 exceed what a parameter may be and are dropped, 254 and 255 are spoken a row too
  slow, and bookmarks past the 255th are not reported. `UtteranceRight.UtteranceRightIff`
  gives the exact condition for a whole utterance, its pauses included.
- `sapi5/tvsapi.c:429-430` says only what changed is emitted. One command is emitted for
  each change of what is asked for (`Retuning.OneForEachChange`), but some leave what is in
  force as it was; `Retuning.PitchIdleIff` and `Retuning.RateIdleIff` say exactly which.
- The format list in `tools/gen_ja_dict.py:56-62` gives entries of 20 bytes and components
  of 12; the code packs, and the reader expects, 28 and 16.
- `tools/gen_data.py:138-143` calls the DLL and the extracted file interchangeable. They
  are exactly when each byte of every annotated datum outside the data sections is in one
  of them or in a datum that was lifted by itself; it fails for a datum that starts inside
  one lifted before it and reaches past its end, unless others make up for it
  (`Interchange.InterchangeableIff`, `Interchange.OverlapLost`).
- The library sends an utterance its rate only if it is not the one the engine last
  reported, and the engine reports it rounded down to tens, so an utterance can start a
  row too fast (`Retuning.CarriedOverIff`).

## Model

| member | source | states |
|---|---|---|
| `Coverage.Tracer.Find` | harness/coverage.c:27-40 | The binary search over the sorted blocks finds a block at the address when there is one and says so when there is none. |
| `Coverage.Tracer.Handle` | harness/coverage.c:42-56 | A breakpoint at a listed address is given to the block the search comes upon, with distinct addresses the only one: if not yet hit, its byte is restored, it is marked and execution resumes at the same address; every other exception is passed on and nothing changes. |
| `Coverage.Tracer.Arm` | harness/coverage.c:85-95 | Arming leaves the memory and blocks the reference definition gives, in one loop over the blocks. |
| `Coverage.Tracer.Disarm` | harness/coverage.c:97-103 | Disarming leaves the memory the reference definition gives. |
| `Coverage.ArmTurnsEffect` | harness/coverage.c:85-95 | After any number of turns, exactly the listed bytes are INT3 and each block keeps what it found at its address. |
| `Coverage.RoundTripByte` | harness/coverage.c:85-103 | After arming and disarming, a byte is the one saved by the last block listed at its address, and unlisted bytes are as they were. |
| `Coverage.ArmDisarmRestoresIff` | harness/coverage.c:85-103 | Arming then disarming restores all memory if and only if every address listed more than once already held an INT3; with distinct addresses it always does. |
| `TracedRun.TracedRunErases` | harness/coverage.c:42-56 | For every processor and every clean program, erasing the trap steps of any traced run leaves the plain run; a block is marked exactly when control has reached it; traps never exceed the blocks; disarming gives the plain memory. Clean: no instruction reads or writes the planted byte of a block control has yet to come to, unless it is INT3 anyway. |
| `TracedRun.PlainRunTraced` | harness/coverage.c:42-56 | Conversely every plain run of a clean program is the erasure of a traced run with at most one more step per block, and the one can go on exactly when the other can. |
| `TracedRun.DisarmAlongside` | harness/coverage.c:97-103 | At any point of a traced run disarming leaves the code memory the plain run has. |
| `TracedRun.StepCleanIff` | harness/coverage.c:85-95 | At any step of any run the two runs stay side by side, on every processor whose instruction reads and writes the same bytes, if and only if those bytes are clean. |
| `TracedRun.ReadPartsRuns` | harness/coverage.c:85-95 | Where an instruction reads a planted byte not yet reached, there is a processor on which the traced program loads 0xCC and the plain one its own byte. |
| `TracedRun.WritePartsRuns` | harness/coverage.c:97-103 | Where an instruction writes a planted byte not yet reached, either disarming undoes the write or the INT3 is gone with its block unmarked. |
| `Blocklist.Rows` | tools/blocklist.py:20-41 | Every eligible block start of every function has exactly one row, under the first function in entry order that has it, and nothing else has a row. |
| `Blocklist.StartsOf` | tools/blocklist.py:27-34 | An address is a start exactly when it begins one of the function's blocks, is in one of its jump tables, or comes after one of its calls or conditional jumps. |
| `Blocklist.AllTurnsListed` | tools/blocklist.py:27-41 | After a whole analysis every function, and every address control can pass to from a call or jump of an analysed function, running on after it included, has a row, if it decodes and no table covers it. |
| `Blocklist.OnlyBlocksListed` | tools/blocklist.py:27-41 | Every row lists an instruction no table covers, under a function it begins a block of, and under none later than a function with it among its blocks. |
| `Blocklist.LoadedDistinct` | tools/blocklist.py:23-41 | The rows written have distinct addresses, which is what the coverage theorems need. |
| `Blocklist.BlockList` | tools/blocklist.py:20-41 | From an image to the breakpoints: no place control can turn to is missed and nothing else is listed, every block loaded from the list is at an instruction of an analysed function, and planting and lifting them leaves every memory as it was. |
| `DisasmWalk.ClosedHoldsPath` | tools/disasm.py:173-269 | A set holding the entry and closed along the walk's edges holds everything reachable along them. |
| `DisasmWalk.WalkDone` | tools/disasm.py:173-269 | When the worklist is empty the instructions visited are exactly those reachable from the entry: fallthrough and unconditional jumps cut at other known entries, conditional and recorded table targets always followed, no-return calls ending a path. |
| `DisasmWalk.VisitStep` | tools/disasm.py:197-268 | Visiting one instruction keeps the invariant of the walk, with exactly what it falls through to left to do. |
| `DisasmWalk.ReachesGrows` | tools/disasm.py:253-256 | Recording a jump table while walking only adds edges, so nothing found before becomes unreachable. |
| `Disasm.Analysis.Decode` | tools/disasm.py:105-117 | Decoding gives the instruction of the address, from the cache or fresh, and none outside code. |
| `Disasm.Analysis.JumptableTargets` | tools/disasm.py:120-170 | The table of the reference definition is found, with as many words as the instructions before the jump and the relocations allow; its range is recorded, and that of the index table read for the bound. |
| `Disasm.TableOf` | tools/disasm.py:130-170 | The words are those at the operand, relocated code addresses all; there are as many as the values the last register comparison of eight instructions lets through, or as the bytes of the index table loaded in the last four call for with those values, or 1025, fewer only where the next word is no code address. |
| `Disasm.LastBoundIs` | tools/disasm.py:133-137 | The bound is one more than the constant of the last comparison of a register with a constant, by place in the block, and there is none exactly when there is no such comparison. |
| `Disasm.LastIndexTableIs` | tools/disasm.py:139-145 | The index table is the one of the last byte load through a register, by place in the block. |
| `Disasm.IndexRangeIs` | tools/disasm.py:147-149 | The range noted for it is one byte for each value the comparison lets through. |
| `Disasm.HasTableIff` | tools/disasm.py:122-129 | A jump has a table exactly when its one operand is four times a register past an address in the image whose word is a relocated address in code. |
| `Disasm.JumpLoads` | tools/disasm.py:120-170 | With entry i in the index register, whatever the other registers hold, the jump loads the i-th target. |
| `Disasm.IndexLoads` | tools/disasm.py:147-148 | The byte an index table gives for a value is the one the load before the jump loads with that value in its register. |
| `Disasm.Analysis.ReadTable` | tools/disasm.py:146-170 | The words read are the longest run the bound, the relocations and the code sections allow, and each target is the word of its place. |
| `Disasm.Analysis.MaxByte` | tools/disasm.py:147-149 | The bound taken through a byte index table is one more than its largest entry. |
| `Disasm.Analysis.InTable` | tools/disasm.py:341-345 | True exactly for addresses inside a recorded jump table. |
| `Disasm.Analysis.RecordRefs` | tools/disasm.py:208-221 | The three indexes gain exactly the address of the instruction, under what it names: relocated code immediates outside calls and jumps as code pointers, relocated displacements and immediates as data, the displacements in code as data inside code. |
| `Disasm.RefsAre` | tools/disasm.py:208-221 | What is recorded under an address, operand by operand: as code, when an operand is that relocated value, it is in code and no call or jump goes there; as data, either as a value or in memory; as data inside code, in memory. |
| `Disasm.DataPointersAre` | tools/disasm.py:290-297 | The seeds found in data are exactly the code addresses held by relocated words outside code. |
| `Disasm.ClaimFirst` | tools/disasm.py:202 | Who owns an address keeps it; what has no owner is given the function exploring it. |
| `Disasm.Analysis.ExploreFunction` | tools/disasm.py:173-283 | It terminates; the instructions of the function are exactly the reachable ones; the jumps with a recorded table are exactly those that have one, each the table of its own operand as bounded by a straight run of visited instructions from a block start; ownership is claimed for addresses without an owner only; code pointers and table ranges are recorded. |
| `Disasm.Analysis.Drain` | tools/disasm.py:299-308 | The pending loop terminates with everything it queued analysed, and says whether it analysed anything. |
| `Disasm.Analysis.ChasePointers` | tools/disasm.py:313-322 | One pass analyses every recorded code pointer that needs it, and only such as have no owner and no table over them; when it changed nothing, every pointer is accounted for. |
| `Disasm.Analysis.Run` | tools/disasm.py:286-333 | It terminates at a fixpoint: all seeds and all code targets of calls and tail calls of analysed functions are analysed; every recorded code pointer is analysed, owned, inside a jump table, or not code; nothing is analysed that no chain of calls and code pointers leads to from a seed; owners are exactly the instructions of functions; every table is its jump's own. |
| `ControlFlow.AllFound` | tools/disasm.py:197-268 | Wherever control can pass from an analysed instruction, told from its operands and its table alone, the instruction there, if there is one, is analysed too. |
| `ControlFlow.OnlyFollowed` | tools/disasm.py:197-268 | Control can pass to every instruction of a function, but its first, from another of its own. |
| `ControlFlow.FoundIff` | tools/disasm.py:286-333 | After a whole analysis an instruction is known exactly when a function starts there or control can pass to it from one that is known. |
| `ControlFlow.ListsAre` | tools/disasm.py:223-262 | A function's calls, tail calls and blocks are exactly the addresses its calls name, those its jumps name at which another known function starts, and its entry with wherever else its jumps go. |
| `Gaps.Gaps` | tools/disasm.py:355-379 | Every address of code that no owned instruction and no table takes up is in one of the ranges, nothing else is, and no range could be longer in its section. |
| `Gaps.TakenIs` | tools/disasm.py:357-366 | What is taken up is exactly the bytes of the instructions of analysed functions and of the recorded tables. |
| `Gaps.SectionGaps` | tools/disasm.py:369-378 | Within a section the scan gives exactly the maximal free ranges, in order. |
| `Layout.Merge` | tools/gen_data.py:174-180 | The in-place merge gives ascending, separate blobs that cover the spans and nothing more, each starting at a span. |
| `Layout.MergesHolds` | tools/gen_data.py:174-180 | An address is in the blobs exactly when it is in the spans. |
| `Layout.Find` | tools/gen_data.py:182-186 | It finds the one blob an address is in and the offset there, or none. |
| `Layout.BlobUnique` | tools/gen_data.py:182-186 | No address is in two blobs. |
| `Layout.Place` | tools/gen_data.py:202-207 | The loop gives every blob its 16-aligned start after the ones before it, and the total. |
| `Layout.StartsApart` | tools/gen_data.py:202-207 | Blobs do not overlap in the region. |
| `Layout.MovedFaithful` | tools/gen_data.py:182-207 | The move of addresses to offsets is injective, keeps distances within a blob and positions modulo 16 relative to the blob, stays in the region and never gives 0. |
| `Relinker.CollectSpans` | tools/gen_data.py:161-172 | The spans are the two data sections and every needed datum outside them, and it fails exactly on a needed datum outside without a size. |
| `Relinker.CollectLabels` | tools/gen_data.py:188-190 | Every address has exactly the names of the needed symbols there, in order. |
| `Relinker.MetUnlessInside` | tools/gen_data.py:234-254 | With relocations apart, the walk stops at an address of a blob exactly when it is not inside a relocated word. |
| `Relinker.Flush` | tools/gen_data.py:228-232 | The pending bytes are written out, 24 to a line, nothing lost, no label moved. |
| `RelinkEmit.FilterRelocs` | tools/gen_data.py:192-196 | The relocations kept are those whose four bytes lie in one blob. |
| `RelinkEmit.EmitBlob` | tools/gen_data.py:225-255 | The lines of a blob assemble to its bytes with every met relocated word rewritten, and its labels stand where the walk passed their addresses. |
| `RelinkEmit.EmitDatum` | tools/gen_data.py:239-254 | One turn adds either the rewritten word or one byte and moves on by as much. |
| `RelinkEmit.EmitPadding` | tools/gen_data.py:221-222 | The padding brings the region to the start of the next blob. |
| `RelinkEmit.Generate` | tools/gen_data.py:155-255 | It fails exactly when code is among the needed symbols, naming it, or a needed datum outside the data sections has no size; otherwise the output assembles to the reference region, byte for byte, and its symbols are the region's start and every needed symbol the walk came across at the offset of its datum. |
| `TvRef.PlainByteKept` | tools/gen_data.py:253-254 | A byte outside relocated words is found where its address moves. |
| `TvRef.RefRewritten` | tools/gen_data.py:239-252 | A stored address becomes its target's offset, four bytes wide in the same place; one out of the data keeps its value. |
| `TvRef.AllRewrittenIffSpaced` | tools/gen_data.py:239-252 | Every relocated word is rewritten if and only if no two of them overlap; of an overlapping pair the second is stepped over. |
| `TvRef.RegionFaithful` | tools/gen_data.py:219-255 | What is written out keeps all plain bytes and rewrites all references. |
| `TvRef.FollowsAlike` | src/tv_ref.h:40-48 | Wherever the region is loaded, following any finite chain of references through it leads to the place of the address the original chain leads to. |
| `TvRef.ReadsAlike` | src/tv_ref.h:4-10 | At the end of any chain, reading at any displacement within the blob, past the end of a table too, gives the byte the original gives. |
| `TvRef.RefsPresent` | src/tv_ref.h:40-48 | A reference into the data is never 0, so it is never mistaken for an absent one. |
| `TvRef.PlainWordKept` | src/tv_ref.h:22-23 | Four plain bytes spell the word they spelled, so an absent reference stays absent. |
| `TvRef.NeededHeld` | tools/gen_data.py:166-172 | Every needed symbol is in some blob unless its declaration gives it no bytes. |
| `TvRef.BlobsAre` | tools/gen_data.py:161-180 | The blobs hold every byte of .rdata and .data and nothing else but needed data that start outside them. |
| `TvRef.RefusedForSize` | tools/gen_data.py:166-171 | A build is refused only for a needed datum outside those sections whose declaration gives no size, and for every such datum that no other one reaches. |
| `TvRef.FunctionsAre` | tools/gen_data.py:155-158 | The names in a refusal of code are exactly those of the functions among what is needed. |
| `TvRef.LabelAtDatum` | tools/gen_data.py:235-238 | A symbol's label is at its datum and nowhere else; it is missing exactly when the datum is inside a relocated word. |
| `TvRef.NeededLabelled` | tools/gen_data.py:188-238 | So every needed symbol whose datum has bytes is labelled at the place of its datum and nowhere else, unless it is inside a relocated word. |
| `Extract.Extract` | tools/extract_data.py:45-82 | The extracted file has the data sections, the merged chunks with the image's bytes, and exactly the relocations that lie whole in a chunk. |
| `Extract.ExtractedIs` | tools/extract_data.py:45-82 | Chunk by chunk the file holds the bytes of the image, the sections named .rdata and .data, and exactly the relocations whose four bytes one chunk holds. |
| `Extract.Read` | tools/tvdata.py:60-90 | Reading the file back lays every chunk at its address over zeros. |
| `Interchange.WholeIffCovered` | tools/extract_data.py:48-74 | A condition on the sections and annotations alone, that each byte of every datum is in a data section or in a datum lifted by itself, is equivalent to every datum lying whole in one extracted chunk. |
| `Interchange.BlobsInChunksIff` | tools/extract_data.py:48-74 | Under the same condition, and only then, the blobs of every build lie whole in the chunks. |
| `Interchange.InterchangeableIff` | tools/gen_data.py:138-143 | For given sections and annotations, every image gives every build the same output from the DLL and from the extracted file, same blobs or same refusal, same region, same labels, if and only if that condition holds. |
| `Interchange.UncoveredDiffers` | tools/extract_data.py:55-65 | For each byte that is not covered there is an image and a build of its datum alone whose outputs differ. |
| `Interchange.CompactAddressable` | tools/gen_data.py:198-207 | When the data sections and the annotated data outside them lie within one stretch of 2^28 - 2 addresses, every build has a region of 32-bit offsets, which is what the comparison of outputs asks. |
| `Interchange.NestedCovered` | tools/extract_data.py:55-65 | The condition holds whenever no datum that starts inside an earlier one reaches past its end. |
| `Interchange.OverlapLost` | tools/extract_data.py:60-65 | B starting inside A and reaching past its end is a counterexample: with A=[100,104) and B=[102,110) an image with a one in B's tail gives a build of B another output. |
| `Interchange.OverlapKept` | tools/extract_data.py:60-65 | The same overlap with B first in memory loses nothing. |
| `AudioRingProof.StepKeeps` | gui/speakwin.c:134-324 | Every step of the worker, the device or the window keeps the invariant of the ring, whatever the interleaving. |
| `AudioRingProof.WriteOk` | gui/speakwin.c:145-165 | Writing the current block adds it to the queue in its slot without touching what is queued. |
| `AudioRingProof.FillKeeps` | gui/speakwin.c:178-186 | Copying moves samples from the event to the current block, none lost, none repeated. |
| `AudioRingRuns.QueuedUntouched` | gui/speakwin.c:134-165 | In every reachable state, no step of the worker writes a block or clears a header the device still holds, even after a stop cut the wait short; only the closing reset takes blocks from the queue. |
| `AudioRingRuns.SubmittedInTurn` | gui/speakwin.c:153-163 | The k-th submission is the current block, goes to slot k mod 8 and to the end of the queue; no other step counts anything as sent, but the window's that begins the next job. |
| `AudioRingRuns.PlaysWhatWasSubmitted` | gui/speakwin.c:134-165 | The device plays the oldest block not yet played, with the samples it had when submitted. |
| `AudioRingRuns.FinishedLeavesNothing` | gui/speakwin.c:271-295 | A finished worker leaves the device closed, the lock free of it, nothing queued and no header prepared. |
| `AudioRingRuns.QueuedOnlyWhenOpen` | gui/speakwin.c:240-293 | While the device is closed nothing is queued or prepared. |
| `AudioRingRuns.SpeechInOrder` | gui/speakwin.c:167-192 | On a run that is not stopped the submitted blocks, the filled part of the current block and the rest of the event are exactly all the audio made; after a stop a first part of it; every block but the last holds 2048 samples. |
| `AudioRingRuns.FinishedPlayedAll` | gui/speakwin.c:262-293 | A job nobody stopped ends with every sample heard once and in order. |
| `AudioRingRuns.ExportCollectsAll` | gui/speakwin.c:112-127 | An export submits nothing and never opens the device; as long as the heap has room it collects every sample, and never more than were made. |
| `AudioRingRuns.StopNeverStuck` | gui/speakwin.c:305-324 | In every reachable state with a stop under way the window or the worker can take a step. |
| `AudioRingRuns.StopGetsThrough` | gui/speakwin.c:130-143 | Whatever the order of the threads and whatever the device does, a stop is over after a bounded number of steps. |
| `AudioRingStops.StopSilences` | gui/speakwin.c:305-324 | Once a stop has emptied the device, and until the window has waited the worker out, at most one more block is submitted and nothing is played but that one; the device is no longer paused. |
| `AudioRingStops.PauseSilences` | gui/speakwin.c:562-572 | From when the window pauses the device, until somebody resumes or stops it, nothing is played and nothing waiting is lost, whatever the worker does. |
| `AudioRingStops.ResumePlays` | gui/speakwin.c:573-581 | When the window resumes the device, what waits can be played at once. |
| `AudioRingStops.NextJobPlaysAll` | gui/speakwin.c:326-342 | A job started after a stop, and not stopped itself, ends with every sample made for it heard once and in order, or collected by an export while the heap has room. |
| `VolumePlan.Last` | harness/unit_es.c:1326-1328 | For each attenuation a curve reaches, the largest volume that still reaches it, by trying one after another. |
| `VolumePlan.Bisect` | harness/unit_es.c:1346-1353 | Bisection in 32-bit words, without overflow, finds that volume. |
| `VolumePlan.VolumeArgs` | harness/unit_es.c:1332-1361 | The buffer holds exactly the plan: the low end, then both sides of every step, as far as it has room; nothing beyond is touched. |
| `VolumePlan.EmitStep` | harness/unit_es.c:1340-1358 | One attenuation adds the volume below, at and, unless it is the last, above its step. |
| `VolumePlan.DecidesIff` | harness/unit_es.c:1315-1331 | Exactly which probes decide a non-increasing curve among all such curves: those with a probe at both ends of every constant stretch. |
| `VolumePlan.PlanDecides` | harness/unit_es.c:1315-1331 | Any non-increasing curve that agrees with the original at the planned volumes agrees at all 2^32 of them, when the buffer has room for 8386 entries and the curve is within the attenuations walked. |
| `Escapes.EscSeq` | src/port/tvtts.c:312-332 | The command is ESC, bracket, the decimal number and the letter when it fits the buffer with its zero, and nothing otherwise. |
| `Escapes.HearDecimal` | src/engine/preformat.c:136-149 | The preformatter reads the digits back as the number, and marks it too large exactly past 255. |
| `Escapes.HearEscape` | src/engine/preformat.c:100-164 | A written command is read back as that command with that number, or as no command at all when the number is past 255. |
| `Escapes.HearText` | src/engine/preformat.c:105-116 | Text without ESC passes as it stands. |
| `Escapes.HearPitch` | src/port/tvtts.c:355-366 | The pitch command sets the pitch to twice its clamped half. |
| `Escapes.HearRate` | src/engine/preformat.c:334-357 | The rate command puts the row of its rate in force, the 26th when the rate has a later one, or does nothing when its number is past 255. |
| `Escapes.HearMark` | src/port/tvtts.c:307-310 | A mark is heard with its number when that is at most 255. |
| `Escapes.HearBreak` | include/tvtts.h:235-241 | A pause is heard rounded down to the hundredth of a second and no longer than 2060 milliseconds. |
| `Escapes.PauseHeardIff` | include/tvtts.h:235-241 | It is as long as asked exactly when that is whole hundredths of a second and no more than 2060 milliseconds. |
| `Escapes.PitchHeardIff` | src/port/tvtts.c:355-366 | The pitch heard is the pitch asked for exactly when it is even and within 50..400. |
| `Utterance.MapRateMonotone` | sapi5/tvsapi.c:268-276 | The rate scale reaches the engine's ends at -10 and 10, is the voice's own at 0, and never goes down. |
| `Scales.RateScale` | sapi5/tvsapi.c:268-276 | A rate lies as many tenths of the way to 46 or to 400 as there are steps, cut to the whole word toward the voice's own. |
| `Scales.PitchScale` | sapi5/tvsapi.c:240-266 | A pitch is mapped by a factor for its step that is the nearest thousandth of a scale on which twenty steps are tenfold, and held within 50 and 500. |
| `Scales.MapPitchMonotone` | sapi5/tvsapi.c:261-266 | Asking for more never gives less, a higher voice is never lower, and no step leaves a voice as it is. |
| `Scales.FragmentScale` | sapi5/tvsapi.c:458-459 | A fragment's pitch and rate are those of the scales at its own pitch adjustment, and at its rate adjustment and the site's together. |
| `Utterance.SpelledIs` | sapi5/tvsapi.c:489-497 | Letters spelled out stand one by one, a space after each. |
| `Utterance.UtteranceHeard` | sapi5/tvsapi.c:440-514 | Reading the built string as the engine does gives every fragment's words, letters, pauses and marks in order, each with the pitch and the row of the rate table in force, and keeps the bookmarks' names in order. |
| `Utterance.HearSpeak` | sapi5/tvsapi.c:499-505 | Across an open seam a non-empty text that does not begin with a space is heard with one before it. |
| `UtteranceRight.PitchRightIff` | sapi5/tvsapi.c:462-468 | A fragment is heard at the pitch its state maps to if and only if no other pitch has been asked for, or the pitch is even and within 50..400. |
| `UtteranceRight.RateRightIff` | sapi5/tvsapi.c:463-473 | The row in force is that of the rate asked for if and only if no rate command has been read and the rate has the row of the one Speak set, or one has and the rate is at most 253. |
| `UtteranceRight.MarksInOrder` | sapi5/tvsapi.c:475-480 | The engine reports bookmarks 1, 2, ... in fragment order, and none past the 255th. |
| `UtteranceRight.UtteranceRightIff` | sapi5/tvsapi.c:440-514 | The whole utterance is heard as its fragments mean it, spaces across seams as the comment asks included, if and only if every pitch and rate spoken at and every pause can be told, every seam fits and there are at most 255 bookmarks. |
| `UtteranceRight.OddPitchLost` | sapi5/tvsapi.c:261-266 | A voice at 85 two steps up is asked for 107 and speaks at 106. |
| `UtteranceRight.FastRateLost` | sapi5/tvsapi.c:268-276 | A voice at 150 five steps up is asked for 275 and goes on at its own row. |
| `UtteranceRight.RowCut` | src/engine/preformat.c:348-353 | A voice at 157 four steps up is asked for 254, row 26, and spoken at row 25. |
| `SeamRule.SeamsRightIff` | sapi5/tvsapi.c:431-438 | With the comment's rule defined on the fragments, a space across a seam exactly when neither the last words before nor the first words after bring one, the built text has exactly the spaces due if and only if every fragment fits: spoken right after a mark or pause it follows words that bring no space, spelled out or after an empty text none is due. |
| `SeamRule.SpaceDoubled` | sapi5/tvsapi.c:499-505 | A seam space is added even when the words before ended in one. |
| `SeamRule.SpelledRunsOn` | sapi5/tvsapi.c:489-497 | Letters spelled out after a bookmark get no space and run into the words before. |
| `SeamRule.SpelledDoubled` | sapi5/tvsapi.c:489-505 | Letters spelled out before a bookmark end in a space, and another is always added. |
| `SeamRule.EmptyForgets` | sapi5/tvsapi.c:499-505 | An empty text makes the code forget the seam, and no space is put where one is due. |
| `Retuning.OneForEachChange` | sapi5/tvsapi.c:449-473 | For every fragment list, the pitch and rate commands in the text are one for each fragment that asks for another pitch or rate than the one before it, in order, and no more. |
| `Retuning.PitchIdleIff` | sapi5/tvsapi.c:462-468 | A pitch command leaves the pitch in force as it was if and only if half of what is asked for is half of what was asked for before, and, if none has been said yet, the voice's own pitch is even and within 50..400. |
| `Retuning.RateIdleIff` | sapi5/tvsapi.c:469-473 | A rate command leaves the row in force as it was if and only if it is not read, or gives the row Speak set or the last command read gave. |
| `Retuning.PitchRepeated` | sapi5/tvsapi.c:462-468 | A voice at 144 asked for 50 and then 51 is given the same command twice. |
| `Retuning.RateRepeated` | sapi5/tvsapi.c:469-473 | A voice at 150 asked for 275 and then 300 is given two commands, neither of which is read. |
| `Retuning.PlainStaysPlain` | sapi5/tvsapi.c:425-438 | An utterance with no markup carries no command: it is the texts one after another. |
| `Retuning.CarriedOverIff` | src/port/tvtts.c:733-821 | After a rate command the next utterance starts at the row of its own rate, unless that rate is what the command's row was rounded down to and the rounding lost a row. |
| `SapiSpeak.WBuf.Room` | sapi5/tvsapi.c:95-114 | Room is made keeping the contents, or the buffer turns bad and stays so. |
| `SapiSpeak.WBuf.Add` | sapi5/tvsapi.c:116-125 | The text is appended, or, once an allocation has failed, nothing ever is. |
| `SapiSpeak.WBuf.AddCh` | sapi5/tvsapi.c:140-146 | One unit is appended on the same terms. |
| `SapiSpeak.Speaking.MarkAdd` | sapi5/tvsapi.c:400-422 | The name is kept at the end of the list and its one-based number given; without room for the name the number is kept without it, without room in the list the number before is given again. |
| `SapiSpeak.BuildUtterance` | sapi5/tvsapi.c:440-514 | Whatever allocations fail, the loop over the fragments keeps the names the reference definition keeps, and, unless the buffer was refused room, leaves its text in the buffer. |
| `Refusals.BuiltAsGrantedIff` | sapi5/tvsapi.c:400-422 | The text is the one whose meaning is proved if and only if the list could grow for every bookmark, and every name is kept if and only if there was room for each name besides. |
| `Refusals.HeardAsNumbered` | sapi5/tvsapi.c:440-514 | Whatever the heap refuses, reading the text back gives every fragment as ever, but each bookmark by the number of those the list had room for so far; with none, or past 255, nothing is reported for it. |
| `Refusals.RefusedMark` | sapi5/tvsapi.c:406-408 | A bookmark the list has no room for is heard as the last one before it that had room, by the same number, and so under the name kept for that one; when there is no such bookmark nothing is reported, and then no earlier bookmark had room. |
| `SapiSpeak.Wtol` | sapi5/tvsapi.c:313-325 | The number a name spells, by the reference definition. |
| `SapiSpeak.SpellsDecimal` | sapi5/tvsapi.c:313-325 | A name that is a number in decimal, signed or not, spells that number. |
| `SapiSpeak.SpellsNumber` | sapi5/tvsapi.c:313-325 | Blanks and tabs before a number, either sign, and anything but digits after it are read over; what has no digit there spells 0. |
| `SapiSpeak.Speaking.OnEvent` | sapi5/tvsapi.c:336-395 | One event is handled: a bookmark reported with its name, number and offset, audio written and counted; the engine is stopped exactly when audio is answered with an abort, a skip or a refused write, and then nothing is written. |
| `SapiEvents.SiteReceives` | sapi5/tvsapi.c:336-395 | The engine is stopped exactly by the first audio the site answers with an abort, a skip of some items, or a refused write; the site has received exactly the audio and bookmarks of the events before that one, or of all; and the call counts as aborted or as failed by what that answer was. |
| `SapiEvents.ReportAt` | sapi5/tvsapi.c:345-363 | Each mark with a name is reported by it, at the end of all the audio before it. |
| `SapiEvents.UnaskedNoReports` | sapi5/tvsapi.c:346-347 | A site that has not asked for bookmarks is sent none. |
| `SapiEvents.OffsetsInOrder` | sapi5/tvsapi.c:345-352 | Bookmark offsets never decrease and never pass what is written. |
| `SapiEvents.BookmarksByName` | sapi5/tvsapi.c:400-422 | When the engine delivers the marks in the order it hears them, each bookmark event carries the name its own fragment gave. |
| `ComServer.Module.EngRelease` | sapi5/tvsapi.c:540-553 | The last release lets the token go, frees the engine and takes it off the count. |
| `ComServer.Module.SetObjectToken` | sapi5/tvsapi.c:685-718 | A token is refused without changing anything, or set with one reference taken on it and the one on the token before given up. |
| `ComServer.Module.GetObjectToken` | sapi5/tvsapi.c:720-732 | The token is handed out with a reference of its own, if there is one. |
| `ComServer.Module.CreateInstance` | sapi5/tvsapi.c:776-804 | A new engine is left with the one reference QueryInterface took, or with none and freed. |
| `ComServer.SetTokenKeeps` | sapi5/tvsapi.c:712-716 | Setting a token, even the one already set, leaves the engine holding exactly one reference on it. |
| `ComServer.RunBalances` | sapi5/tvsapi.c:518-811 | Over every run of clients that give back no more than they hold: the module count is live engines plus factory references plus locks; each engine is alive with as many references as clients hold or freed exactly once; each token has one reference from each engine set on it. |
| `ComServer.NeverAfterFree` | sapi5/tvsapi.c:540-553 | No call a client may make reaches a freed engine. |
| `ComServer.UnloadsExactlyWhenIdle` | sapi5/tvsapi.c:1073-1076 | The module may be unloaded exactly when no client holds anything of it, and then no engine holds a token. |
| `ComServer.VoicesOfRun` | sapi5/tvsapi.c:685-718 | After any run every live engine has the voice named by the last token it accepted, and that token; no synthesiser and no token until then. |
| `JaPool.Pool.Add` | tools/gen_ja_dict.py:127-142 | A string has one offset for ever, shared by all who add it; the pool only grows, by strings it does not have. |
| `JaPool.WalkReads` | lang/jpn/port/ja_dict.c:315-324 | The reader's walk over a tuple gives back its strings. |
| `JaRows.SplitRight` | tools/gen_ja_dict.py:276-284 | Splitting loses nothing but the separators. |
| `JaRows.SplitPieces` | tools/gen_ja_dict.py:276-284 | And joining pieces without the separator is undone by splitting. |
| `JaRows.ReadParts` | tools/gen_ja_dict.py:261-283 | The parts of a row: none of a reading for a symbol, the row itself for one slash, one part for each slash of a compound. |
| `JaRows.SymbolParts` | tools/gen_ja_dict.py:262-266 | A star anywhere in the accent field, or no slash, gives the row's own reading with no accent and no length. |
| `JaRows.WordParts` | tools/gen_ja_dict.py:267-271 | One slash gives one word: the accent before it, the length after. |
| `JaRows.CompoundParts` | tools/gen_ja_dict.py:272-283 | More slashes give as many parts, each of the pieces between colons in its place, accent before and length after the first slash of its own, empty strings where a field has fewer pieces. |
| `JaRows.WholeCompoundParts` | tools/gen_ja_dict.py:272-283 | As many pronunciations, readings and accents, each accent with its length, give exactly those parts in order. |
| `JaRows.SurfacePieces` | tools/gen_ja_dict.py:284-288 | The surface of a part is its own piece of the row's, or all of it when there are fewer. |
| `JaRows.Compiler.PosId` | tools/gen_ja_dict.py:223-231 | A tuple has one id, whose strings stand in the pool. |
| `JaRows.Compiler.ChainId` | tools/gen_ja_dict.py:233-237 | A chain rule has one id, whose string stands in its pool. |
| `JaRows.Compiler.AddRow` | tools/gen_ja_dict.py:284-297 | The entry and components added say what the row says, and everything said before stays said. |
| `JaRows.Compiler.AddRows` | tools/gen_ja_dict.py:256-297 | Every accepted row has its entry. |
| `JaRows.Compiler.AddUnknown` | tools/gen_ja_dict.py:179-187 | Each part of speech of the unknown-word entries has an id whose strings stand in the pool, and everything said before stays said. |
| `JaOrder.SortSorts` | tools/gen_ja_dict.py:301-303 | The entries are in the order of surface bytes and then cost. |
| `JaOrder.SortStable` | tools/gen_ja_dict.py:301-303 | Rows with equal keys keep their order. |
| `JaOrder.CompareIs` | lang/jpn/port/ja_dict.c:360-372 | A string is before another when it is a first part of it or has the smaller byte where they first differ. |
| `JaOrder.CmpKey` | lang/jpn/port/ja_dict.c:360-372 | Comparing the NUL-terminated surface with a key byte by byte is the order Python sorts byte strings by. |
| `JaFile.EntryFields` | lang/jpn/port/ja_dict.c:297-313 | Every field the reader takes from an entry is the one packed, a cost outside 16 bits being 0. |
| `JaFile.BlockPlaced` | tools/gen_ja_dict.py:316-352 | Every block stands where the header says. |
| `JaFile.CompiledOpens` | lang/jpn/port/ja_dict.c:236-276 | Every compiled dictionary passes the reader's checks. |
| `JaDict.Place` | tools/gen_ja_dict.py:316-319 | A block is placed after the header and all blocks before it. |
| `JaDict.PackRecords` | tools/gen_ja_dict.py:332-342 | Records packed in place into a buffer of their size stand one after another. |
| `JaDict.WriteDict` | tools/gen_ja_dict.py:312-366 | The file is the reference one, and there is none only when a number does not fit its field. |
| `JaRead.EntryReadsRow` | lang/jpn/port/ja_dict.c:807-843 | An entry is read back as its row: surface, all parts in order, part of speech, chain rule, ids and stored cost. |
| `JaRead.SymbolDescribed` | tools/gen_ja_dict.py:254-297 | What is read back of a symbol: its fields as they are, a cost too wide as 0, and its reading. |
| `JaRead.WordDescribed` | tools/gen_ja_dict.py:254-297 | Of a word, its reading with the accent before the slash and the length after. |
| `JaRead.CompoundDescribed` | tools/gen_ja_dict.py:254-297 | Of a compound, a word for each slash from the pieces in its place, the first with the whole surface. |
| `JaDict.CompileDict` | tools/gen_ja_dict.py:254-366 | The compiled file opens and gives back every accepted row, in sorted order, whatever parts of speech the unknown-word entries add to the pool after the rows. |
| `JaDict.CompiledSearchable` | tools/gen_ja_dict.py:301-336 | What the search needs holds of every compiled dictionary. |
| `JaDict.DictFind` | lang/jpn/port/ja_dict.c:379-404 | The two binary searches find exactly the run of rows with a given surface, and none exactly when there is no such row. |
| `JaDict.RunCheapestFirst` | tools/gen_ja_dict.py:301-303 | Within the run the cheapest row comes first. |
| `Wav.WriteBytes` | harness/tvh.c:140-159 | The harness writes the 44-byte header and the bytes. |
| `Wav.WriteSamples` | gui/speakwin.c:194-222 | The player's header, built byte by byte in place, is the same one, and the samples follow. |
| `Wav.HeadConsistent` | harness/tvh.c:140-159 | The header's lengths are those of the file less eight, of the format and of the samples. |
| `Wav.FmtConsistent` | harness/tvh.c:140-159 | Bytes to a sample, bytes to a second, channels and bits agree with one another and the rate. |
| `Wav.SamplesStand` | gui/speakwin.c:194-222 | Every sample is found, as a signed number, in its own two bytes. |
| `Wav.WavData` | tools/difftest.py:197-215 | The walk over the chunks as the reference definition gives it, errors included. |
| `Wav.ParsesFile` | tools/difftest.py:204-214 | Whatever well-formed chunks come before the samples, reading gives the last format among them and exactly the samples. |
| `Wav.WrittenIsRead` | harness/tvh.c:140-159 | Parsing what the harness writes gives its format and the same bytes, for every length that fits 32 bits. |
| `Wav.SamplesAreReadIff` | gui/speakwin.c:194-222 | Parsing what the player writes gives all its samples if and only if their length fits in 32 bits, and otherwise as many as the wrapped length says. |
| `Wav.InsertionHarmless` | tools/difftest.py:197-215 | A well-formed chunk other than fmt and data put in anywhere before the samples changes nothing. |
| `Wav.Pcm.Append` | gui/speakwin.c:112-127 | All of the samples are taken, or none when the heap refuses. |
| `Splitter.SplitItems` | tools/es_reftest.py:34-52 | The Python splitter gives the reference items. |
| `Splitter.SplitLines` | harness/tvh.c:348-365 | The C splitter gives the same items, or the first 256 of them. |
| `Splitter.ItemsAreTheText` | harness/tvh.c:341-368 | Items are not empty and end in something other than a blank; together they are the text from its start; what is left is blanks and at most one newline at the end. |
| `Splitter.CutsExactly` | harness/tvh.c:341-368 | The items end exactly where something other than a blank ends a line but for blanks, an empty line at the very end excepted. |
| `PeLoad.CopySections` | harness/peload.c:71-79 | Every byte is that of the last section that covers it, or what it was. |
| `PeLoad.SectionsStand` | harness/peload.c:71-79 | Sections that do not overlap all stand at their addresses. |
| `PeLoad.Relocate` | harness/peload.c:84-99 | The nested loops over the table leave the image with the listed words moved one after another. |
| `PeLoad.TableLists` | harness/peload.c:84-97 | Of a table laid out block by block, the words listed are exactly its entries of kind 3, each at its offset in its page, in order. |
| `PeLoad.LoadAt` | harness/peload.c:84-99 | Moving nothing at the preferred base comes to the same. |
| `PeLoad.ExactlyTheWordsMove` | harness/peload.c:94-97 | Each listed word has delta added modulo 2^32 as often as it is listed; every other byte is as it was. |
| `PeLoad.FollowsAlike` | harness/peload.c:143-146 | Loaded at any base, a chain of words relocated once each leads to the same place in the image as at the preferred base. |

## Left out

- The engine itself (stages, synthesiser, rule interpreter) is not part of this model; where its behaviour matters it is a parameter or an assumption named in the theorem.
- Win32, waveOut, COM activation, registry and file access appear as parameters or steps; the device is a queue that plays in order, and waiting for a thread is a true join.
- AudioRing: is on values, because the threads' steps interleave; one step is one access another thread can see. The window's own `g_state` is not modelled: pausing and resuming may happen at any time, and a stop always restarts a device it finds open.
- AudioRingRuns.StopGetsThrough: assumes the engine calls back no more once its callback has returned non-zero.
- Coverage.Tracer.Arm: the process's address space is one array, and qsort is modelled by its result.
- TracedRun.TracedRunErases: assumes a clean run; `TracedRun.StepCleanIff` shows that no wider condition on what instructions read and write would do.
- Disasm.Analysis.Decode: decoding x86 is a parameter.
- Disasm.Analysis.Run: names, callers, indirect calls, function ends and chunks are not kept; the indexes of data references are kept but said nothing of over the whole run.
- Relinker.CollectLabels: reading the annotations out of the source text and the symbols out of object files is not part of this model.
- Interchange.InterchangeableIff: a build that needs code is refused from either source and not compared; at least one chunk must have been extracted, as reading takes the size from the highest one, and regions must have 32-bit offsets, which `Interchange.CompactAddressable` reduces to a bound on the sections and annotations.
- Extract.Read: works on the contents of the extracted file; its byte layout is not modelled.
- VolumePlan.PlanDecides: the curve's range is assumed, as the plan walks attenuations 15 down to -48 only; `VolumePlan.DecidesIff` says exactly what any set of probes decides.
- Escapes.HearEscape: the commands modelled are those an utterance can hold; other letters are unknown commands here, rate classes are not modelled, and how long a pause an argument makes is what src/port/tvtts.c:336-337 says was measured. Only the English preformatter is read; the same server speaks Spanish and Japanese voices through others.
- Utterance.UtteranceHeard: fragment text is assumed free of ESC and NUL; folding of accents, conversion to code page 1252 and the library's own rewriting of the text (sung commands, camel case) are not modelled. The engine starts as `Engine_SetPitch` and `Engine_SetSpeed` leave it; `Retuning.CarriedOverIff` says when the latter is not called. Without the rate extension a rate above 253 given by Speak selects a row past the table, which is kept as that row.
- SapiSpeak.BuildUtterance: a list of 2^32 - 1 fragments or more is not modelled.
- SapiSpeak.Wtol: overflow of the 32-bit result is not modelled.
- JaRows.ReadParts: works on UTF-8 bytes, where the separators are single bytes; reading the CSV and parsing its numbers is not modelled, and what `int` makes of an accent or mora field is a parameter.
- JaDict.CompileDict: the connection matrix, the character categories and the records of the unknown-word entries are placed as given bytes, whatever ids the entries were given; strings are assumed to hold no NUL.
- Wav.WavData: a file is its bytes; opening it is not modelled.
- PeLoad.Relocate: the table is assumed well formed, its words in the image and outside the table, as a table that rewrites itself while it is read has no meaning but the loop's; headers and imports are not modelled.
- PeLoad.LoadAt: as PeLoad.Relocate.
- `normalize` in harness/unit_es.c, WinMain, the dialogs, the language tables and what emits them, listings and reports are not part of this model: no theorem here rests on what they do.
- `voice_index_in_language` in sapi5/tvsapi.c: its two-letter comparison cannot separate "en" from "en-GB".
