# A model of three cores of govax

This project models, and proves correct, three parts of the VAX/VMS tools in govax:

- **The MACRO-32 assembler core** (`internal/asm`). Expressions with forward references and the trees left of them; the
  fixups hung on undefined symbols and backpatched by their definitions; the record of who stored each byte; and the
  object module that replays that record on the linker's stack machine. Also operand displacements, conditional assembly
  and the debugger's line-number table.
- **The BACKUP save-set codec** (`internal/backup`). The writer that packs records into sealed blocks with redundancy
  groups, and the reader that checks, repairs and decodes them.
- **AST delivery and change-mode calls** (`internal/corevms`). The interrupt protocol over the four access modes.

The main theorems, each for every input, run or reachable state:

| theorem | in words |
|---|---|
| `Passes.OnePassIsTwoPass`, `Passes.AtZeroExactly` | exactly when one pass with backpatching stores what two passes would |
| `Supersession.DeadExactly`, `Passes.HitsExactly` | exactly which stores make the assembler give a waiting field up |
| `SourceImage.LinkedSource`, `FinalImage.ReplayIsFaithful` | from a MACRO source's statements to the linked image: each byte is what the last store to it in the source means |
| `StrayFixups.StrayExactly`, `Dropping.GivenUpExactly` | exactly which values of a MACRO source are hung in the wrong psect, or dropped |
| `ForwardLists.RunKeepsLinked`, `ForwardLists.DefinitionCompletes` | each fixup waits once on each undefined symbol, and is completed once, by the last of them |
| `Expressions.FinishedMeans`, `Linker.ProgramComputesValue` | simplifying and compiling an expression keep its value |
| `SaveSets.EndToEnd`, `SaveSets.ReadDamagedExactly`, `Recovery.RepairExact` | a save set reads back, and after damage exactly what can be restored is, exactly where no name is confused |
| `Salvage.FromDamage` | of a damaged save set, Missing gives exactly the used blocks not received and Data a file's own bytes everywhere else |
| `Confusion.DecodesExactly`, `NamesMixed.MixedRead`, `NamesMixed.LongRead` | exactly when lost blocks mix files or lose more than they held, and two save sets where they do |
| `Saving.Save` | what is written and reported, and when every file reported is written |
| `Interrupts.Transparent`, `Interrupts.Balanced`, `Interrupts.AtMostFour` | nested deliveries and calls restore what they interrupted |
| `Conditionals.WellNestedAssembles`, `LineTable.TableReadsBack`, `Operands.RelativeReaches` | streaming conditionals, the line table and displacements mean what they encode |

## How it is laid out

Specifications are functions on values; the code that works in place is written again as a class or a method with loops
and proved equal to them.

| part | specification and proofs | in place |
|---|---|---|
| words, expressions, linker | `Words`, `Expressions`, `Linker` | |
| console assembly | `TwoPass`, `OnePass`, `ForwardLists`, `Backpatch`, `Supersession`, `Painting`, `Passes`, `Limits`, `Counterexamples`, `Operands` | `Assembler` |
| MACRO output and object | `Output`, `Histories`, `Positions`, `Emission`, `Relocated`, `Replay`, `Faithful`, `Linking`, `Allocation`, `FinalImage`, `Entries` | `Recorder`, `ObjectWriter` |
| MACRO source | `MacroRun`, `SourceImage`, `StrayFixups`, `Dropping` | |
| conditionals, line table | `Conditionals`, `LineTable` | in the same files |
| save sets | `Bytes`, `Crc`, `Blocks`, `Attributes`, `Stream`, `Groups`, `Packing`, `Reading`, `Recovery`, `Restoring`, `Confusion`, `NamesMixed`, `SaveSets`, `Salvage`, `Reporting` | `Writer`, `Saving`, `Reader`, `FileData` and the parsing loops in `Blocks`, `Attributes`, `Crc` |
| access modes | `Division`, `Processor`, `Asts`, `Interrupts` | `Environment` |

`dafny verify dfyconfig.toml` checks all of it.

## What was found

Where the code and a natural statement of its purpose part, the model follows the code. Each case has a lemma at an input
where they part, and a lemma that says exactly when they do.

- The linker divides signed and makes x/0 zero (`internal/link/pass2.go:189-195`); the assembler divides unsigned and
  leaves x/0 as x (`internal/asm/reloc.go:234-262`). The two agree on one division exactly where
  `Expressions.DivisionAgreesExactly` says, so folding it keeps the linker's value exactly there
  (`Expressions.FoldedDivisionExactly`); of any tree, the value folding leaves is the assembler's
  (`Expressions.ResolvedExactly`). `Expressions.FoldedDivisionDiffers` is a case where they differ.
- A field that waits, and is stored over in part, is never finished: its fixup is dead, and its other bytes keep the
  placeholder (`internal/asm/overwrite.go:55-79`, `internal/asm/reloc.go:382-384`). At base zero that is so exactly for the
  fields a later statement stores over while they wait (`Passes.DeadWhereSpoiled`), and one pass is two exactly where
  their bytes were first given their final values (`Passes.AtZeroExactly`); `Counterexamples.OnePassDiffers` is a program
  where one was not.
- In the MACRO dialect too a field stored over while it waits, and then known, is dropped, all of it: its other bytes are
  linked as they were first stored. `Dropping.DroppedExactly` and `Dropping.GivenUpExactly` say exactly which;
  `Dropping.HalfLost` is a source whose word keeps a zero byte.
- A data directive hangs the fixup of a value not yet known before it stores the field (`internal/asm/pseudo.go:146-151`),
  and it is the store that first moves from . ABS . to the blank psect (`internal/asm/psect.go:83-94`). So of a source whose
  first store is such a value, read before any .PSECT or label, the fixup is in the wrong psect: exactly there
  (`StrayFixups.StrayExactly`). A signed constant that fits is then lost without a report (`StrayFixups.StrayLost`); any but
  a signed constant ends in the internal error of `internal/asm/object.go:127-129` (`MacroRun.Writable`;
  `StrayFixups.StrayRefused` is such a source).
- `supersede` compares section offsets with absolute locations (`internal/asm/overwrite.go:56-57`). In a section at another
  base it misses overlaps, so that a fixup stores over a later store, and supersedes fixups that nothing was stored over:
  exactly which is `Passes.HitsExactly` and `Passes.SeenExactly`, and what becomes of the image, at every base,
  `Passes.ImageExactly` and `Passes.OnePassIsTwoPass`. `Counterexamples.OnePassDiffers` is an overlap missed;
  `Counterexamples.SupersededUntouched` and `Counterexamples.LostForNothing` are a program that gives up a field nothing was
  stored over, and then leaves it zero.
- `=` of a symbol still waiting reads zero instead of failing (`internal/asm/value.go:182-192`), so that the table need not
  solve its own definitions: `Limits.TableSolvesExactly` says when it does, `Counterexamples.WaitingAssignment` is a program
  where it does not.
- A register displacement whose size is written may be given as an unsigned pattern, and then does not mean the value
  (`internal/asm/operand.go:1145-1149`): `Operands.RegisterReaches` says exactly when,
  `Operands.UnsignedPatternDiffers` is a case.
- A byte or word fixup of a signed kind takes values up to 255 or 65535 when the assembler finishes it
  (`internal/asm/symbol.go:625-655`), which the linker's signed stores refuse (`internal/link/pass2.go:489-500`): exactly
  these; and branches the other way about, exactly those whose distance is in range only when 2^32 is added or taken away
  (`FinalImage.AcceptedExactly`). `FinalImage.SignedByteDisputed` is one of the first, `FinalImage.BranchDisputed` of the
  second.
- After a record that fits no block, Close still reports files to Saved although their blocks are not written
  (`internal/backup/writer.go:346-361`): every file reported is in the output exactly where every record fits
  (`Saving.Save`). `Saving.ReportedUnsaved` is a file reported with nothing written.
- After a lost block, decode tells by its name whether data goes on with the file being read
  (`internal/backup/reader.go:313-316`), so that files of one name can be mixed and a name too long for a header loses data:
  `Confusion.DecodesExactly` says exactly when. `NamesMixed.MixedRead` is a save set of two files named A of which Read,
  one block being lost, gives the first a run of the second's; `NamesMixed.LongRead` one of a file with a name of 128 bytes
  of which it leaves out a block that is not lost; `NamesMixed.Spoiled` is such damage.
- The exit from an AST restores the whole PSL of its frame but for the mode and the interrupt-stack bit
  (`internal/corevms/ast.go:406-419`): `Asts.NeverRaises` states what is protected, `Asts.ExitTakes` that PRV_MOD and IPL
  are the frame's, and `Asts.PrvModExactly` when that makes PRV_MOD more privileged; `Asts.ForgedFrame` is such a frame.

## Model

| member | source | states |
|---|---|---|
| Expressions.DivisionAgreesExactly | internal/link/pass2.go:189-195 | the assembler's unsigned division and the linker's signed one give the same quotient exactly under a condition on the operands that can be checked beforehand |
| Expressions.ResolvedKeepsValue | internal/asm/reloc.go:115-124 | resolving any tree keeps its value modulo 2^32 in every environment that agrees with the symbol table; and the linker's value too wherever each constant division folded is one both machines do alike |
| Expressions.ResolvedExactly | internal/asm/reloc.go:115-124 | for every tree, divisions and all, what either machine computes of the resolved tree is its own value of the tree if it was not folded, and the assembler's value if it was |
| Expressions.SubstitutedKeepsValue | internal/asm/reloc.go:126-149 | putting symbols' definitions in place keeps the value on either machine |
| Expressions.FoldedDivisionExactly | internal/asm/reloc.go:115-124 | for one division of constants, folding keeps the linker's value if and only if the divisor is zero or the two machines agree on it |
| Expressions.FoldedDivisionDiffers | internal/asm/reloc.go:234-262 | -6/2 is folded to %X7FFFFFFD, where the linker would have made -3 |
| Expressions.SubstitutedLeaves | internal/asm/reloc.go:126-149 | no defined symbol is left in a resolved tree |
| Expressions.SimpleRelocatableIsBasePlusOffset | internal/asm/reloc.go:180-207 | where simpleRelocatable gives a section and an offset, the tree always equals that section's base plus that offset |
| Expressions.BinaryValKeepsValue | internal/asm/value.go:108-145 | a folded constant always equals the value of the shape kept beside it |
| Expressions.EvaluateKeepsMeaning | internal/asm/value.go:236-273 | reading an expression, whatever mix of its symbols is defined, gives a value or a tree that means what the expression means with all of them defined |
| Expressions.EvaluateLeaves | internal/asm/value.go:420-460 | the tree waits only on symbols the expression names that are not yet defined |
| Expressions.EvaluateOnLinker | internal/asm/value.go:236-273 | in the MACRO dialect, whatever mix of symbols is defined when it is read, the tree computes on the linker what the expression means there |
| Expressions.FinishedMeans | internal/asm/reloc.go:368-379 | what the linker computes of the tree a fixup is finished with, resolved or only substituted, is what the expression means: by the linker's arithmetic, or, exactly where it was folded, the assembler's |
| Linker.StackConstantExact | internal/asm/object.go:685-700 | the short form chosen has room for its operand and extends back to the constant |
| Linker.StackConstantShortest | internal/asm/object.go:685-700 | no constant command with a smaller operand pushes the same longword |
| Linker.StackPsectOffsetExact | internal/asm/object.go:705-716 | a byte or word psect offset sign-extends back to the offset |
| Linker.ProgramComputesValue | internal/asm/object.go:588-632 | for every tree, running its stack program pushes exactly its value and leaves the stack below, the location and memory alone |
| ForwardLists.AttachHangsOnce | internal/asm/symbol.go:429-457 | queueing hangs the fixup once on each symbol of its tree, however often the tree names it, and counts those symbols |
| ForwardLists.QueueKeepsLinked | internal/asm/symbol.go:429-457 | queueing keeps: each fixup's pending count is the number of symbols whose lists hold it, once each and nowhere else |
| ForwardLists.DefineKeepsLinked | internal/asm/symbol.go:498-558 | so does a definition |
| ForwardLists.RunKeepsLinked | internal/asm/symbol.go:429-457 | so it holds after every program |
| ForwardLists.CompletedOnce | internal/asm/symbol.go:543-554 | the fixups a definition completes are distinct, and were waiting on it alone |
| ForwardLists.DefinitionCompletes | internal/asm/symbol.go:543-554 | a definition completes, once each, exactly the fixups waiting on that symbol alone |
| TwoPass.PassTwoAt | internal/asm/image.go:16-38 | each byte of the two-pass image is the last store's to it |
| OnePass.RunLayout | internal/asm/symbol.go:498-558 | one pass lays out a program, and defines its symbols, as a first pass would |
| Backpatch.LinearResolves | internal/asm/reloc.go:115-124 | once its symbols are defined, a tree the console allows is a constant, and the right one |
| Supersession.DeadExactly | internal/asm/overwrite.go:27-79 | in every run, at any base, a fixup ends dead exactly where pass one's layout has a later store that the comparison of offsets with its field's address meets while its field waits |
| Passes.HitsExactly | internal/asm/overwrite.go:55-79 | in a section at any base, a store supersedes a waiting field exactly where it goes over some byte stored before, whosever, and its offsets meet the field's addresses |
| Passes.SeenExactly | internal/asm/overwrite.go:56-57 | of the stores that go over a waiting field supersede sees those whose offsets meet the field's addresses: all of them at base zero, none where the base is as long as the two |
| Passes.DeadWhereSpoiled | internal/asm/overwrite.go:27-79 | at base zero a fixup ends dead exactly where a later statement stored over a byte of its field while it waited |
| Backpatch.CompletedRight | internal/asm/symbol.go:606-672 | completing a fixup stores the bytes the complete symbol table gives its field |
| Painting.CompletePaints | internal/asm/symbol.go:543-554 | a definition's fixups, told last queued first, leave at each byte the last of those finished that cover it |
| Painting.RunSound | internal/asm/symbol.go:498-558 | after every program, whatever overlaps, each byte is what the layout says: its last store's first bytes, or the field last completed after that store |
| Passes.ImageExactly | internal/asm/symbol.go:498-558 | byte by byte, at any base and whatever overlaps, the image one pass leaves |
| Passes.OnePassIsTwoPass | internal/asm/symbol.go:498-558 | one pass equals two with the complete symbol table if and only if, by pass one's layout, each byte held by a field completed over a later store, or left as its last store first gave it, has the second pass's value anyway |
| Passes.AtZeroExactly | internal/asm/overwrite.go:27-79 | at base zero one pass equals two if and only if each byte whose last store is a field stored over in part while it waited was first given its final value |
| Passes.ApartIsTwoPass | internal/asm/symbol.go:498-558 | at any base one pass equals two where no byte is stored twice |
| Limits.ReadNowMeans | internal/asm/value.go:182-192 | a value read now is what the expression means with every symbol still waiting taken as zero |
| Limits.TableSolvesExactly | internal/asm/symbol.go:471-482 | the table one pass ends with solves all its definitions together if and only if no assignment's value is changed by taking as zero the symbols it reads before they are defined |
| Limits.TableSolves | internal/asm/symbol.go:471-482 | labels and assignments get the values that solve their definitions together where no assignment reads a symbol before its definition |
| Counterexamples.WaitingAssignment | internal/asm/value.go:182-192 | .LONG X, then Y = X, then X: accepted at every base and start, with Y zero, so its table solves its definitions only if X is zero |
| Passes.OnePassByte | internal/asm/overwrite.go:27-79 | at base zero each byte is the second pass's, unless its last store is a field stored over in part while it waited, when it is what the field was first given |
| Counterexamples.OnePassDiffers | internal/asm/overwrite.go:55-79 | .WORD X, a .BYTE over its first byte, then X: one pass differs from two, at base zero and elsewhere, in different ways |
| Counterexamples.SupersededUntouched | internal/asm/overwrite.go:55-79 | in a section at %X200, at every starting state, a program stores twice at %X420, nowhere near a field that waits at %X220, and it assembles with the field's fixup dead |
| Counterexamples.LostForNothing | internal/asm/overwrite.go:55-79 | and when its symbol is then defined the field is left zero, where two passes store its value |
| AssemblerState.Assembler.SupersedeOverlapped | internal/asm/overwrite.go:55-79 | the loop over the lists marks exactly the fixups the specification supersedes |
| AssemblerState.Assembler.ClaimBytes | internal/asm/overwrite.go:27-52 | claim's loop gives the specification's histories and superseded fixups |
| AssemblerState.Assembler.EmitBytes | internal/asm/section.go:180-203 | bytes stored at the location, claimed, and moved past |
| AssemblerState.Assembler.Queue | internal/asm/symbol.go:429-457 | queueFixup refines the specification's |
| AssemblerState.Assembler.CompleteOne | internal/asm/reloc.go:368-411 | a fixup's value stored, unless it is dead |
| AssemblerState.Assembler.SetSymbol | internal/asm/symbol.go:498-558 | setSymbolIn refines the specification's: the definition, and every fixup it completes |
| AssemblerState.Assembler.Tell | internal/asm/symbol.go:543-554 | the loop over the fixups a definition held up |
| AssemblerState.Assembler.EmitCopies | internal/asm/pseudo.go:66-137 | each copy of a value not yet known gets a fixup of its own |
| AssemblerState.Assembler.EmitItem | internal/asm/operand.go:1043-1092 | an item read, checked and stored, or refused |
| AssemblerState.Assembler.ReadKnown | internal/asm/value.go:182-192 | a value now, or an error |
| AssemblerState.Assembler.MoveTo | internal/asm/section.go:82-86 | the location moved |
| AssemblerState.Assembler.StartStore | internal/asm/directive.go:326-328 | a .CASE table's base, kept or emptied |
| AssemblerState.AssembleSource | internal/asm/assembler.go:437-512 | the whole in-place assembly succeeds exactly where the specification does, and its image is then the two-pass one exactly under the condition of Passes.OnePassIsTwoPass |
| Operands.FieldHolds | internal/asm/operand.go:931-942 | a field holds a value exactly when fitsSigned says so, and always modulo its size |
| Operands.RelativeReaches | internal/asm/operand.go:1043-1092 | decoding the mode byte and sign-extended field gives back the target modulo 2^32; a range error means no field of that size reaches it |
| Operands.RelativeShortest | internal/asm/operand.go:1072-1078 | no displacement operand that reaches the target is shorter than the one chosen |
| Operands.RegisterReaches | internal/asm/operand.go:1100-1156 | decoding gives back register, deferral and value, except exactly where a written size holds the value only as an unsigned pattern |
| Operands.UnsignedPatternDiffers | internal/asm/operand.go:1145-1149 | B^0FF(R1) is taken, and decodes as -1(R1) |
| Operands.RegisterShortest | internal/asm/operand.go:1130-1144 | no operand of the same register and value is shorter: register deferred mode counted in the MACRO dialect |
| Operands.ChooseSize | internal/asm/operand.go:1072-1078 | the loop over the sizes finds that size |
| Histories.Superseding | internal/asm/overwrite.go:55-79 | data stored over a waiting field always finds another statement's claim, and supersedes the fixup |
| Histories.EmitKeeps | internal/asm/section.go:100-105 | a store keeps the record's invariant: each byte's history lists its data stores in order, its last event is its last store's, its image byte is the last data store's, and operands in one event share no byte |
| Histories.FinishKeeps | internal/asm/reloc.go:368-411 | so does completing a fixup, whatever becomes of it |
| Histories.AssembledKeeps | internal/asm/overwrite.go:27-79 | so it holds after every program |
| Positions.LoggedInPlace | internal/asm/output.go:57-72 | an event merged into the one before it leaves the location where it would have on its own |
| Positions.AssembledTracked | internal/asm/section.go:82-112 | after every program each event takes up at the location the ones before it leave |
| Recorder.Record.MarkHere | internal/asm/section.go:115-119 | mark in place |
| Recorder.Record.Note | internal/asm/output.go:57-72 | logEvent in place |
| Recorder.Record.StoreBytes | internal/asm/image.go:16-36 | bytes stored in the sparse image |
| Recorder.Record.MarkSuperseded | internal/asm/overwrite.go:55-79 | supersede's loop |
| Recorder.Record.ClaimBytes | internal/asm/overwrite.go:27-52 | claim's loop: every byte's history, and whether anything is superseded, from the histories before |
| Recorder.Record.EmitData | internal/asm/section.go:100-105 | image, event, claim and location of one store |
| Recorder.Record.EmitOperand | internal/asm/section.go:193-201 | an operand's bytes one at a time, and its field |
| Recorder.RecordAll | internal/asm/section.go:82-119 | a whole assembly in place, operation after operation, leaves the record of the specification, of which the replay theorems are |
| Recorder.Record.Complete | internal/asm/reloc.go:381-410 | completeFixup in place: dropped, left superseded, stored, or left with zeros |
| Relocated.KeyIsEvent | internal/asm/section.go:62-72 | storedBy finds the event that stored a fixup's field |
| Relocated.KeysDiffer | internal/asm/object.go:110-112 | no two relocations have one key, so none is lost in the map |
| Relocated.Found | internal/asm/object.go:550-558 | a relocation found at p, or one or two bytes on, is the one whose operand specifier starts at p, and ends inside the event |
| Relocated.NoneFound | internal/asm/object.go:550-558 | where none is found, p is in no field |
| Relocated.OperandBytes | internal/asm/object.go:492-545 | the bytes before a field are in no field, and the field's in no other |
| Replay.FieldRuns | internal/asm/object.go:492-545 | a field's commands store the bytes of its operand and its value, and leave the stack as it was |
| Replay.DataRuns | internal/asm/object.go:492-545 | a data event's commands lay down each of its bytes and change no other |
| Faithful.DataWrites | internal/asm/object.go:492-545 | and write, once each, exactly the relocations of the event |
| Faithful.EachWrittenOnce | internal/asm/object.go:110-127 | no relocation is left over, and none is written twice |
| Linking.ConstantRuns | internal/asm/object.go:397-407 | a constant's two commands store its low bytes at the location |
| Linking.FlushRuns | internal/asm/object.go:333-343 | setting the absolute start disturbs no relocatable psect's location |
| Linking.PatchRuns | internal/asm/object.go:423-432 | a patch stores back at its offset, and returns to the location |
| Linking.ToldRuns | internal/asm/object.go:349-436 | each kind of event leaves the linker where the emitter is, stack empty, and its bytes in memory |
| Allocation.AssembledMarked | internal/asm/section.go:107-119 | after every program no event stores past the highest location reached in its section |
| Allocation.ReachedAllocated | internal/asm/object.go:442-446 | the allocation definePsect gives a psect covers all its events store |
| FinalImage.AppliedIsLinked | internal/asm/reloc.go:393-398 | what the assembler stores for a value it can finish is byte for byte what the linker would have, if it stored it |
| FinalImage.LinkerStores | internal/link/pass2.go:484-505 | every value the assembler can finish, wherever its psect is put, the linker stores exactly where it fits the store command's own field, and then as the same bytes |
| FinalImage.AcceptedExactly | internal/asm/symbol.go:606-655 | the assembler reports no range error exactly where the linker would store, but for a value of 128 to 255 in a signed byte, 32768 to 65535 in a signed word, and a branch whose distance plus or minus 2^32 is in range |
| FinalImage.SignedByteDisputed | internal/asm/symbol.go:625-633 | 200 in a signed byte: stored with no report, and refused by the linker |
| FinalImage.BranchDisputed | internal/asm/symbol.go:635-641 | a byte branch from the bottom of a psect to %XFFFFFFFF: reported as out of range, and stored by the linker as -2 |
| FinalImage.LastEventByte | internal/asm/object.go:562-576 | for the last event to store a byte, byteAt and the relocations together give the last store's value |
| FinalImage.ReplayRuns | internal/asm/object.go:349-436 | after every event the linker is in step, and each byte is as the last event to store it left it |
| FinalImage.RelocationsWrittenOnce | internal/asm/object.go:110-127 | for every program, each relocation is written once under its own key |
| FinalImage.ReplayIsFaithful | internal/asm/object.go:349-436 | for every program, and every link that reports no error, allocates what definePsect asked for and puts its psects apart: the location is e.loc after every event, and at the end each byte is as the last store in source order has it, its field's value wherever it was found, and no other memory has changed |
| FinalImage.LinkedFieldMeans | internal/asm/reloc.go:368-411 | from the source text to the image: a field whose value was found later holds what its expression means, whatever was defined when it was read |
| Entries.EntriesAreTheSource | internal/asm/object.go:409-416 | the object defines exactly the source's entry points, in order, each with its psect, offset and mask |
| Entries.EntryLinked | internal/asm/object.go:465-480 | where nothing is stored over it since, an entry point's mask is in the linked image at the place its record gives |
| SourceImage.LinesKept | internal/asm/assembler.go:437-512 | after every MACRO source each store, and each fixup, is of the expression its statement read, by the definitions of that time, and every fixup is finished |
| SourceImage.TreeMeans | internal/asm/reloc.go:368-379 | what the linker makes of the tree a fixup of a source is finished with is what its statement's expression means |
| SourceImage.StoredMeans | internal/asm/reloc.go:436-498 | after every MACRO source each byte's last store has the value its expression means, or was dropped, or was hung in the wrong psect |
| SourceImage.LinkedSource | internal/asm/reloc.go:436-498 | for every MACRO source that assembles, and every link that reports no error: each byte linked is what the last store to it in the source means |
| StrayFixups.StrayExactly | internal/asm/psect.go:79-94 | a source's fixup is hung in the wrong psect if and only if its first store is of a value read in . ABS . and not known there; and no other store's ever is |
| StrayFixups.StrayLost | internal/asm/pseudo.go:145-155 | .SIGNED_BYTE X, then X = 5: assembled and linked with no error, the byte zero |
| StrayFixups.StrayRefused | internal/asm/object.go:127-129 | .BYTE X, then X = 5: assembled, and then an internal error |
| Dropping.DeadWhereStruck | internal/asm/overwrite.go:55-79 | in every run a fixup ends dead if and only if data was stored over its field while it waited |
| Dropping.DroppedExactly | internal/asm/reloc.go:381-384 | in every run a fixup's value is dropped if and only if it is finished as a constant, not an .ADDRESS, after its field was stored over |
| Dropping.GivenUpExactly | internal/asm/reloc.go:381-384 | of a MACRO source, a store keeps its placeholder if and only if its fixup is so dropped |
| Dropping.HalfLost | internal/asm/overwrite.go:55-79 | .WORD X, a byte over its first byte, then X = ^X1234: no error, and the second byte linked is zero |
| ObjectWriter.FindStoredBy | internal/asm/section.go:62-72 | storedBy's loop |
| ObjectWriter.FindRelocations | internal/asm/object.go:110-112 | the map of relocations built in a loop |
| ObjectWriter.Writer.StackProgram | internal/asm/object.go:588-632 | the tree's commands appended in postfix order |
| ObjectWriter.Writer.ByteOf | internal/asm/object.go:562-576 | byteAt's loop back through a byte's history |
| ObjectWriter.Writer.PrefixedAt | internal/asm/object.go:550-558 | prefixedAt's loop |
| ObjectWriter.Writer.WriteData | internal/asm/object.go:492-545 | data's loop writes the specification's commands and leaves its relocations |
| ObjectWriter.Writer.WriteEvent | internal/asm/object.go:349-436 | an event told in place |
| ObjectWriter.WriteObject | internal/asm/object.go:110-127 | the whole object's commands, and how many relocations are left over |
| Conditionals.RunNested | internal/asm/conditional.go:27-117 | after any lines, each frame's outer is the frame below's on, and at most 31 are open |
| Conditionals.TopTells | internal/asm/conditional.go:27-29 | the top frame is on exactly when every open block's is |
| Conditionals.LinesMean | internal/asm/conditional.go:34-117 | in any nested state, a block's lines assemble what its recursive meaning selects and leave the frames as they were |
| Conditionals.StreamingIsStructured | internal/asm/conditional.go:27-117 | from the start: streaming equals the structured meaning, failures and tests that depend on earlier statements included |
| Conditionals.WellNestedExactly | internal/asm/conditional.go:95-117 | the well-nested line sequences are exactly those of some blocks |
| Conditionals.WellNestedAssembles | internal/asm/conditional.go:27-117 | so every well-nested source assembles as its blocks say |
| Conditionals.Assembler.Subconditional | internal/asm/conditional.go:95-117 | .IFF, .IFT and .IFTF in place |
| Conditionals.Assembler.EndBlock | internal/asm/conditional.go:95-104 | .ENDC in place |
| Conditionals.Assembler.OpenBlock | internal/asm/conditional.go:71-90 | .IF in place: the depth, then the test |
| Conditionals.Assembler.SkipStatement | internal/asm/conditional.go:34-67 | a skipped statement in place: a test is not evaluated |
| Conditionals.Assemble | internal/asm/assembler.go:929-934 | line after line in place, up to the first error, equals the specification |
| LineTable.RowsOfOk | internal/asm/debug.go:282-335 | rows in a segment abut, a row starts one exactly where it does not abut the row before, and the segment ends where its last row does |
| LineTable.LinesInRows | internal/asm/debug.go:282-335 | every line of code that counts is in a row of its own line |
| LineTable.RowsBegun | internal/asm/debug.go:282-335 | every row was begun by a line of code, at its line and start |
| LineTable.LineRows | internal/asm/debug.go:282-335 | lineRows' loop |
| LineTable.SetLineDecodes | internal/obj/dbg.go:304-311 | a line number above 255 reads back, from its low byte and an increment |
| LineTable.AdvanceDecodes | internal/obj/dbg.go:329-338 | each form of an advance, a delta byte of 128 included, reads back as line + 1 and address + size |
| LineTable.RowDecodes | internal/asm/debug.go:340-372 | one row's commands take the reader from the row before it to it |
| LineTable.TableReadsBack | internal/asm/debug.go:340-372 | the linked bytes of the table of any recorded lines read back as every row's line and start address and every segment's end |
| Crc.Table | internal/backup/crc.go:22-37 | the loops fill entry n with byte n divided bit by bit by %XA001, reflected |
| Crc.ComputeCrc16 | internal/backup/crc.go:40-47 | crc16's loop gives the bit-at-a-time remainder |
| Crc.Crc16IsRemainder | internal/backup/crc.go:40-47 | the table-driven CRC is the bit-at-a-time division, for every byte string |
| Crc.Crc16Linear | internal/backup/crc.go:40-47 | the CRC of an exclusive or is the exclusive or of the CRCs |
| Crc.AdjacentBytesRemain | internal/backup/crc.go:40-47 | any change within two adjacent bytes changes the remainder, wherever it is |
| Crc.ChecksumDetects | internal/backup/crc.go:52-59 | headers that differ, where the checksum looks, within two adjacent bytes have different checksums |
| Blocks.HeaderRoundTrip | internal/backup/block.go:100-141 | parsing a written header gives every field back, counted strings cut to fit |
| Blocks.SealPasses | internal/backup/writer.go:279-288 | a sealed block passes its header checksum, and differs from the unsealed in check fields alone |
| Blocks.SealIntact | internal/backup/block.go:156-165 | and passes its data CRC, its flags saying truly whether it has one |
| Blocks.RecordsReadBack | internal/backup/record.go:68-96 | records packed in a block read back as they were, up to the null record |
| Blocks.Records | internal/backup/record.go:68-96 | Records' loop |
| AttributeLists.ListRoundTrip | internal/backup/attributes.go:76-103 | a list of any values under 65536 bytes, any number of zeros after it, parses to just those attributes |
| AttributeLists.SummaryRoundTrip | internal/backup/attributes.go:147-207 | parseSummary inverts EncodeSummary, the user name blank-padded |
| AttributeLists.AttributesRoundTrip | internal/backup/attributes.go:240-301 | parseAttributes inverts EncodeAttributes, directory status kept modulo 256 and only of directories |
| AttributeLists.ParseList | internal/backup/attributes.go:76-103 | attributeList's loop |
| AttributeLists.ReadUnsigned | internal/backup/attributes.go:106-113 | unsigned's loop, in a 64-bit word |
| AttributeLists.ReadSummary | internal/backup/attributes.go:147-207 | parseSummary's loop |
| AttributeLists.ReadAttributes | internal/backup/attributes.go:240-301 | parseAttributes' loop |
| SaveSetStream.DataIntact | internal/backup/writer.go:292-316 | a block ended and sealed is intact |
| SaveSetStream.RebuildRestores | internal/backup/reader.go:236-291 | the exclusive or of a redundancy block and the others of its group, restamped, is the missing block byte for byte |
| Groups.BlocksInSlots | internal/backup/writer.go:292-335 | the data blocks among those written are those queued, in order |
| Groups.GroupOf | internal/backup/writer.go:308-316 | every data block's group ends in its redundancy block, a short last group too |
| Groups.ParityOfGroup | internal/backup/writer.go:308-335 | which is made of the group's exclusive or |
| Packing.PutKeeps | internal/backup/writer.go:202-228 | put adds the record to the save set's, in this block or the next, with room left for the null record |
| Packing.PackSound | internal/backup/writer.go:125-155 | after any calls that fit, the blocks' records are the summary and every file whole and in order, and each file is done once, no earlier than its last record's block |
| Packing.PackFails | internal/backup/writer.go:202-212 | the writer fails exactly when a record fits no block |
| SaveSetWriter.SealBlock | internal/backup/writer.go:279-288 | seal in place |
| SaveSetWriter.Writer.Put | internal/backup/writer.go:202-228 | put in place |
| SaveSetWriter.Writer.Add | internal/backup/writer.go:125-155 | Add in place, its data split at 512-byte blocks |
| SaveSetWriter.Writer.StartBlock | internal/backup/writer.go:231-236 | startBlock in place |
| SaveSetWriter.Writer.EndCurrent | internal/backup/writer.go:292-316 | endBlock in place; the redundancy block so far is always the exclusive or of the group's blocks |
| SaveSetWriter.Writer.EndGroup | internal/backup/writer.go:320-335 | endGroup in place |
| SaveSetWriter.Writer.QueueBlock | internal/backup/writer.go:339-342 | at most Buffers blocks are held after each |
| SaveSetWriter.Writer.Flush | internal/backup/writer.go:346-361 | blocks are written oldest first, and the files a block finishes reported just then |
| SaveSetWriter.Writer.Close | internal/backup/writer.go:170-182 | Close in place: nothing is left held, and once a record was too large just the blocks are written that the buffers then no longer held |
| SaveSetWriter.Writer.EndBlock | internal/backup/writer.go:160-166 | EndBlock in place |
| Reporting.Stops | internal/backup/writer.go:209-213 | the first record that fits no block leaves an empty block in which its file counts as done |
| Reporting.Failed | internal/backup/writer.go:346-361 | a failed writer has written what its buffers no longer held at the failing call, and reports every file up to and with the one that failed |
| Reporting.MisfitNotHeld | internal/backup/writer.go:209-213 | no blocks at all hold a file whose attributes fit none |
| Reporting.AllHeld | internal/backup/writer.go:125-155 | where every record fits, each file is whole in the save set |
| Saving.Save | internal/backup/writer.go:106-182 | the whole writer, after any calls: what it refuses, when it fails, exactly what is then written and reported, and where the summary fits, that every file reported is in the output if and only if every record fits a block |
| Saving.ReportedUnsaved | internal/backup/writer.go:346-361 | a file with a 2000-byte access control list in 2048-byte blocks: reported saved, and nothing written |
| Saving.AllDone | internal/backup/writer.go:346-361 | the files the blocks finish are the files added, once each, in order |
| Recovery.GroupSizeRight | internal/backup/reader.go:216-232 | the group size repair works with is right whenever block 1 is good or can be rebuilt |
| Recovery.RebuildAlone | internal/backup/reader.go:236-291 | a data block alone damaged in its group is rebuilt as it was |
| Recovery.RepairExact | internal/backup/reader.go:186-211 | repair restores byte for byte each damaged data block alone in its group, and gives up exactly the others |
| Restoring.DecodeExact | internal/backup/reader.go:296-363 | whatever blocks but the first are lost, decode gives exactly the files whose attributes are left, in order, each with exactly its own data records that are left, if no name is confused |
| Confusion.DecodesExactly | internal/backup/reader.go:313-316 | decode gives exactly what is left if and only if no kept data block after a lost one leads with data of a file whose name, cut for the header, is the name of the file being read when that is another, or is not when it is the same |
| Confusion.NothingConfused | internal/backup/reader.go:313-316 | no name is confused where nothing is lost, or where names are distinct and fit a header |
| Confusion.EqualNamesConfuse | internal/backup/reader.go:313-316 | two files of one name, the second's first block lost: its data in the next block is taken for the first's |
| Confusion.LongNameConfuses | internal/backup/reader.go:313-316 | a name of more than 127 bytes, and a block of its data lost: its data in the next block is taken for another's |
| NamesMixed.MixedRead | internal/backup/reader.go:313-316 | of two files named A, saved in 2048-byte blocks, Read with the second block damaged in any way a check shows gives just the first, with a run of the second's |
| NamesMixed.LongRead | internal/backup/reader.go:313-316 | of a file with a name of 128 bytes, Read with the second block so damaged leaves out its sixth virtual block, which is in a block that is not lost |
| NamesMixed.Spoiled | internal/backup/block.go:156-165 | inverting the first byte of the second of any three blocks written is such damage |
| FileData.Data | internal/backup/reader.go:80-96 | File.Data's loops: the runs laid over zeros |
| FileData.Missing | internal/backup/reader.go:101-130 | File.Missing's loops: exactly the used blocks in no run, as sorted ranges that are disjoint and cannot be joined |
| SaveSets.WrittenSound | internal/backup/writer.go:125-182 | what the writer wrote is a save set of the files |
| SaveSets.FirstBlockSays | internal/backup/reader.go:216-223 | block 1's summary says the group size |
| SaveSets.ReadDamagedExactly | internal/backup/reader.go:137-168 | for any damage the checks show: refused if block 1 is beyond repair; and otherwise the summary and exactly the files and data not lost, lost being exactly the data blocks damaged with another of their group, if and only if no name is confused |
| SaveSets.ReadDamaged | internal/backup/reader.go:137-168 | reading a damaged save set is exact where nothing is lost, or where names are distinct and fit a block header |
| SaveSets.WrittenGiven | internal/backup/reader.go:137-152 | and everything the writer writes meets that theorem's conditions |
| SaveSets.RoundTrip | internal/backup/reader.go:137-168 | reading what was written gives the summary, every file in order, and nothing recovered or lost, for every block size, group size and CRC choice |
| SaveSets.BlockLeft | internal/backup/reader.go:101-130 | a virtual block is in a file's runs exactly when a record holding it is in a block not lost |
| SaveSets.DataLeft | internal/backup/reader.go:80-96 | the data of a file that is left is its own wherever such a block is left, and zeros elsewhere |
| SaveSets.DataWhole | internal/backup/reader.go:80-96 | read whole, every file's data is its own, padded, and nothing it had is missing |
| SaveSets.EndToEnd | internal/backup/reader.go:80-130 | from Add's calls through the writer, Read and File's methods: Data gives each file's own data, padded, and Missing just the used blocks beyond it |
| Salvage.FromDamage | internal/backup/reader.go:80-168 | from Add's calls, for any damage the checks show, where no name is confused: the files read are exactly those whose attributes were received or rebuilt; of each, Missing gives exactly the used virtual blocks of which no record was, and Data its own bytes wherever one was and zeros elsewhere, to the last block used or received |
| SaveSetReader.Reader.Rebuild | internal/backup/reader.go:236-291 | rebuild in place refines the specification's |
| SaveSetReader.Reader.RepairBlocks | internal/backup/reader.go:186-211 | repair in place |
| SaveSetReader.Reader.DecodeRecord | internal/backup/reader.go:318-358 | one record's part in decode |
| SaveSetReader.Reader.DecodeBlocks | internal/backup/reader.go:296-363 | decode in place |
| SaveSetReader.ReadImage | internal/backup/reader.go:137-168 | Read equals the specification on every image |
| Processor.SwitchKeepsStacks | internal/corevms/ast.go:349-360 | changing mode moves no stack's pointer |
| Asts.DeliverableIs | internal/corevms/ast.go:271-297 | the AST due is of the most privileged mode with one that may run, the oldest of that mode; none is due only when none may run |
| Asts.DisabledHoldsBack | internal/corevms/ast.go:271-297 | ASTs disabled in a mode hold back that mode's and every less privileged mode's |
| Asts.FailureRestores | internal/corevms/ast.go:308-342 | a frame that cannot be pushed leaves every register, mode and stack pointer as it was |
| Asts.NeverRaises | internal/corevms/ast.go:406-419 | whatever the frame holds, the exit makes the mode no more privileged and never enters the interrupt stack |
| Asts.ExitTakes | internal/corevms/ast.go:406-419 | PRV_MOD and IPL are the frame's, and the mode is the less privileged of the frame's and the AST's |
| Asts.PrvModExactly | internal/corevms/ast.go:406-419 | PRV_MOD ends more privileged than the mode if and only if the frame's is than its own mode or the AST's, and more privileged than before if and only if the frame's is |
| Asts.ForgedFrame | internal/corevms/ast.go:380-424 | a user mode AST returns in user mode with PRV_MOD kernel |
| Interrupts.EventKeeps | internal/corevms/ast.go:236-424 | every event keeps the invariant: the frames and calls on the stack of contexts are those in memory and in the lists, each AST in a more privileged mode than what it interrupted |
| Interrupts.RunKeeps | internal/corevms/ast.go:236-424 | so it holds after every run |
| Interrupts.NoDelivery | internal/corevms/ast.go:308-342 | a delivery that fails changes no register, mode or stack |
| Interrupts.ExitRestores | internal/corevms/ast.go:380-424 | an exit restores R0, R1, PC, the whole PSL and every stack pointer of its own delivery |
| Interrupts.ReturnRestores | internal/corevms/cmode.go:98-115 | a change-mode return restores the mode, PRV_MOD and every stack pointer of its own call |
| Interrupts.Idle | internal/corevms/ast.go:195-197 | a process with no AST running and no change-mode call open satisfies the invariant, so every run from one keeps it |
| Interrupts.ExitsAtOnce | internal/corevms/ast.go:308-342 | every AST delivered leaves the frame its exit looks for |
| Interrupts.CallReturnsAtOnce | internal/corevms/cmode.go:128-149 | every change-mode call is recognized when its routine returns |
| Interrupts.BelowKept | internal/corevms/ast.go:236-424 | a run that stays above a depth leaves the contexts below it alone |
| Interrupts.AtMostFour | internal/corevms/ast.go:271-297 | ASTs nest in strictly more privileged modes, so at most four run at once |
| Interrupts.Transparent | internal/corevms/ast.go:236-424 | however deliveries, exits and change-mode calls nest inside it, an AST returns with R0, R1, PC, PSL, SP and all four stack pointers as at its delivery |
| Interrupts.Balanced | internal/corevms/cmode.go:93-150 | and so does a change-mode call: each return pops its own call, and puts back mode, PRV_MOD and every stack pointer |
| ProcessEnvironment.Environment.SwitchTo | internal/corevms/ast.go:349-360 | switchMode in place |
| ProcessEnvironment.Environment.EnterAstMode | internal/corevms/ast.go:308-342 | enterASTMode in place, undone at whichever store faults |
| ProcessEnvironment.Environment.FindAst | internal/corevms/ast.go:271-297 | deliverableAST's loops |
| ProcessEnvironment.Environment.NextDue | internal/corevms/ast.go:236-263 | NextAST in place |
| ProcessEnvironment.Environment.ClearAst | internal/corevms/ast.go:380-424 | serviceSysClrast in place |
| ProcessEnvironment.Environment.Change | internal/corevms/cmode.go:93-150 | changeMode in place |
| ProcessEnvironment.Environment.Enqueue | internal/corevms/ast.go:203-206 | queueAST in place |
| ProcessEnvironment.Environment.Enable | internal/corevms/ast.go:458-470 | SYS$SETAST in place |
| ProcessEnvironment.Environment.DeliverDue | internal/cpu/ast.go:88-105 | a delivery in place |
| ProcessEnvironment.Environment.RunEvents | internal/corevms/ast.go:236-424 | a whole run in place, event after event, leaves the specification's state |
| ProcessEnvironment.Environment.Interrupt | internal/corevms/ast.go:236-424 | in place: an AST delivered, whatever its routine is interrupted by, and its exit, leave R0, R1, PC, PSL and all four stack pointers as they were |

## Left out

Deliberately weaker than the code:

- FinalImage.ReplayIsFaithful: assumes that the link reports no error, and that the module's psects share no byte and end below the top of the address space; a statement stores no byte twice as data, no store runs past 2^32, and a count is patched only where the location has passed. A value reported as out of range is stored truncated all the same.
- FinalImage.LinkedFieldMeans: the expression, and the definitions it was read and finished with, are given; SourceImage.LinkedSource finds them for every source.
- SourceImage.LinkedSource: takes parsed statements, and sources in which no symbol is defined twice; local labels, psect attributes and alignment, `.ENABLE ABSOLUTE`, quadword and floating data, .MASK, .TRANSFER and G^ operands are not among them. The order in which the last fixups are finished may be any. A stray fixup's byte (StrayFixups.StrayExactly) and a dropped one's (Dropping.GivenUpExactly) are what was first stored.
- FinalImage.RelocationsWrittenOnce: the relocations of .TRANSFER vectors and general mode (STO_PICR) are not among the kinds, and stray fixups (StrayFixups.StrayExactly) are outside the record.
- Passes.OnePassIsTwoPass: one absolute section of the console dialect, in which each symbol is defined once and no store runs past 2^32; .ADDRESS and G^ fields, which always go to the linker, are not stores of the model, and a known branch's range is not checked, as it is not in the code.
- AssemblerState.AssembleSource: takes parsed statements; which error is reported is not modelled, only that there is one.
- Operands.RelativeShortest: shortest among displacement operands; other addressing modes that reach the target are not compared.
- SaveSets.ReadDamagedExactly: block 1 must still say what the file is (size, subsystem and block size), and each damaged block keep its application word, since the code trusts both.
- SaveSets.EndToEnd: files of fewer than 2^32 - 1 virtual blocks, where the counting wraps.
- Salvage.FromDamage: as SaveSets.ReadDamagedExactly and SaveSets.EndToEnd; and of a save set in which no name is confused (Confusion.DecodesExactly).
- FileData.Missing: runs whose block numbers and counts do not wrap at 2^32.
- Interrupts.Transparent: routines are steps that leave frames, outer stacks and saved stack pointers alone; the instructions they run are not modelled. A delivery's new frame is assumed clear of the frames already there (`Interrupts.RoomFor`), as stacks that do not overlap give.
- Interrupts.Balanced: the stub frames of nested calls are distinct, and new frames are clear of existing ones, as for Transparent.
- LineTable.TableReadsBack: lines are numbered from 1, below 2^32.

Not modelled:

- Source text: preprocessing, quoting, macros, repeat blocks, floating point, the instruction table, listings and error texts. Statements arrive parsed.
- .CASE offsets (fixCaseW) in the MACRO dialect's record, which only the console's .CASE block makes.
- .IIF, .TRANSFER, .MASK and G^ operands; of .ENTRY's symbol record, its name, location and mask only.
- Packing commands, psect definitions and line-table commands into object records (`obj.Builder`, `obj.LineTable`), and merging stored bytes into runs: the model has the commands themselves, a byte at a time.
- Fixups are numbers into a sequence and lists are of numbers, where the code has pointers; no fixup is shared between two numbers.
- The list of fixups waiting for the end of their statement: in the record of the output a fixup with nothing pending is completed by an operation of its own (`MacroRun` has the list).
- Writing to and reading from files: the output is the sequence of blocks written, and write errors are left out; dates and versions.
- The data CRC is a function of the cleared block, computed a bit at a time; nothing is proved of what it detects.
- Block numbers are modulo 2^32, and the reader's current file is "the last file is still being read" where the code has a pointer.
- Address-space growth, page faults beyond the store that faults, timers, image rundown, attention waits, and the stub code itself (its presence is a parameter).
