# Cubic Server: a verified model

Cubic Server is a Minecraft 1.19.3 server in C++. This project models its algorithmic core in Dafny and proves
what that core is for. `dafny verify dfyconfig.toml` checks everything.

* **Block storage.** `Words`, `DynamicStorage`, `Palette`, `Sections`, `Columns`, `World`. Block ids are kept as
  bit fields inside 64-bit words, through a palette that grows per section; the fields are re-packed when their
  width changes. Machine words are vectors of bits with the C++ operators defined bit by bit, for any word size and
  entry width. The classes are proved to be a plain map from world positions to block ids. Light arrays use the
  same storage with 8-bit words.
* **Generation stages.** `Generation` runs the stages on the column class, for arbitrary noise (`Terrain`);
  `Trees` grows the oaks of the decoration stage, and `WorldGeneration` fits the chunks together.
* **Named Binary Tags.** `BigEndian`, `NbtTags` (tags and byte format), `NbtGrammar` (what the parsers accept),
  `NbtReader` and `NbtWriter` (the parsers with their cursor and the printers with their vector), `NbtRoundTrip`
  and `NbtCanonical` (the laws), `NbtFormat` (the format in numbers). The six scalar classes and the three array classes are one constructor each.
* **Chunk requests.** `ThreadPool` is the priority pool as a transition system with one step for each critical
  section, and `Requests` adds the loading chunks and their players. The classes in both are proved to perform
  those steps. `Requests` keeps a log of what happened, so that who waits for a chunk is a function of history.
  `StrandedJobs` says what a permit of the pool is worth, `Delivery` that nobody waits in vain, and `Unloading` that
  what nobody wants is not generated.
* **View window.** `ViewWindow` is the square of chunks around a player and the eight loops that move it.
* **Block states.** `BlockStates` is the mixed-radix numbering of blocks with properties, with a decoder that may have
  no result; `BlockWeights` says exactly for which blocks of a file the numbering is a bijection, and `FilePalette` what
  the palette says in terms of the file.
* **Smaller cores.** `Checksum` (signed hexadecimal digest), `Slots` (item swaps), `Food` (food state machine).

Assumptions that are part of the model: each semaphore call is one atomic step (`release` in Semaphore.hpp:53-57
does not take the mutex that the clamp at Semaphore.hpp:59-67 holds); job priorities are read as one snapshot during
a scan; generation leaves its chunk ready (`Requests.FailedGenerationStrands` shows that this is needed); in the
request invariants the pool is neither stopped nor emptied by `cancelAll`; arithmetic on floats is exact; noise is at
most 1, which bounds the height of a tree.

Where the code does something else than its names and comments suggest, the model follows the code:

* The range checks of a section compare all coordinates at once (types.hpp:142-146), so most outside positions pass
  them; `Sections.OutsideWriteIff` says exactly which writes are let through, and `Sections.OutsideWriteChanges`
  what they change. A section that only ever held one block lets a write of that block through at any index and
  does nothing.
* The section index of a height is cut to 8 bits, so heights 4096 blocks apart share a cell (`Columns.HeightsAlias`).
* On a move whose x and z displacements have opposite signs, the loops at Player.cpp:1112-1115 and 1122-1125 send a
  corner twice and another corner that is outside the new square (`ViewWindow.SendsExactIffAligned`).
* An array of ints or longs with a negative length parses as an empty array, which prints differently
  (`NbtCanonical.PrintsBackIffNoNegativeLength`, with an input in `NbtCanonical.NegativeLengthFails`).
* A light level above 15 is refused only after the counter has moved (`Sections.Section.SetSkyLight`).
* A slot swapped with itself loses items, except as `Slots.SelfSwapConservesIff` and `Slots.SelfMoveConservesIff` say;
  with `Slots.RunConservesIff` that is the only way items get lost.
* A property weight above 255 is cut by its 8-bit field. A block with such a property has ids without a decoding and
  states that do not come back (`BlockWeights.ReadPaletteIsBijectiveIff`); redstone wire has this shape
  (`BlockWeights.WireIsCut`, `BlockWeights.WireAloneFails`). The other blocks of the palette are not affected.
* A job without functions gets no permit (`StrandedJobs.NeverStrandedIff`, `StrandedJobs.EmptyJobNeverStarts`).
* A zero digest prints as no text (`Checksum.DigestToProtocol`).

## Model

| member | source | states |
|---|---|---|
| `DynamicStorage.FieldAfterWrite` | cubic-server/world_storage/DynamicStorage.hpp:110-130 | a value masked into a word at an offset is read back from there, for every word size, offset and width that fit |
| `DynamicStorage.OtherFieldAfterWrite` | cubic-server/world_storage/DynamicStorage.hpp:110-114 | every field apart from the written one, in the same word, is read as before |
| `DynamicStorage.EntryPlaces` | cubic-server/world_storage/DynamicStorage.hpp:108-109 | entries never span words, and two entries of one word never overlap |
| `DynamicStorage.EntryInNumbers` | cubic-server/world_storage/DynamicStorage.hpp:119-131 | entry idx is word idx / n divided by 2^((idx mod n) * width), modulo 2^width, for n entries of that width in a word: the least index in the least bits |
| `DynamicStorage.Storage.constructor` | cubic-server/world_storage/DynamicStorage.hpp:59-68 | a new storage of any width that fits stands for all zeros |
| `DynamicStorage.Storage.Get` | cubic-server/world_storage/DynamicStorage.hpp:119-131 | reads the represented array; throws for width 0 and for an index out of range, and only then |
| `DynamicStorage.Storage.Set` | cubic-server/world_storage/DynamicStorage.hpp:99-115 | a write is a point update of the represented array; a refused one changes nothing; both exceptions and the silent width 0 are exact |
| `DynamicStorage.Storage.SetValueSize` | cubic-server/world_storage/DynamicStorage.hpp:72-95 | re-packing to any width keeps every entry, unless some entry does not fit, in which case it throws and changes nothing; width 0 clears |
| `Palette.BitsNeededIsCeilLog2` | cubic-server/world_storage/Palette.hpp:14 | bitsNeeded is the ceiling of the base-2 logarithm |
| `Palette.BlockBitsFit` | cubic-server/world_storage/Palette.hpp:61-76 | the width holds every palette index if and only if the palette has at most 32768 ids |
| `Palette.BlockBitsInNumbers` | cubic-server/world_storage/Palette.hpp:61-76 | no bits for one id, 4 up to 16 ids, 5, 6, 7 and 8 up to 32, 64, 128 and 256, then 15 |
| `Palette.DistinctBounded` | cubic-server/world_storage/Palette.cpp:24-43 | pigeonhole: a palette of different ids below n has at most n of them |
| `Palette.Extended` | cubic-server/world_storage/Palette.cpp:24-43 | adding an id keeps the palette as a prefix, keeps its ids different and makes the id present |
| `Palette.BlockPalette.Add` | cubic-server/world_storage/Palette.cpp:24-43 | the palette after an add is the extended one |
| `Palette.BlockPalette.GetId` | cubic-server/world_storage/Palette.hpp:22-28 | a present id is found at an index that holds it |
| `Sections.CellsAndPositions` | cubic-server/world_storage/Section.hpp:34 | each cell of a section belongs to exactly one inside position, given by quotients and remainders |
| `Sections.OutsideWriteIff` | cubic-server/world_storage/Section.cpp:39-55 | for every palette, block and outside position: a write is let through if and only if its coordinates are mixed and either the section only ever held that block, or the index is that of an inside position and the block has a local id below 32768 |
| `Sections.OutsideWriteChanges` | cubic-server/world_storage/Section.cpp:39-55 | an outside write changes a cell if and only if it is let through, shares the index of an inside position and another block is there; then it changes that position only |
| `Sections.OutsideWrites` | cubic-server/world_storage/DynamicStorage.hpp:99-107 | one outside write that changes another position, one that passes and does nothing, one that passes the guard and throws |
| `Sections.NamedUpdate` | cubic-server/world_storage/Section.cpp:53 | storing the local id of a block in one entry changes that block and no other |
| `Sections.ContentsFit` | cubic-server/world_storage/Section.cpp:46-51 | every stored local id fits the width of the grown palette |
| `Sections.Section.constructor` | cubic-server/world_storage/Section.cpp:7-17 | a new section is all air and unlit, with counters to match |
| `Sections.Section.SetBlock` | cubic-server/world_storage/Section.cpp:39-55 | changes the one cell and no other, or throws and changes no cell, exactly as stated, palette included; with ids below 32768 an inside write never throws |
| `Sections.Section.Register` | cubic-server/world_storage/Section.cpp:46-51 | growing the palette and re-packing leave every block as it was |
| `Sections.Section.GetBlock` | cubic-server/world_storage/Section.cpp:153-160 | returns the block of the cell for every inside position, with the exact exceptions outside |
| `Sections.WriteAll` | cubic-server/world_storage/Section.cpp:39-55 | after any sequence of writes no call has thrown and every cell holds the last id written to it |
| `Sections.RecountedIsLit` | cubic-server/world_storage/Section.cpp:86-95 | the incremental counter update keeps the counter equal to the number of lit cells |
| `Sections.Section.SetSkyLight` | cubic-server/world_storage/Section.cpp:86-95 | level, counter and exception for every position and level; the counter stays right if and only if the level is stored, the index is out of range or the cell was lit before |
| `Sections.Section.SetBlockLight` | cubic-server/world_storage/Section.cpp:111-118 | the same for block light, with its own range check and its own exact condition |
| `Sections.LowNibbleTest` | cubic-server/world_storage/Section.cpp:101 | the test on the low half of a byte tells whether its first entry is lit |
| `Sections.HighNibbleTest` | cubic-server/world_storage/Section.cpp:101 | the test on the high half of a byte tells whether its second entry is lit |
| `Sections.RecountLight` | cubic-server/world_storage/Section.cpp:97-103 | the byte-wise recount computes the number of lit cells |
| `Sections.Section.RecalculateSkyLightCount` | cubic-server/world_storage/Section.cpp:97-103 | afterwards the sky counter is the number of lit cells |
| `Sections.Section.RecalculateBlockLightCount` | cubic-server/world_storage/Section.cpp:120-126 | afterwards the block light counter is the number of lit cells |
| `Sections.Section.RecalculateSkyLight` | cubic-server/world_storage/Section.cpp:128-138 | afterwards all 4096 levels are 15 and the counter is 4096 |
| `Sections.LightAll` | cubic-server/world_storage/Section.cpp:86-126 | after any sequence of light updates with levels 0 to 15, refused ones included, both counters are the numbers of lit cells, and no block has changed |
| `Columns.CellsDistinct` | cubic-server/world_storage/ChunkColumn.cpp:98 | no two positions of a column, or of the layers on top of it, share a section and a cell |
| `Columns.CellInNumbers` | cubic-server/world_storage/ChunkColumn.hpp:29 | the column is y = -64 to 319; a position is in section (y + 80) / 16, at x + 16 * z + 256 * ((y + 64) mod 16) |
| `Columns.HeightsAlias` | cubic-server/world_storage/ChunkColumn.hpp:29 | above the floor two positions share a cell if and only if they agree in x and z and their heights differ by a multiple of 4096 |
| `Columns.ChunkColumn.UpdateBlock` | cubic-server/world_storage/ChunkColumn.cpp:79-100 | for any position and id, whether a write throws; in the column one that does not is a point update of its map, and one with a protocol id does not throw; elsewhere a write changes just the position whose cell it addresses |
| `Columns.ChunkColumn.GetBlock` | cubic-server/world_storage/ChunkColumn.cpp:102 | reads the map; outside the column the value or exception of the section it addresses |
| `World.CoordinatesAreFloorAndMod` | cubic-server/world_storage/Level.hpp:13-14 | the truncating formulas are floor(x/16), x mod 16 and floor(x/32) on both sides of zero |
| `World.PositionsDistinct` | cubic-server/Dimension.cpp:277-290 | no two addressable world positions share a chunk and a local position |
| `World.ChunkOfIsFloor` | cubic-server/Dimension.cpp:277-290 | a position belongs to chunk (floor(x/16), floor(z/16)), at the remainders of x and z |
| `World.Level.AddChunkColumn` | cubic-server/world_storage/Level.cpp:18-23 | a new column adds air; a position that has a column keeps it; the rest of the world is unchanged |
| `World.Level.UpdateBlock` | cubic-server/Dimension.cpp:277-290 | for any position and id, whether a block update throws; at a height of the world one that does not is a point update of one world-wide map, at the coordinates cut to 32 bits; at another height it changes just the position whose cell it addresses; without a column it throws and changes nothing |
| `World.UpdateAll` | cubic-server/Dimension.cpp:277-290 | any sequence of updates in loaded chunks succeeds and turns the world into the replayed map |
| `World.ReplayIsLastWrite` | cubic-server/Dimension.cpp:277-290 | the replayed map holds at every position the last id written there, or the old one |
| `Generation.GrassKeepsFloorIff` | cubic-server/world_storage/ChunkColumn.cpp:479-510 | the grass stage alone keeps the bedrock floor if and only if no column of blocks has its first stone, unflooded, within two blocks of the floor |
| `Generation.LakesCoverFloor` | cubic-server/world_storage/ChunkColumn.cpp:460-477 | after the lake stage there is no such column of blocks |
| `Generation.LakesInNumbers` | cubic-server/world_storage/ChunkColumn.cpp:460-477 | in each column of blocks, water from 86 down to the highest stone from 1 to 86, or to 1; nothing else changes |
| `Generation.SurfaceInNumbers` | cubic-server/world_storage/ChunkColumn.cpp:479-510 | at the highest stone up to 318 sand if water lies above, otherwise grass with dirt in the two blocks below; nothing else changes |
| `Generation.BedrockFloorSurvives` | cubic-server/world_storage/ChunkColumn.cpp:460-510 | lakes and grass keep a floor of bedrock under anything |
| `Generation.StagesKeepInvariant` | cubic-server/world_storage/ChunkColumn.cpp:242-289 | what each stage relies on is established by the stages before it, for every start and goal and whatever trees grow |
| `Generation.GeneratedColumnsHaveFloor` | cubic-server/world_storage/ChunkColumn.cpp:425-559 | for every generator, every growth of trees and every goal after the first state, a new column ends with bedrock at y = -64 |
| `Generation.GenerateRawGeneration` | cubic-server/world_storage/ChunkColumn.cpp:425-447 | every block is the generator's at its world position, except bedrock at the bottom |
| `WorldGeneration.RawIsTheGeneratorsWorld` | cubic-server/world_storage/ChunkColumn.cpp:432-434 | in the column of the chunk of any world position, raw generation puts the generator's block for that position at its local position: neighbouring chunks fit together |
| `Generation.FloodOne` | cubic-server/world_storage/ChunkColumn.cpp:469-473 | one column of blocks is water from 86 down to its first stone or to 1, and other columns are untouched |
| `Generation.GenerateLakes` | cubic-server/world_storage/ChunkColumn.cpp:460-477 | the stage is the pointwise flooding of the whole column |
| `Generation.GrassOne` | cubic-server/world_storage/ChunkColumn.cpp:485-506 | one column of blocks gets sand, or grass over dirt, at its first stone, by whether water lies above it |
| `Generation.GenerateLocalModifications` | cubic-server/world_storage/ChunkColumn.cpp:479-510 | the stage is the pointwise surface of the whole column |
| `Trees.GetTree` | cubic-server/generation/features/tree/oak.cpp:83-120 | the loops list exactly the trunk, the two wide layers and the two crosses of a tree of any size, with 1 + size, 24, 24, 4 and 5 blocks from size 2 on |
| `Trees.PlannedOnTop` | cubic-server/generation/features/tree/oak.cpp:15-38 | with y the highest block up to 315 that is not air, a tree is planned in this column of blocks exactly at y + 1, if that block is grass or dirt and the noise wants a tree |
| `Trees.SpaceInNumbers` | cubic-server/generation/features/tree/oak.cpp:40-62 | a tree with space stands at x and z from 2 to 13, lies whole in the chunk, and has no log within two blocks |
| `Trees.OakTree.GetPosForTreeGeneration` | cubic-server/generation/features/tree/oak.cpp:15-38 | finds exactly the positions on grass or dirt with only air above, up to y = 315, where the noise wants a tree |
| `Trees.OakTree.FilterTreeGrowSpace` | cubic-server/generation/features/tree/oak.cpp:40-62 | keeps exactly the positions with air for the trunk, two blocks of distance to the border and no log around |
| `Trees.OakTree.GenerateTree` | cubic-server/generation/features/tree/oak.cpp:64-81 | every block of the tree that lies in the column replaces what is there, unless that is a log; nothing else changes |
| `Trees.GrowTrees` | cubic-server/world_storage/ChunkColumn.cpp:548-559 | trees grow one after the other, each where it was planned before the stage and has space when its turn comes, and the chunk is what they make of it; afterwards no planned position has space for a tree with a trunk; what changed was no log |
| `Trees.GrownOnlyFills` | cubic-server/generation/features/tree/oak.cpp:64-81 | a tree never brings back air and never removes a log |
| `Trees.GrownAllIsDecorated` | cubic-server/world_storage/ChunkColumn.cpp:548-559 | after any planned trees, what differs is a block of one of them and was no log |
| `Trees.DecoratedKeepsFloor` | cubic-server/world_storage/ChunkColumn.cpp:548-559 | trees leave a floor of bedrock as it is |
| `Generation.RunStage` | cubic-server/world_storage/ChunkColumn.cpp:247-287 | one turn of the loop runs the stage of the current state and moves on by one state |
| `Generation.GenerateOverworld` | cubic-server/world_storage/ChunkColumn.cpp:242-289 | generation ends at the goal, with all stages in between, the tree stage included, run once and in order, and from a new column with a bedrock floor |
| `NbtGrammar.ReadName` | cubic-server/nbt.cpp:6-24 | a name that is read ends inside the buffer |
| `NbtGrammar.Parse` | cubic-server/nbt.cpp:421-455 | parsing terminates on every buffer, and a success has the announced type and consumes at least one byte and no byte past the end |
| `NbtReader.Reader.ReadSigned` | cubic-server/nbt.cpp:96-98 | the shift-and-or loops read a two's-complement big-endian number and advance by its width |
| `NbtReader.Reader.ReadBits` | cubic-server/nbt.cpp:148-149 | the float loops read the bit pattern |
| `NbtReader.Reader.ParseName` | cubic-server/nbt.cpp:6-24 | agrees with the grammar; reads only inside the buffer |
| `NbtReader.Reader.ParseScalar` | cubic-server/nbt.cpp:36-180 | the six scalar parsers agree with the grammar and keep the cursor between its start and the end of the buffer |
| `NbtReader.Reader.ParseArray` | cubic-server/nbt.cpp:182-213 | the three array parsers agree with the grammar, for negative lengths too |
| `NbtReader.Reader.ReadArray` | cubic-server/nbt.cpp:376-382 | the element loops read all elements in order |
| `NbtReader.Reader.ParseString` | cubic-server/nbt.cpp:215-244 | agrees with the grammar |
| `NbtReader.Reader.ParseList` | cubic-server/nbt.cpp:246-321 | agrees with the grammar, terminates, and never moves the cursor back or past the end, even on failure |
| `NbtReader.Reader.ParseCompound` | cubic-server/nbt.cpp:323-351 | the same for compounds |
| `NbtReader.Reader.Parse` | cubic-server/nbt.cpp:421-455 | the same for any tag |
| `NbtWriter.Writer.PushBytes` | cubic-server/nbt.hpp:104-105 | the shift-and-mask loops append the low bytes of a number, most significant first |
| `NbtWriter.Writer.PreSerialize` | cubic-server/nbt.hpp:61-73 | appends type and name when a name is wanted |
| `NbtWriter.Writer.Serialize` | cubic-server/nbt.hpp:272-286 | appends exactly the tag's bytes, and throws if and only if some list in it has elements of different types |
| `NbtWriter.Writer.SerializeItems` | cubic-server/nbt.hpp:593-608 | the element loop throws if and only if two elements differ in type or an element throws |
| `NbtFormat.TypeBytes` | cubic-server/nbt.hpp:19-33 | a printed tag begins with the byte 1 to 12 of its class |
| `NbtFormat.TypeOfParsed` | cubic-server/nbt.cpp:421-455 | what is parsed is of the class that the first byte announces |
| `NbtFormat.HeaderBytes` | cubic-server/nbt.hpp:61-73 | type byte, length of the name in two bytes, name, payload |
| `NbtFormat.PayloadLengths` | cubic-server/nbt.hpp:75-620 | scalars take 1, 2, 4, 8, 4 and 8 bytes, array elements 1, 4 and 8 after a length of 4, strings follow a length of 2, lists a type and a length of 4, and compounds end with 0 |
| `NbtFormat.EmptyCompoundInBytes` | cubic-server/nbt.cpp:323-351 | 10, 0, 0, 0 is the empty compound |
| `NbtFormat.CompoundInBytes` | cubic-server/nbt.cpp:323-351 | eleven bytes that are a named compound with a named byte of -1 |
| `NbtFormat.ListInBytes` | cubic-server/nbt.cpp:246-321 | twelve bytes that are a list of the shorts 258 and -2 |
| `NbtFormat.TextInBytes` | cubic-server/nbt.cpp:215-244 | seven bytes that are a string |
| `NbtFormat.ArrayInBytes` | cubic-server/nbt.cpp:353-385 | eleven bytes that are an array of one int |
| `NbtRoundTrip.TagRoundTrip` | cubic-server/nbt.cpp:246-455 | a well-formed tag printed anywhere in a buffer, named or as a list element, parses to itself |
| `NbtCanonical.RoundTrip` | cubic-server/nbt.cpp:246-455 | with any bytes before and after, a printed tag parses to itself with the cursor at what follows, if and only if the tag is well formed |
| `NbtCanonical.TagWellFormed` | cubic-server/nbt.cpp:36-455 | whatever a parser returns is well formed |
| `NbtCanonical.Canonical` | cubic-server/nbt.cpp:353-455 | an accepted tag without empty lists prints to as many bytes as were consumed, and to the same bytes if and only if no negative array length was read |
| `NbtCanonical.PrintsBackIffNoNegativeLength` | cubic-server/nbt.cpp:353-455 | it prints back if and only if none of the lengths that are read from the bytes is negative |
| `NbtCanonical.NegativeLengthFails` | cubic-server/nbt.cpp:353-385 | an unnamed array of -1 ints parses as an empty array and prints with length 0 |
| `ThreadPool.Least` | cubic-server/thread_pool/PriorityThreadWorker.cpp:68-71 | the scan picks the first queued job that no queued job undercuts |
| `ThreadPool.LeastIsOldest` | cubic-server/thread_pool/PriorityThreadWorker.cpp:68-71 | of several queued jobs of least priority the scan takes the one that was added first |
| `ThreadPool.StepKeepsConsistent` | cubic-server/thread_pool/PriorityThreadPool.hpp:72-121 | every step keeps ids, history and books in order, whatever the jobs carry |
| `ThreadPool.StepKeepsInv` | cubic-server/thread_pool/PriorityThreadPool.hpp:72-121 | every step keeps all pool invariants, if addJob carries a function |
| `StrandedJobs.NeverStrandedIff` | cubic-server/thread_pool/PriorityThreadPool.hpp:109-121 | over every run, with or without jobs that carry no function: each queued job has a permit in every state if and only if each such job, when it is added, finds more permits than queued jobs |
| `StrandedJobs.AlwaysMatchedIff` | cubic-server/thread_pool/PriorityThreadPool.hpp:72-121 | where every job carries one function, there are exactly as many permits as queued jobs in every state of a run if and only if every cancel finds the permits it takes away |
| `StrandedJobs.PermitFindsJob` | cubic-server/thread_pool/PriorityThreadWorker.cpp:54-77 | then a worker with a permit finds a job |
| `StrandedJobs.StartsSpendPermits` | cubic-server/thread_pool/PriorityThreadWorker.cpp:54-77 | without new jobs, no more jobs are ever started than there are permits |
| `StrandedJobs.StartableIffNotStranded` | cubic-server/thread_pool/PriorityThreadWorker.cpp:54-92 | in every reachable state of a pool with workers, some run without new jobs starts all queued jobs if and only if there are at least as many permits |
| `StrandedJobs.EmptyJobNeverStarts` | cubic-server/thread_pool/PriorityThreadPool.hpp:109-121 | a job without functions in a new pool is started by no run that adds no other job |
| `ThreadPool.ReachablePools` | cubic-server/thread_pool/PriorityThreadWorker.cpp:54-92 | in every reachable state each job is queued, running, finished or cancelled, only one of them, started at most once; ids grow along the queue; the books count the running jobs with the flag true exactly at zero; and if every job carries a function, no queued job is without a permit |
| `ThreadPool.RunKeepsConsistent` | cubic-server/thread_pool/PriorityThreadWorker.cpp:54-92 | over whole runs the pool stays in order and history only grows |
| `ThreadPool.CancelledNeverRuns` | cubic-server/thread_pool/PriorityThreadPool.hpp:81-94 | a job for which cancelJob succeeds has not run and never will, whatever follows |
| `ThreadPool.CancelFailsOnlyTooLate` | cubic-server/thread_pool/PriorityThreadPool.hpp:81-94 | where cancelJob fails nothing changes, and a job that exists has been started or cancelled before |
| `ThreadPool.Semaphore.Increment` | cubic-server/thread_pool/Semaphore.hpp:59-67 | takes permits away, but not below zero |
| `ThreadPool.ReverseSemaphore.Decrement` | cubic-server/thread_pool/Semaphore.hpp:22-30 | keeps the flag true exactly when nothing is booked |
| `ThreadPool.PriorityThreadPool.AddJob` | cubic-server/thread_pool/PriorityThreadPool.hpp:109-121 | appends a job with a fresh id; performs the push step and then its release |
| `ThreadPool.PriorityThreadPool.CancelJob` | cubic-server/thread_pool/PriorityThreadPool.hpp:81-94 | performs the cancel step, and tells whether the job was queued |
| `ThreadPool.PriorityThreadPool.CancelAll` | cubic-server/thread_pool/PriorityThreadPool.hpp:72-79 | performs the step that cancels every queued job |
| `ThreadPool.PriorityThreadPool.LeastPriority` | cubic-server/thread_pool/PriorityThreadWorker.cpp:68-71 | the loop finds the first job of least priority |
| `ThreadPool.PriorityThreadPool.TakeJob` | cubic-server/thread_pool/PriorityThreadWorker.cpp:59-77 | performs the dequeue step: of the jobs of least priority the oldest leaves the queue and is booked |
| `ThreadPool.PriorityThreadPool.FinishJob` | cubic-server/thread_pool/PriorityThreadWorker.cpp:89-91 | performs the completion step |
| `Requests.LoadKeepsJobs` | cubic-server/Dimension.cpp:139-179 | a request joins the loading entry, or makes one together with its job, and entries and live jobs still correspond |
| `Requests.UnloadKeepsJobs` | cubic-server/Dimension.cpp:199-222 | giving up a chunk removes entry and job together, or neither |
| `Unloading.UnloadIsExact` | cubic-server/Dimension.cpp:199-222 | if after an unload nobody that still exists wants the chunk and its job is still queued, the entry is gone and the job cancelled, and nothing else; in every other case entries and jobs stay |
| `Unloading.UnwantedChunkIsNeverGenerated` | cubic-server/Dimension.cpp:199-222 | from every reachable state: such a job is started in no continuation |
| `Requests.SendKeepsJobs` | cubic-server/Dimension.cpp:313-323 | delivery ends the entry and the liveness of its job together |
| `Requests.SubscribersKept` | cubic-server/Dimension.cpp:139-222 | entries list, once each, exactly the players that by history want the chunk and still exist |
| `Requests.ReachableStates` | cubic-server/Dimension.cpp:139-222 | in every reachable state loading entries and live request jobs correspond one to one, no chunk has two live jobs, and all other request invariants hold |
| `Requests.SendIsExact` | cubic-server/Dimension.cpp:313-323 | a send delivers once each to exactly the players that asked since the last delivery, did not take it back and still exist, and its job never sends again |
| `Requests.WaitingIsServed` | cubic-server/Dimension.cpp:139-179 | a waiting player always has a live job, with a permit for it while it is queued |
| `Delivery.WaitingCanBeServed` | cubic-server/Dimension.cpp:139-179 | in every reachable state with workers, each player that waits and still exists gets the chunk in some run in which only the workers act |
| `Requests.FailedGenerationStrands` | cubic-server/Dimension.cpp:166-171 | a job that ends without its send always leaves an entry without a live job |
| `Requests.Dimension.LoadOrGenerateChunk` | cubic-server/Dimension.cpp:139-179 | performs the load step |
| `Requests.Dimension.RemovePlayerFromLoadingChunk` | cubic-server/Dimension.cpp:199-222 | performs the unload step |
| `Requests.Dimension.SendChunkToPlayers` | cubic-server/Dimension.cpp:313-323 | performs the send step and reports whom it reached |
| `ViewWindow.MoveIsDifference` | cubic-server/Player.cpp:1085-1125 | no chunk of the new square is unloaded, none of the old one is sent, all that leave are unloaded and all that enter are sent, for any displacement |
| `ViewWindow.SendsExactIffAligned` | cubic-server/Player.cpp:1106-1125 | every chunk is sent at most once, and only chunks of the new square are sent, if and only if dx and dz do not have opposite signs |
| `ViewWindow.AlignedIsNonNegativeProduct` | cubic-server/Player.cpp:1112-1125 | that condition is dx * dz >= 0 |
| `ViewWindow.RunHoldsSquare` | cubic-server/Player.cpp:1075-1126 | on every run the player holds the full square around the current chunk |
| `ViewWindow.RunIsExactIffAligned` | cubic-server/Player.cpp:1075-1126 | the player holds exactly the square after every move of a run if and only if every move has dx * dz >= 0 |
| `ViewWindow.PlayerView.UnloadChunk` | cubic-server/Player.cpp:1217-1229 | a held chunk is given up once, another one is ignored |
| `ViewWindow.PlayerView.UpdateRenderedChunks` | cubic-server/Player.cpp:1075-1126 | the loops change the held chunks as the set difference says, and send and unload each chunk as often as counted |
| `ViewWindow.PlayerView.SendInitialWindow` | cubic-server/Player.cpp:1169-1179 | login ends with the whole square held, each chunk sent once |
| `BlockStates.IdRoundTrip` | cubic-server/protocol_id_converter/blockStates.cpp:118-137 | id to block to id is the identity on the range of every good block, whatever the other blocks of the palette are |
| `BlockStates.BlockRoundTrip` | cubic-server/protocol_id_converter/blockStates.cpp:74-116 | block to id to block is the identity up to the order of properties for every good block, and the id is in the block's range |
| `BlockStates.OmittedPropertiesAreDefaults` | cubic-server/protocol_id_converter/blockStates.cpp:83-95 | omitted properties give the id that decodes to all given values and to the defaults of the rest |
| `BlockStates.NameGivesDefaults` | cubic-server/protocol_id_converter/blockStates.cpp:57-72 | a known name alone gives the id that decodes to the block with its default properties |
| `BlockStates.UnknownGivesZero` | cubic-server/protocol_id_converter/blockStates.cpp:74-116 | id 0 for an unknown block, property or value |
| `BlockStates.OutsideIsAir` | cubic-server/protocol_id_converter/blockStates.cpp:118-137 | an id outside every range is air |
| `FilePalette.DefaultsFromFile` | cubic-server/protocol_id_converter/blockStates.cpp:41-52 | the stored defaults are the file's, and complete if the file's are |
| `FilePalette.NameGivesFileDefaults` | cubic-server/protocol_id_converter/blockStates.cpp:13-72 | for every block of a sound file without cut weights, the name alone gives an id of the block that decodes to the defaults of the file |
| `FilePalette.OmittedGivesFileDefaults` | cubic-server/protocol_id_converter/blockStates.cpp:83-95 | a property that is left out decodes to the file's default, a given one to its value |
| `FilePalette.StatesAreInOrder` | cubic-server/protocol_id_converter/blockStates.cpp:24-36 | the states of such a block are numbered from its first id in the order of the file, the values of the last property changing fastest |
| `BlockStates.CompletionCompletes` | cubic-server/protocol_id_converter/blockStates.cpp:83-95 | completing by defaults gives every property exactly once |
| `BlockStates.WeightsRightIffTheyFit` | cubic-server/protocol_id_converter/blockStates.hpp:13-17 | the stored weights are the products decoding needs if and only if all of them are below 256 |
| `BlockStates.DecodedSumsUp` | cubic-server/protocol_id_converter/blockStates.cpp:128-133 | an id that decodes at all decodes to complete pairs that sum up to it, cut weights or not |
| `BlockWeights.LastIdDecodesIffWeightsFit` | cubic-server/protocol_id_converter/blockStates.cpp:128-133 | the last id of a block decodes if and only if no weight of it is cut |
| `BlockWeights.IdsRoundTripIffWeightsFit` | cubic-server/protocol_id_converter/blockStates.cpp:118-137 | ids that decode encode back to themselves; all ids of a block decode if and only if no weight of it is cut |
| `BlockWeights.BlocksRoundTripIffWeightsFit` | cubic-server/protocol_id_converter/blockStates.cpp:74-137 | all states of a block come back from their ids if and only if no weight of it is cut |
| `BlockWeights.Collision` | cubic-server/protocol_id_converter/blockStates.cpp:99-114 | with a cut weight of a property that has a choice, two different states have one id |
| `BlockWeights.EncodingInjectiveIffUsedWeightsFit` | cubic-server/protocol_id_converter/blockStates.cpp:74-116 | different states of a block have different ids if and only if every property with a choice has an uncut weight |
| `BlockWeights.ReadPalette` | cubic-server/protocol_id_converter/blockStates.cpp:13-55 | the palette read from a file with different names and separate ranges meets what the round trips demand, and its good blocks are those in which no property is followed by 256 states or more |
| `BlockWeights.ReadPaletteIsBijectiveIff` | cubic-server/protocol_id_converter/blockStates.cpp:13-137 | the three conditions in terms of the file, for every block of every such file |
| `BlockWeights.WireIsCut` | cubic-server/protocol_id_converter/blockStates.cpp:24-36 | a block with 3, 3, 16, 3 and 3 values stores weight 176 for 432, has an id without decoding and two states with one id, in any palette |
| `BlockWeights.WireAloneFails` | cubic-server/protocol_id_converter/blockStates.cpp:13-137 | a file of one such block: id 1295 has no decoding, and two states share an id |
| `BlockStates.GlobalPalette.WeightProperties` | cubic-server/protocol_id_converter/blockStates.cpp:24-36 | the sum-so-far loop computes the products of the sizes, last property first |
| `BlockStates.GlobalPalette.Initialize` | cubic-server/protocol_id_converter/blockStates.cpp:13-55 | the palette is extended by the blocks of the file before the first one without a default state |
| `BlockStates.GlobalPalette.CompleteDefaults` | cubic-server/protocol_id_converter/blockStates.cpp:83-95 | the loop appends the defaults that were not given |
| `BlockStates.GlobalPalette.EncodeBlock` | cubic-server/protocol_id_converter/blockStates.cpp:74-116 | the encoding loop computes the id, and 0 for anything unknown |
| `BlockStates.GlobalPalette.DecodeBlock` | cubic-server/protocol_id_converter/blockStates.cpp:118-137 | the decoding loops find the block and its pairs, or no result where the source divides by 0 or reads past the values |
| `Checksum.Negate` | cubic-server/Checksum.cpp:39-46 | inverting with carry in place is two's-complement negation of any nonzero array, the smallest value included |
| `Checksum.ToHex` | cubic-server/Checksum.cpp:49-51 | the digits denote the unsigned value |
| `Checksum.DigestToProtocol` | cubic-server/Checksum.cpp:31-59 | the text of a nonzero digest has no leading zero and denotes its signed value; zero prints as no text |
| `Checksum.NumeralsDistinguish` | cubic-server/Checksum.cpp:31-59 | digests of one length with the same signed value are the same |
| `Slots.SwapConserves` | cubic-server/protocol/Structures.hpp:30-45 | a full swap keeps the total of every item and counts within 0 to 64 |
| `Slots.MoveConserves` | cubic-server/protocol/Structures.hpp:47-62 | so does a partial swap, and no 8-bit intermediate overflows |
| `Slots.SwapInNumbers` | cubic-server/protocol/Structures.hpp:30-45 | different items change places; two stacks of one item become one of up to 64 and the rest |
| `Slots.MoveInNumbers` | cubic-server/protocol/Structures.hpp:47-62 | as many as asked for go over, or as many as there is room for |
| `Slots.RunConservesIff` | cubic-server/protocol/Structures.hpp:30-62 | over any run of swaps in an inventory of any size, also of a slot with itself: counts stay within 0 to 64, no total grows, and every total is kept if and only if each swap of a slot with itself is harmless where it happens |
| `Slots.RunConserves` | cubic-server/protocol/Structures.hpp:30-62 | over swaps between different slots every total is unchanged |
| `Slots.SelfSwapConservesIff` | cubic-server/protocol/Structures.hpp:30-45 | a full swap of a slot with itself conserves if and only if it holds no item, none of it or 64 |
| `Slots.SelfMoveConservesIff` | cubic-server/protocol/Structures.hpp:47-62 | a partial one does so, besides, when it asks for fewer than there are |
| `Slots.Slot.Swap` | cubic-server/protocol/Structures.hpp:30-45 | performs the full swap, of two slots or of one with itself |
| `Slots.Slot.SwapSome` | cubic-server/protocol/Structures.hpp:47-62 | performs the partial swap, of two slots or of one with itself |
| `Food.TickKeepsOk` | cubic-server/Player.cpp:1231-1275 | a tick keeps food in 0..20, saturation above -1 and at most the food level, exhaustion non-negative and the timer in 0..80 |
| `Food.TickIsGentle` | cubic-server/Player.cpp:1231-1275 | a tick changes health by at most 1, and one that heals takes neither food nor saturation |
| `Food.RunKeepsOk` | cubic-server/Player.cpp:1231-1306 | the bounds hold after any run of ticks and meals |
| `Food.HealsSlowly` | cubic-server/Player.cpp:1231-1275 | with food 18 or more, rested, a hurt player heals 1 in exactly the 81st tick |
| `Food.HealsFast` | cubic-server/Player.cpp:1231-1275 | with food 20 and saturation, in exactly the 11th, a sixth of the saturation and at most 1 |
| `Food.StarvesSlowly` | cubic-server/Player.cpp:1231-1275 | without food a player with more than 10 loses 1 in exactly the 81st tick |
| `Food.DrainsInNumbers` | cubic-server/Player.cpp:1231-1275 | exhaustion of 4 costs 1 of saturation, or 1 of food when there is none |
| `Food.RestsInNumbers` | cubic-server/Player.cpp:1231-1275 | with food from 1 to 17, rested, a player neither heals nor starves |
| `Food.EatInNumbers` | cubic-server/Player.cpp:1297-1302 | a meal adds its food up to 20 and its saturation up to the food, and takes nothing |
| `Food.Player.FoodTick` | cubic-server/Player.cpp:1231-1275 | the branches of the method amount to at most one of starving, healing and draining, plus the timer |
| `Food.Player.Eat` | cubic-server/Player.cpp:1297-1302 | eating adds and clamps, and a full player does not eat |

## Left out

- DynamicStorage.Storage.SetValueSize: for widths above 30 the C++ mask shifts an `int` too far, which has no defined result; the model's mask is unbounded, and the callers use widths up to 15.
- World.Level.UpdateBlock: does not model the packet sent to the players afterwards.
- NbtReader.Reader.ParseArray: the products `size * 4` and `size * 8` are unbounded integers, while in C++ they overflow from 2^29 and 2^28 elements on; the exception that a negative byte array length raises is a failed parse.
- NbtCanonical.RoundTrip: arrays are well formed up to the length field; those whose byte count exceeds int32 are read with unbounded products, as in ParseArray.
- NbtWriter.Writer.Serialize: requires that no list is empty, because the printer then reads an element that does not exist.
- ViewWindow.PlayerView.UpdateRenderedChunks: the order of the calls inside a loop, descending in some of them, is not modelled.
- ThreadPool.Semaphore.Acquire: the waiting loop is not modelled, only the moment at which the permit is taken; the same holds for ReverseSemaphore::wait.
- Generation.GenerateRawGeneration: the biomes that this stage also writes are not modelled.
- Generation.RunStage: biomes, height maps and sky light are not part of this model; what noise decides is a parameter.
- Trees.GrowTrees: which of two trees that compete for space grows depends on the order of the search, which is not stated.
- BlockStates.GlobalPalette.Initialize: reading and parsing the JSON file is not modelled; a block of the file is a record.
- Worker resizing, sub-jobs, pool shutdown and waitUntilJobsDone: worker self-destruction and code that is not used.
- Exceptions thrown by jobs: the worker logs them and goes on, which for a request job is the case of Requests.FailedGenerationStrands.
- The loading and loaded flags under concurrent delivery: they are written outside the request lock.
- Inventory clicks around the swaps and the item count taken by a meal: field updates with easy claims only.
- Packets, sockets, encryption, persistence, biomes, loot tables, recipes, chat, commands and configuration: input and output, or field lists.
