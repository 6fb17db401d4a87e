# Verified models of the gem5 multithread workload and utilities

The modules here model the parts of the repository that carry an algorithm with a
property worth a proof, and prove that property for every input or every run:

- `Gemm` — the worker threads of the matrix product that is run on the simulated machine, under every schedule.
- `PipeView`, `PipeRow`, `StableSort` — the out-of-order pipeline viewer: its bounded reorder queue, its window over a trace, and the rows it draws.
- `CptUpgrader` — the checkpoint upgrader: loading of the scripts and the dependence scheduler.
- `PortBinder`, `PortText` — the port binder of the configuration reader, and the text form of a port.
- `Aggregator` — the merge of several checkpoints into one.
- `Protolib`, `DepTrace` — the framing of trace files and the two converters of dependence records.
- `MemTest` — the recursive tree of caches and testers.
- `Simulation` — the driver loops that take scripted checkpoints and switch CPUs.
- `Dates` — the printer and reader of copyright years.
- `LogRoll` — the ring buffer of the log roller.
- `Common`, `DivMod`, `Text` — shared helpers: small types, division, decimal numbers and splitting of strings.

`dafny verify dfyconfig.toml` checks everything. Code that changes state is a class or a
method with loops, proved against a function of its inputs; the lemmas then say what that
function means.

Python integers and C `int` are unbounded integers here. Files are sequences of bytes or
lines, and an exception or an exit is `None`, `false` or a constructor of its own.

Some promises of the source do not hold of its code; the models follow the code:

- The row blocks of the matrix product cover all rows only when the thread count divides the number of rows (`Gemm.CoverIffDivides`).
- The header of `cpt_upgrader.py` lets a tag wait for the removal of another one, but `ready` tests for presence. A dependent never runs in a later batch than the downgrade of its dependence: the header's rule holds only where nothing asks for it (`CptUpgrader.HeaderRuleIff`). Where both are in one batch, the iteration order of a set decides whether the dependent runs with or without the tag (`CptUpgrader.HeaderRuleFails`, `CptUpgrader.PresentIffNoConflict`); a dependence that is absent from the start blocks its dependents (`CptUpgrader.DowngradedDependenceBlocks`).
- A comment in `bind_ports` says that sorting makes one direction of each connection bindable. It does not (`PortBinder.SortedOrderCanFail`); `PortBinder.BindsIffSelection` says exactly when the walk succeeds. The counterexample is the comment's own example with one port renamed, so that the walk it shows is the sorted one.
- Legacy scripts do not always run in the order of their versions, for two reasons: a version between two missing ones is present (`CptUpgrader.LegacyHole`), or two scripts claim one version, so that one of them is never chained and runs in the first batch (`CptUpgrader.SharedVersion`). `CptUpgrader.LegacyOrderIff` and `CptUpgrader.LegacyCheckpointIff` are the exact conditions. The scripts of the repository share the versions 15 (`arm-sve.py:45`, `process-fdmap-rename.py:35`) and 16 (`globals-to-root.py:15`, `register-files.py:81`).
- The viewer's dictionary is never cleared: an instruction whose trace lacks a stage shows the tick of an earlier one (`PipeView.FreshIffAllStages`), or ends the run if there is none (`PipeView.Viewer.ProcessTrace`).
- An image shorter than its page count shifts all later images in the merged memory (`Aggregator.ImagesLength`, `Aggregator.RangeSizeExact`).
- A program's own checkpoint request inside a scripted period ends the script after that period, because the loop tests the cause of the first call only (`Simulation.InterruptionEnds`, `Simulation.ScriptCompletes`).
- The switch loop can pass maxtick when less than one interval is left (`Simulation.InTimeIffRoom`), never ends with an interval of 0 (`Simulation.EndsIffPositive`), and its second switch is refused when the CPUs it started with need different memory modes (`Simulation.NeverRefusedIff`).
- Year ranges with an end that does not have four digits are printed and then not read back (`Dates.DatesRoundTrip`).
- An empty message ends the reading of a file (`Protolib.MessageRoundTrip`, `Protolib.StreamRoundTrip`); a length field from 2^63 on reads the rest of the file as one message or raises an error that nothing catches (`Protolib.NegativeLength`).

## Model

| member | source | states |
|---|---|---|
| Gemm.BlocksDisjoint | gem5_SE_multithread/workload/gemm_pthread.cpp:23 | for all sizes and thread counts, a row lies in at most one block, and every row of a block is a row of the matrix |
| Gemm.CoverIffDivides | gem5_SE_multithread/workload/gemm_pthread.cpp:23-31 | the blocks cover all rows if and only if the thread count divides the number of rows |
| Gemm.StepInv | gem5_SE_multithread/workload/gemm_pthread.cpp:21-57 | every enabled step of `main` or of a worker keeps the invariant: locals inside the own block, `temp` a prefix of the sum, each cell 0 or complete |
| Gemm.ExecInv | gem5_SE_multithread/workload/gemm_pthread.cpp:21-57 | the invariant holds after every schedule |
| Gemm.ResultOfEverySchedule | gem5_SE_multithread/workload/gemm_pthread.cpp:21-57 | once all joins have returned, whatever the schedule, covered cells hold the left-to-right sum and all others are 0 |
| Gemm.ProductWhenDivides | gem5_SE_multithread/workload/gemm_pthread.cpp:21-57 | with a thread count that divides the rows every cell of `C` is the full sum |
| Gemm.NoConflict | gem5_SE_multithread/workload/gemm_pthread.cpp:23-56 | in every reachable state no worker is out of bounds, no two are about to store the same cell, and `thread_ids` is neither rewritten nor gone while a worker is alive |
| Gemm.StoresOneCell | gem5_SE_multithread/workload/gemm_pthread.cpp:23-31 | in every reachable state the next step of a thread changes at most one cell of `C`, and that to the whole dot product |
| Gemm.NoDeadlock | gem5_SE_multithread/workload/gemm_pthread.cpp:49-57 | until `main` returns, some actor is enabled |
| Gemm.EveryScheduleTerminates | gem5_SE_multithread/workload/gemm_pthread.cpp:21-57 | every complete schedule has the same length, and any shorter one can be continued |
| Gemm.CanComplete | gem5_SE_multithread/workload/gemm_pthread.cpp:39-57 | from every reachable state some schedule leads to the return of `main` |
| Gemm.SchedulesAgree | gem5_SE_multithread/workload/gemm_pthread.cpp:21-57 | two complete schedules end in the same state, with no law assumed of addition |
| Gemm.ThreadGemm | gem5_SE_multithread/workload/gemm_pthread.cpp:21-37 | one call stores the sums of exactly the cells of its block and leaves all others |
| StableSort.SortSorted | gem5_sim/util/o3-pipeview.py:242 | the sort is ordered by its key |
| StableSort.SortMembers | gem5_sim/util/o3-pipeview.py:242 | the sort is a permutation |
| StableSort.SortStable | gem5_sim/util/o3-pipeview.py:242 | elements of equal key keep their order |
| PipeView.PoppedIsSorted | gem5_sim/util/o3-pipeview.py:212-277 | if no arrival is preceded by more than `min_threshold` later instructions, everything popped over all flushes is the stable sort of all arrivals |
| PipeView.PoppedIsPermutation | gem5_sim/util/o3-pipeview.py:212-277 | whatever the disorder, each instruction is popped exactly once |
| PipeView.BoundIsTight | gem5_sim/util/o3-pipeview.py:45-50 | for every pair of thresholds a trace displaced by one place more comes out unsorted |
| PipeView.QueueBoundedThroughout | gem5_sim/util/o3-pipeview.py:212-227 | after every prefix of a run the queue holds at most the larger of the two thresholds |
| PipeView.NothingStale | gem5_sim/util/o3-pipeview.py:155-193 | in a well-formed trace the dictionary that is never cleared does not let data of one instruction show in another |
| PipeView.FreshIffAllStages | gem5_sim/util/o3-pipeview.py:155-193 | the record of an instruction is the same whatever was in the dictionary before, if and only if the trace reports all its middle stages |
| PipeView.RecordMeaning | gem5_sim/util/o3-pipeview.py:155-193 | the lines of one instruction make one record: pc, micro-pc, sequence number and tick of its fetch line, the last tick reported for each stage, the retire tick, the store tick if asked for, and its text with a mark exactly if it never retired |
| PipeView.TraceRecords | gem5_sim/util/o3-pipeview.py:155-193 | a trace of any number of instructions makes one such record for each, in the order of the trace, whatever the dictionary held before |
| PipeView.StartMeaning | gem5_sim/util/o3-pipeview.py:94-126 | the region starts at the first fetch line at or after the first line of at least the start tick, or else of at least the start sequence number |
| PipeView.StopMeaning | gem5_sim/util/o3-pipeview.py:159-176 | it stops at its first fetch line more than the tick drift or `max_threshold` beyond a stop bound that is set |
| PipeView.SkippingLossless | gem5_sim/util/o3-pipeview.py:94-126 | the skipped instructions are all rejected by the print filter |
| PipeView.StoppingLossless | gem5_sim/util/o3-pipeview.py:159-176 | so are those after the early stop, if no fetch line runs further ahead of a later one than the allowance of each stop bound that is set |
| PipeView.TraceParts | gem5_sim/util/o3-pipeview.py:94-207 | the instructions of the trace are those skipped, those read and those cut off, in this order |
| PipeView.PrintsTheWindow | gem5_sim/util/o3-pipeview.py:69-277 | the windowed run prints exactly the instructions of the full trace that pass the filter, each as often as it occurs |
| PipeView.PrintedMembers | gem5_sim/util/o3-pipeview.py:243-277 | an instruction of the trace is printed if and only if its sequence number and fetch tick are within the bounds that are set and, with only committed ones asked for, it retired |
| PipeView.PrintsInOrder | gem5_sim/util/o3-pipeview.py:69-277 | with the reorder bound it prints them as the filtered stable sort of the full trace |
| PipeView.TickAt | gem5_sim/util/o3-pipeview.py:288-331 | the row layout gets the tick of each stage in the order fetch, decode, rename, dispatch, issue, complete, retire, and the store completion only if asked for |
| PipeView.PrintableIff | gem5_sim/util/o3-pipeview.py:342-390 | an instruction with all its stages is printed if and only if the row layout does not ask for an event of an empty row |
| PipeView.RunPrintable | gem5_sim/util/o3-pipeview.py:69-277 | in a well-formed trace with fetch ticks above 0 no selected instruction raises, so everything selected is written |
| PipeView.FindStart | gem5_sim/util/o3-pipeview.py:94-126 | the skipping loops stop at the first fetch line at or after the start of the window |
| PipeView.Viewer.constructor | gem5_sim/util/o3-pipeview.py:51-66 | the queue starts empty |
| PipeView.Viewer.PrintOne | gem5_sim/util/o3-pipeview.py:243-277 | pops one instruction and writes it if all five tests pass; raises if it lacks a stage or reached none |
| PipeView.Viewer.PrintInsts | gem5_sim/util/o3-pipeview.py:231-277 | writes the filtered head of the sorted queue up to the first instruction that raises, and otherwise keeps `lower_threshold` instructions |
| PipeView.Viewer.QueueInst | gem5_sim/util/o3-pipeview.py:212-227 | queues one instruction and flushes above `max_threshold` |
| PipeView.Viewer.ReadOne | gem5_sim/util/o3-pipeview.py:157-193 | one line updates the dictionary, and a retire line queues the instruction |
| PipeView.Viewer.ReadRegion | gem5_sim/util/o3-pipeview.py:154-207 | the main loop queues exactly the instructions of the region, up to one that raises |
| PipeView.Viewer.ProcessTrace | gem5_sim/util/o3-pipeview.py:69-207 | a run writes `Printed` up to the first instruction that raises; it gets to the end, with an empty queue, if and only if none does |
| PipeRow.BaseIsFloor | gem5_sim/util/o3-pipeview.py:337-338 | the first row starts at the last multiple of the time width that is not after the fetch |
| PipeRow.RowCount | gem5_sim/util/o3-pipeview.py:354-359 | there is one row if and only if every stage lies within one time width of the fetch, and otherwise the least number of rows from the base that holds every stage |
| PipeRow.EachEventInOneRow | gem5_sim/util/o3-pipeview.py:337-386 | each reached stage falls in the window of exactly one output row, compact or not, unless its tick lies before the first row, and then in none |
| PipeRow.RowEvents | gem5_sim/util/o3-pipeview.py:374-387 | the sorted events of a row are exactly the stages whose tick the row shows |
| PipeRow.EventOrder | gem5_sim/util/o3-pipeview.py:374-387 | events are drawn by tick modulo the time width, and at the same place by the alphabetical order of their stage names |
| PipeRow.RankOfName | gem5_sim/util/o3-pipeview.py:292-331 | the ranks that the sort uses are the alphabetical order of the stage names |
| PipeRow.CellMeaning | gem5_sim/util/o3-pipeview.py:380-411 | the cell of an event is inside the row and gives back its tick, wrapped at most once in the compact form |
| PipeRow.RowLength | gem5_sim/util/o3-pipeview.py:388-416 | a row has `width` plus drawn events minus distinct occupied cells |
| PipeRow.RowPicture | gem5_sim/util/o3-pipeview.py:361-416 | without shared cells a row is `width` long, with the letter of each stage in the cell of its tick, no dispatch at the tick of the issue, and elsewhere `.` for a retired and `=` for an abandoned instruction |
| PipeRow.DrawRow | gem5_sim/util/o3-pipeview.py:388-416 | the loop over the events draws the specified row |
| PipeRow.RaisesIffNothing | gem5_sim/util/o3-pipeview.py:390 | the first event of a row without events is asked for if and only if no stage was reached |
| PipeRow.PrintInst | gem5_sim/util/o3-pipeview.py:335-416 | one instruction prints its rows from first to last, a single one if and only if every stage lies within one time width of the fetch, or raises at a single row without events |
| CptUpgrader.RunsExactlyOnce | gem5_sim/util/cpt_upgrader.py:257-269 | each pending migration runs in exactly one batch or is left over, and the tags reflect the batches |
| CptUpgrader.FinalTags | gem5_sim/util/cpt_upgrader.py:257-269 | a run that does not abort ends with (tags ∪ tag_set) − untag_set, and a second run applies nothing |
| CptUpgrader.RunIsOrder | gem5_sim/util/cpt_upgrader.py:258-269 | whatever the order inside batches, a successful run of upgrades respects all dependences |
| CptUpgrader.AbortsIffNoOrder | gem5_sim/util/cpt_upgrader.py:257-269 | with no downgrade pending the loop aborts if and only if no order of the missing upgrades respects the dependences |
| CptUpgrader.DependenceOrder | gem5_sim/util/cpt_upgrader.py:144-158 | with downgrades too: a dependence on an upgrade runs in an earlier batch or is present; any other is present and not removed in an earlier batch |
| CptUpgrader.DowngradedDependenceBlocks | gem5_sim/util/cpt_upgrader.py:144-148 | a migration that depends on a tag which is absent from the start, and which no upgrade adds, never runs |
| CptUpgrader.HeaderRuleIff | gem5_sim/util/cpt_upgrader.py:56-61 | no migration runs in a later batch than a downgrade it depends on: the header's rule holds if and only if no migration that ran depends on a tag with a downgrader |
| CptUpgrader.HeaderRuleIffNoneAsks | gem5_sim/util/cpt_upgrader.py:56-61 | for a run that does not abort, if and only if no pending migration depends on such a tag |
| CptUpgrader.HeaderRuleFails | gem5_sim/util/cpt_upgrader.py:56-61 | two scripts that break the rule: both run in one batch, the dependent before the removal or after it, without the tag |
| CptUpgrader.PresentIffNoConflict | gem5_sim/util/cpt_upgrader.py:258-269 | under every iteration order each migration runs with all its dependences present, if and only if no batch holds a migration together with another one that is a downgrade it depends on |
| CptUpgrader.LegacyOrder | gem5_sim/util/cpt_upgrader.py:171-175 | missing owners of consecutive legacy versions run in increasing order |
| CptUpgrader.LegacyOrderIff | gem5_sim/util/cpt_upgrader.py:139-175 | over all scripts that claim a version of a range and have to run, older versions run in earlier batches if and only if every script with an older one beside it owns its version and the owner of the version before is missing |
| CptUpgrader.LegacyHole | gem5_sim/util/cpt_upgrader.py:171-175 | with versions 4 and 6 missing and 5 present, 6 may run before 4 |
| CptUpgrader.SharedVersion | gem5_sim/util/cpt_upgraders/arm-sve.py:45 | four scripts of the versions 2, 3, 4 and 4: the one that does not own version 4 runs with version 2, before version 3 |
| CptUpgrader.LegacyCheckpoint | gem5_sim/util/cpt_upgrader.py:171-230 | a checkpoint with a legacy version number gets the owners of its later versions in increasing order |
| CptUpgrader.LegacyCheckpointIff | gem5_sim/util/cpt_upgrader.py:171-230 | over all its scripts, if and only if every one with an older one beside it owns its version and does not come next after the number |
| CptUpgrader.LegacyInjective | gem5_sim/util/cpt_upgrader.py:139-142 | different legacy versions of scripts that own their tags belong to different tags |
| CptUpgrader.LegacyLinked | gem5_sim/util/cpt_upgrader.py:171-192 | after loading, each version of the chain whose script owns its tag depends on the one before, also after forward dependences are added |
| CptUpgrader.LoadedIsClosed | gem5_sim/util/cpt_upgrader.py:177-192 | after a successful load every dependence names a known tag |
| CptUpgrader.RunBatch | gem5_sim/util/cpt_upgrader.py:150-158 | running a ready batch in any order gives the same tags, runs each migration once, and never removes an absent tag |
| CptUpgrader.ProcessFile | gem5_sim/util/cpt_upgrader.py:255-269 | the work loop ends, and its verdict, tags and batches are those of the schedule |
| CptUpgrader.Construct | gem5_sim/util/cpt_upgrader.py:96-142 | the constructors fill the class variables: the last script that uses a tag owns it, and the last that claims a version owns that |
| CptUpgrader.LastIsLive | gem5_sim/util/cpt_upgrader.py:142 | every tag in use is known, and a script owns its tag unless a later one uses it |
| CptUpgrader.TagSetsMatch | gem5_sim/util/cpt_upgrader.py:121-142 | unless a tag is used by an upgrade and a downgrade, `tag_set` and `untag_set` are the upgrades and downgrades of the registry |
| CptUpgrader.LinkLegacy | gem5_sim/util/cpt_upgrader.py:171-175 | the loop links exactly the unbroken chain from version 3, and fails only without version 2 |
| CptUpgrader.ResolveOne | gem5_sim/util/cpt_upgrader.py:179-186 | the tag is appended to the dependences of every tag that the script names, or one of these is unknown |
| CptUpgrader.ResolveScript | gem5_sim/util/cpt_upgrader.py:178-192 | one script passes if and only if every tag it names is known, and then its forward dependences are added |
| CptUpgrader.Resolve | gem5_sim/util/cpt_upgrader.py:177-192 | the pass over all tags, in any order, succeeds if and only if every named tag is known, and then all forward dependences are added |
| CptUpgrader.LoadAll | gem5_sim/util/cpt_upgrader.py:165-192 | loading any list of scripts succeeds exactly if it is loadable, and then yields the dependences and the class variables |
| PortBinder.UsesInOrder | gem5_sim/configs/example/read_config.py:380-390 | a walk uses the indices of every port in order and without gaps |
| PortBinder.EndsUsedOnce | gem5_sim/configs/example/read_config.py:380-390 | no indexed end is used by two bindings |
| PortBinder.HalfIffOneDirection | gem5_sim/configs/example/read_config.py:392-395 | half the list is bound if and only if each connection is bound in exactly one direction |
| PortBinder.BindingIsSafe | gem5_sim/configs/example/read_config.py:349-395 | in any order of the list: no KeyError, no end twice, and indices 0, 1, 2, ... for every port |
| PortBinder.BindsOneDirectionOfEach | gem5_sim/configs/example/read_config.py:349-395 | the binder returns exactly when one direction of each connection is bound, and raises otherwise |
| PortBinder.GreedyDominates | gem5_sim/configs/example/read_config.py:380-390 | the counters of the walk never fall behind those of any in-order selection |
| PortBinder.BindsIffSelection | gem5_sim/configs/example/read_config.py:349-395 | for every list that is closed under reversal, without repeats or self-links, the walk binds everything if and only if the list, in its order, contains an in-order selection of one direction of each connection |
| PortBinder.SortedOrderCanFail | gem5_sim/configs/example/read_config.py:370-379 | a sorted list on which the binder raises although another order of it binds everything |
| PortBinder.InitialCounters | gem5_sim/configs/example/read_config.py:354-359 | every left-hand port starts at index 0 |
| PortBinder.BindPorts | gem5_sim/configs/example/read_config.py:349-395 | the loop computes the specified outcome, including the KeyError and the exception |
| PortText.PortRoundTrip | gem5_sim/configs/example/read_config.py:152-164 | printing and parsing a port gives it back if and only if its index is not negative, its name is a run of name characters and its object has no line break |
| PortText.ReadableParses | gem5_sim/configs/example/read_config.py:152-164 | such a port parses back from its text |
| PortText.IndexMeaning | gem5_sim/configs/example/read_config.py:154-159 | the index is the number in brackets after the name, and 0 if there is none |
| PortText.WithoutIndex | gem5_sim/configs/example/read_config.py:152-161 | a port written without an index has index 0 |
| PortText.ParsedIsReadable | gem5_sim/configs/example/read_config.py:152-161 | everything the parser returns is such a port |
| Aggregator.TagMeaning | gem5_sim/util/checkpoint_aggregator.py:59-69 | the inserted tag is the number of the checkpoint, with as many digits as the largest number |
| Aggregator.HasCpuMeaning | gem5_sim/util/checkpoint_aggregator.py:68 | a section is renamed if and only if "cpu" occurs somewhere in its name |
| Aggregator.IsFdMapMeaning | gem5_sim/util/checkpoint_aggregator.py:81 | the test for a file-descriptor map holds of exactly the names that end in "workload", one character and "FdMap256" |
| Aggregator.NewNameInjective | gem5_sim/util/checkpoint_aggregator.py:58-70 | the new name determines the checkpoint and the old cpu section |
| Aggregator.NamesNeverCollide | gem5_sim/util/checkpoint_aggregator.py:67-94 | two written sections of one name come from one section of one checkpoint |
| Aggregator.MergedHas | gem5_sim/util/checkpoint_aggregator.py:67-94 | every cpu section, and every other section of the last checkpoint, is written |
| Aggregator.MergedFrom | gem5_sim/util/checkpoint_aggregator.py:67-94 | nothing else is written |
| Aggregator.MergedInOrder | gem5_sim/util/checkpoint_aggregator.py:67-94 | the sections of a checkpoint are written in the order in which they are read |
| Aggregator.WrittenInOrder | gem5_sim/util/checkpoint_aggregator.py:61-97 | what is written for some checkpoints is the start of what is written for more |
| Aggregator.MergesIff | gem5_sim/util/checkpoint_aggregator.py:61-94 | the sections are merged if and only if every `paddr` of a cpu section is a number |
| Aggregator.SectionKept | gem5_sim/util/checkpoint_aggregator.py:67-82 | some section is written under the new name of a cpu section with exactly its keys, and the process number for a file-descriptor map; every value is kept but `paddr`, which moves by the page offset, and the process number, which is that of the checkpoint |
| Aggregator.OtherSections | gem5_sim/util/checkpoint_aggregator.py:84-94 | a section without "cpu" in its name is written if and only if it is one of the last checkpoint, other than "system" and "Globals", and then as it is |
| Aggregator.ImagesLength | gem5_sim/util/checkpoint_aggregator.py:99-117 | the next image starts at its page offset if and only if all earlier images are complete |
| Aggregator.ImagesDisjoint | gem5_sim/util/checkpoint_aggregator.py:99-114 | pages of different checkpoints never share an address |
| Aggregator.RelocationPreservesBytes | gem5_sim/util/checkpoint_aggregator.py:99-131 | the merged memory holds each byte of a checkpoint at its relocated address |
| Text.ParseIntMeaning | gem5_sim/util/checkpoint_aggregator.py:74-78 | a text is an integer if and only if, between blanks, it is digits after at most one sign, and then it is their decimal value |
| Aggregator.AddressKeepsMeaning | gem5_sim/util/checkpoint_aggregator.py:67-131 | if the images up to its own are complete, the rewritten `paddr` of a renamed section reads the byte that the old one read |
| Aggregator.RangeSizeExact | gem5_sim/util/checkpoint_aggregator.py:123-140 | `range_size` is the number of bytes written if and only if all images are complete; it is at least the requested size, exceeds that by less than a page unless the images do, and the padding is the digit 0 |
| Aggregator.MaxTickIsMaximum | gem5_sim/util/checkpoint_aggregator.py:86-89 | the merged tick is the largest of the ticks |
| Aggregator.CopyPages | gem5_sim/util/checkpoint_aggregator.py:104-117 | the page loop copies the image up to the page count, or all of a short one |
| Aggregator.MergeSections | gem5_sim/util/checkpoint_aggregator.py:67-94 | the loop over one configuration writes the specified sections |
| Aggregator.Pad | gem5_sim/util/checkpoint_aggregator.py:123-131 | the loop writes as many pages as are missing from the requested size |
| Aggregator.Aggregate | gem5_sim/util/checkpoint_aggregator.py:44-152 | the whole output: sections, memory, page count, process count, size and tick, and when it fails |
| Protolib.VarintRoundTrip | gem5_sim/util/protolib.py:100-159 | for every value and any bytes after it: below 2^63 the decoder takes exactly the encoder's bytes and returns the value modulo 2^32; what it does beyond |
| Protolib.MessageRoundTrip | gem5_sim/util/protolib.py:131-168 | a framed message comes back if and only if it is not empty and shorter than 2^32 bytes |
| Protolib.TruncatedLength | gem5_sim/util/protolib.py:100-129 | a file that ends inside a length field decodes to (0, 0) and ends the stream |
| Protolib.TruncatedMessage | gem5_sim/util/protolib.py:132-145 | a file that ends inside a message yields the part of the message that is there |
| Protolib.NegativeLength | gem5_sim/util/protolib.py:118-143 | a length field from 2^63 to 2^70 reads the rest of the file or raises a ValueError |
| Protolib.StreamRoundTrip | gem5_sim/util/protolib.py:131-168 | a file of messages reads back as its longest prefix without an empty message, without an error |
| Protolib.OutFile.EncodeVarint32 | gem5_sim/util/protolib.py:147-159 | the loop appends the base-128 digits, low first, all but the last with the high bit |
| Protolib.OutFile.EncodeMessage | gem5_sim/util/protolib.py:162-168 | appends the length and the message |
| Protolib.InFile.Read | gem5_sim/util/protolib.py:113-140 | a read consumes what it returns; -1 reads everything, and a smaller size raises |
| Protolib.InFile.DecodeVarint32 | gem5_sim/util/protolib.py:100-128 | the loop computes the specified value and byte count, the end of file and the error |
| Protolib.InFile.DecodeMessage | gem5_sim/util/protolib.py:131-144 | returns the next message, none at the end, at an empty one and at an OSError, and passes a ValueError on |
| Protolib.InFile.ReadAll | gem5_sim/util/decode_inst_dep_trace.py:163-165 | the reading loop ends and returns all messages up to the end or the error |
| DepTrace.RecordRoundTrip | gem5_sim/util/decode_inst_dep_trace.py:164-215 | a printed record parses back, with pc and weight filled in, if and only if it is not INVALID and has address, size and flags exactly when it is a load or store |
| DepTrace.CompleteRoundTrip | gem5_sim/util/decode_inst_dep_trace.py:164-215 | a record with pc and weight parses back to itself under the same condition |
| DepTrace.AbsentFields | gem5_sim/util/decode_inst_dep_trace.py:169-178 | a missing pc comes back as 0, a missing weight as 1, and nothing else changes |
| DepTrace.LineFormat | gem5_sim/util/decode_inst_dep_trace.py:167-215 | the text of a line: the fields in their order with their separators, the optional ones only if they are set |
| DepTrace.DepFormat | gem5_sim/util/decode_inst_dep_trace.py:200-213 | the text of a dependence list: a comma in front of each number |
| DepTrace.TraceRoundTrip | gem5_sim/util/encode_inst_dep_trace.py:157-209 | a whole trace, line by line, parses back if and only if every record of it does |
| DepTrace.DepsRoundTrip | gem5_sim/util/encode_inst_dep_trace.py:193-206 | a printed dependence list of any length parses to itself |
| DepTrace.WriteDeps | gem5_sim/util/decode_inst_dep_trace.py:200-213 | the loop writes each dependence after a comma |
| DepTrace.WriteInfo | gem5_sim/util/decode_inst_dep_trace.py:167-198 | the fields before the first colon, with the optional ones only if they are set |
| DepTrace.WriteRecord | gem5_sim/util/decode_inst_dep_trace.py:167-215 | the writes of one iteration make up the line of the record |
| DepTrace.ReadDeps | gem5_sim/util/encode_inst_dep_trace.py:195-206 | the loop reads all non-empty parts or fails on a bad one |
| DepTrace.ReadLine | gem5_sim/util/encode_inst_dep_trace.py:158-206 | one iteration parses the line as specified, with all its failures |
| MemTest.NumTesters | gem5_sim/configs/example/memtest.py:150-161 | the two loops compute the sum over the depths of testers times subsystems |
| MemTest.TestersMatch | gem5_sim/configs/example/memtest.py:150-351 | the recursion creates exactly `numtesters` testers |
| MemTest.SubsystemsMatch | gem5_sim/configs/example/memtest.py:280-351 | it creates the product of the first n − L cache counts at each level L, and all names differ |
| MemTest.NamesOfLevel | gem5_sim/configs/example/memtest.py:280-310 | the subsystems of level L are named l*L*subsys*k* for every k below their number, each with the testers of its depth |
| MemTest.NameInjective | gem5_sim/configs/example/memtest.py:294 | a subsystem name determines level and index |
| MemTest.MakePrototypes | gem5_sim/configs/example/memtest.py:236-260 | one prototype per level, ending with L1, scaled by the product of the counts passed, ten times slower per level, and alternating clusivity and clean writebacks |
| MemTest.Builder.constructor | gem5_sim/configs/example/memtest.py:280 | all indices start at 0 |
| MemTest.Builder.MakeCacheLevel | gem5_sim/configs/example/memtest.py:285-347 | the recursion never indexes out of range, builds the specified subtree, and fails only at level 0 without a cache |
| MemTest.Builder.MakeTree | gem5_sim/configs/example/memtest.py:350-351 | the top-level call never reaches that failure and builds the whole tree |
| Simulation.ScriptOnSchedule | gem5_sim/configs/common/Simulation.py:246-283 | against every simulator checkpoint k is at when + k*period, all but the first at or before maxtick, at most max(1, max_checkpoints) of them |
| Simulation.ScriptCompletes | gem5_sim/configs/common/Simulation.py:252-283 | all planned checkpoints are taken if and only if `when` is reached and every period but the last passes without any stop |
| Simulation.ScriptInTime | gem5_sim/configs/common/Simulation.py:252-283 | against every simulator the script ends no later than the first checkpoint or maxtick |
| Simulation.ScriptEnds | gem5_sim/configs/common/Simulation.py:252-283 | undisturbed, the script takes every planned checkpoint, and returns with the limit at exactly maxtick if another checkpoint is allowed but would come later, otherwise at its last checkpoint |
| Simulation.InterruptionEnds | gem5_sim/configs/common/Simulation.py:267-283 | after an interrupted period at most one more checkpoint is taken |
| Simulation.PlannedMeaning | gem5_sim/configs/common/Simulation.py:264-271 | the planned checkpoints are those below the maximum and at or before maxtick |
| Simulation.ReadyMeaning | gem5_sim/src/python/m5/simulate.py:388-417 | a list of pairs is accepted if and only if it is not empty, the old CPUs are active and the new ones are not, all support a hand-over, and the new ones need one memory mode |
| Simulation.HandBack | gem5_sim/configs/common/Simulation.py:462-467 | after a switch the swapped list is accepted if and only if the old CPUs need one memory mode, and switching again restores the active CPUs |
| Simulation.SwitchingAlternates | gem5_sim/configs/common/Simulation.py:453-471 | if the old CPUs need one memory mode no switch is refused, and the active CPUs and the list of pairs follow the parity of the switches |
| Simulation.PairsAlternate | gem5_sim/configs/common/Simulation.py:464-467 | in every run, the list of pairs is the one given or its swap, by the parity of the switches |
| Simulation.NeverRefusedIff | gem5_sim/configs/common/Simulation.py:453-471 | no switch is refused against any simulator, if and only if the old CPUs need one memory mode or there is time for one switch only |
| Simulation.SwitchingPaced | gem5_sim/configs/common/Simulation.py:453-471 | switch k is at start + (k + 1)*switch_freq |
| Simulation.InTimeIffRoom | gem5_sim/configs/common/Simulation.py:453-471 | time stays within maxtick against every simulator if and only if one interval fits before it |
| Simulation.SwitchesBounded | gem5_sim/configs/common/Simulation.py:453-471 | the number of switches times the interval is at most the ticks left |
| Simulation.SwitchingEnds | gem5_sim/configs/common/Simulation.py:453-471 | the loop has returned once the number of replies times the interval exceeds the ticks left |
| Simulation.EndsIffPositive | gem5_sim/configs/common/Simulation.py:453-471 | there is a number of replies within which the loop always returns, if and only if the interval is positive |
| Simulation.SwitchingCompletes | gem5_sim/configs/common/Simulation.py:453-471 | undisturbed, the run ends at maxtick after a switch at every multiple of the interval before it |
| Simulation.ModesFollow | gem5_sim/src/python/m5/simulate.py:424-441 | over a whole run of switches the memory mode is that of the CPUs in use, and the caches are flushed at exactly the switches that enter the mode in which they are bypassed |
| Simulation.UnsupportedNeverSwitches | gem5_sim/src/python/m5/simulate.py:393-417 | with an object in the list that is no CPU or does not support a hand-over, no switch ever happens |
| Simulation.Simulator.SwitchCpus | gem5_sim/src/python/m5/simulate.py:388-444 | accepted if and only if the objects are CPUs that support a hand-over, the old ones active, the new ones not and of one memory mode; then the new ones are active, the system has their mode, and the caches are flushed if that disables them |
| Simulation.Simulator.RunUntil | gem5_sim/configs/common/Simulation.py:254-256 | the loops that go on after a checkpoint request |
| Simulation.Simulator.RunPeriod | gem5_sim/configs/common/Simulation.py:275-283 | one period with its checkpoint, and the cause that is tested afterwards |
| Simulation.Simulator.RunPeriods | gem5_sim/configs/common/Simulation.py:264-283 | the loop over the periods runs as specified |
| Simulation.Simulator.ScriptCheckpoints | gem5_sim/configs/common/Simulation.py:246-285 | the whole script runs as specified, keeps its schedule and does not pass the first checkpoint or maxtick |
| Simulation.Simulator.RepeatSwitch | gem5_sim/configs/common/Simulation.py:453-471 | the switch loop runs as specified, with the state and the list of pairs at its end; for a positive interval it terminates by the ticks left until maxtick |
| Simulation.SwapAll | gem5_sim/configs/common/Simulation.py:464-467 | the loop swaps every pair |
| Dates.RunsMeaning | gem5_sim/util/find_copyrights.py:195-220 | the printed years and ranges are the maximal runs of the set and denote it |
| Dates.RunsAreFewest | gem5_sim/util/find_copyrights.py:195-220 | no shorter list of years and ranges denotes the set |
| Dates.DatesRoundTrip | gem5_sim/util/find_copyrights.py:112-220 | reading the printed text gives back the set if and only if every range of two or more years has ends of four digits |
| Dates.YearsRoundTrip | gem5_sim/util/find_copyrights.py:112-220 | every non-empty set of four-digit years survives, in whatever order it is listed |
| Text.IsSpaceMeaning | gem5_sim/util/find_copyrights.py:112-116 | a blank is a space, tab, line feed, vertical tab, form feed or carriage return |
| Text.StripCore | gem5_sim/util/find_copyrights.py:116 | stripping removes the blanks on both sides and nothing else |
| Dates.BlanksAround | gem5_sim/util/find_copyrights.py:115-116 | blanks around a part, as after a comma, do not change what it adds |
| Dates.SpacedRange | gem5_sim/util/find_copyrights.py:112-124 | nor do blanks around the dash of a range of four-digit years |
| Dates.DateStr | gem5_sim/util/find_copyrights.py:195-220 | the loop prints the runs of the sorted list, and the empty set raises |
| Dates.ProcessDates | gem5_sim/util/find_copyrights.py:115-132 | the loops collect exactly the years that some part adds |
| LogRoll.Overwrite | gem5_sim/util/logroll.py:91-92 | overwriting at the index and moving on drops the oldest line and appends the new one |
| LogRoll.DumpLines | gem5_sim/util/logroll.py:63-67 | prints the lines from the index on and then those before it |
| LogRoll.FillLines | gem5_sim/util/logroll.py:83-89 | while filling, the buffer shows the last lines read |
| LogRoll.Roll | gem5_sim/util/logroll.py:75-94 | after every consumed line, in both loops, the buffer shows exactly the last min(n, lines read) lines in order, and so does the final output |

## Left out

- The simulator itself (`src/`), the configuration scripts that only connect objects, the code generators and the command lines: no algorithm of their own, or objects whose behaviour is not modelled here.
- The second copy of the matrix product for X86 and `memcheck.py`: the same code again.
- IEEE rounding and overflow: `float` is an abstract type with arbitrary operations, and C and Python integers are unbounded.
- Failure of `pthread_create` and the mapping from thread handles to threads: a handle is the index of its thread.
- PipeView.PrintsTheWindow: for well-formed traces, in which each instruction has its fetch line, all five middle stages and then its retire line before the next; the other traces are those of PipeView.FreshIffAllStages. Splitting of lines into fields, colours, headers and the disassembly column are not modelled.
- PipeRow.DrawRow: the colour codes between the cells and the text after the row are left out.
- CptUpgrader.ProcessFile: a tag that is used by both an upgrade and a downgrade script is not modelled, which the header of the script excludes; dependence lists are sets, since only membership is asked for; the migrations' effect on the checkpoint file is not modelled.
- PortBinder.BindPorts: `sorted` is any permutation of the list, and setting the attributes of the bound objects is not modelled.
- Aggregator.Aggregate: compression is not modelled, the padding text stands for its character codes, and the pages and tick of a checkpoint are given as numbers.
- Protolib.InFile.DecodeMessage: a message is its bytes; the protocol-buffer parser and the field ranges are not modelled.
- DepTrace.WriteRecord: the record types are the four of the format, and the counters for the final report are left out.
- MemTest.Builder.MakeCacheLevel: ports and crossbars are not modelled, only the subsystems, their names and their testers.
- Simulation.Simulator.ScriptCheckpoints: the branch for checkpoints at an instruction count and the names of the checkpoint directories are left out; a negative number of ticks is taken to raise.
- Simulation.Simulator.SwitchCpus: the simulator is taken to be drained at once, here and at a checkpoint; a drain that has to simulate further moves the clock.
- Dates.DateStr: the elements of the set arrive as a list without repeats, in any order.
- The scanner for copyright blocks in `find_copyrights.py`, which depends on the comment syntax of each language.
- LogRoll.Roll: a signal between the store of a line and the update of the index is not modelled.
- Numbers with underscores or non-ASCII digits, which Python's `int` also accepts, and white space other than the six usual ASCII characters, which `strip` also removes.
