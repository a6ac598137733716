# A verified model of the RowHammer environment

The repository is a reinforcement-learning environment around a DRAM simulator. A secret address mapper
scatters rows over banks; an engine turns the DRAM commands that the simulator really issued into bit flips
of neighbouring rows; a compiler picks a target row and a window of candidate addresses under that mapper; an
episode charges budgets and pays a reward that is read from trusted state only; and rollout drivers turn
episodes into masked training examples. This project models these parts in Dafny and proves what they promise
together: an address handed out by the compiler, hammered through the environment, flips exactly the row that
the reward looks at, exactly when the counts say so, and the mitigation prevents it exactly when its condition
holds.

Code that works by changing things step by step is modelled by classes and methods over the same fields
(`AddrInverter`, `RoBaRaCoChRowXOR`, `AddressMapper`, `DisturbanceEngine`, `Worker`, `DisturbedMemory`,
`TaskEnv`, `EpisodeState`, `BatchToolPolicyGenerator`) and each method is proved against a function of its
inputs and the old state; the theorems about runs are lemmas about those functions.

## How the files build on each other

- `Bits`, `BitFields`: GF(2) words over the natural numbers, and lists of bit fields packed into one word.
- `AddrInverter`, `RowXorMapper`, `DecodedBits`, `Addressing`, `DeviceGeometry`: the address inverter, the secret
  mapper, the same mapper bit by bit, the public projection, and the quantities derived from the reported geometry.
- `DisturbanceModel`, `DisturbanceEngine`: the engine as a transition function, and its methods proved against it.
- `Overlay`, `FlipLog`, `Exposure`, `History`, `Strata`, `OpenRows`, `IdleTime`: what holds in every run of the
  engine.
- `OracleProtection`, `HammerOutcome`, `Campaign`, `CampaignOutcome`, `BonusHistory`, `OracleExactness`: when a row
  flips and when it cannot.
- `FlippedCells`, `CampaignCells`: which of its cells a row has flipped, one activation at a time and over a campaign.
- `CallHistory`, `DisturbedMemory`, `Rewards`: from single calls to runs, memory under the overlay, the rewards.
- `DeviceRows`, `CandidateWindow`, `WindowBuilders`, `TaskOutcome`: the mapper, the compiler and the engine composed.
- `ErrorCodes`, `CommandIssue`, `Episode`, `EpisodeRuns`, `ComposedEpisode`: command lists, budgets, whole episodes, and
  episodes over the memory and engine that their own calls changed.
- `Rollout`, `TrainingMask`: the batched driver against the sequential one, and the token masks.

## What is true only under a condition

- The projected capacity and the worker's product formula agree exactly when every level between Row and Column
  has size 1 (`DeviceGeometry.CapacitiesAgree`); the projection maps no level there, the worker counts all. They
  differ on the geometry of `DeviceGeometry.CapacitiesCanDiffer`.
- The comment beside the oracle's default threshold says that the refresh always fires before the exposure can
  cross. Dwells are not counted there. The row is protected if and only if two inequalities hold, one for each side
  condition, in which every activation counts for the most a dwell is worth (`OracleExactness.DefaultExact`). Every
  family of the shipped profile counts a long dwell for 16 activations or more, so the inequalities fail for it:
  `OracleExactness.LongDwellsDefeatDefault` gives the run that flips the row, and `OracleExactness.ShippedDefaultFails`
  its numbers for one family. What the default does protect from is every run whose dwells are worth at most a quarter
  more than an activation (`OracleProtection.DefaultProtectsKnownTarget`). Without dwell effects, a default below the
  single-sided threshold is enough (`OracleExactness.DefaultWithoutDwells`).
- The number and the distinctness of window candidates are promised on devices with at least `65 n + 130` rows
  for `n` candidates; roles are right on every device.
- The exact pair counts (`CampaignOutcomes.AlternatingFlips`, `CampaignCells.AlternatingCells` and the compiled forms of
  both) are for a row whose single-sided threshold, for its stored data, is above 1; at 1 a lone activation flips it.
- The digest's activation count falls short of the counter exactly when the last reply was served with activations
  but could not be folded into the engine (`CommandIssue.DigestIsCounter`, with an example in
  `CommandIssue.DigestCanFallShort`).

## Model

| member | source | states |
|---|---|---|
| AddrInversion.AddrInverter.constructor | cpp/ramulator_extensions/issued_event_recorder.cpp:47-62 | construction probes address 0 and every single address bit and leaves exactly the basis of the probe history; a total width outside 1 to 63 leaves the inverter not ready |
| AddrInversion.AddrInverter.PackLoop | cpp/ramulator_extensions/issued_event_recorder.cpp:105-117 | masking, shifting and or-ing the coordinates is the concatenation of the masked fields |
| AddrInversion.AddrInverter.Insert | cpp/ramulator_extensions/issued_event_recorder.cpp:119-130 | one in-place elimination pass over the 64 rows changes at most the first free pivot row |
| AddrInversion.AddrInverter.Solve | cpp/ramulator_extensions/issued_event_recorder.cpp:132-142 | the solving loop reports the recorded address bits of the reduction, or that a pivot is missing |
| AddrInversion.AddrInverter.EncodeCoords | cpp/ramulator_extensions/issued_event_recorder.cpp:64-83 | the three statuses, in order: not ready, out of range, then solve and check by decoding |
| AddrInversion.ProbedInvariant | cpp/ramulator_extensions/issued_event_recorder.cpp:56-60 | after any number of probes the basis is triangular, every row is the linear image of its recorded address bits, and the image of every probed address reduces to zero |
| AddrInversion.SolvedCorrect | cpp/ramulator_extensions/issued_event_recorder.cpp:132-142 | the solver answers exactly on targets in the span, with address bits whose image is the target |
| AddrInversion.EncodeSound | cpp/ramulator_extensions/issued_event_recorder.cpp:64-83 | for any mapper at all, an answer decodes to the request, and out of range is reported exactly for unacceptable coordinates |
| AddrInversion.EncodeExact | cpp/ramulator_extensions/issued_event_recorder.cpp:34-44 | for every affine mapper, coordinates are encoded if and only if they are in range and some device address decodes to them |
| AddrInversion.EncodeInverts | cpp/ramulator_extensions/issued_event_recorder.cpp:34-44 | where decoding is one to one, encoding the decode of an aligned address gives that address |
| RowXorMapping.Init | cpp/ramulator_extensions/row_xor_addr_mapper.cpp:41-69 | the checks, in order, amount to a mapped Bank and Row level and an offset below the Row width, each refusal has its own cause, and what is accepted is a layout that the decode admits, with the levels found by name |
| RowXorMapping.RoBaRaCoChRowXOR.SliceFields | cpp/ramulator_extensions/row_xor_addr_mapper.cpp:73-78 | slicing Column and then Rank up to Row off the low end, in place, is the field split of the address |
| RowXorMapping.RoBaRaCoChRowXOR.Apply | cpp/ramulator_extensions/row_xor_addr_mapper.cpp:71-93 | the in-place decode equals the field split followed by the row-to-bank scramble, which `DecodedBits.DecodedBit` describes bit by bit |
| RowXorMapping.RoBaRaCoChRowXOR.Decode | cpp/ramulator_extensions/issued_event_recorder.cpp:184-193 | the published decoder runs the mapper and pins the single channel to 0 |
| RowXorMapping.ScrambleInvolution | cpp/ramulator_extensions/row_xor_addr_mapper.cpp:79-92 | scrambling twice is the identity on every in-range coordinate vector |
| RowXorMapping.LevelsXor | cpp/ramulator_extensions/row_xor_addr_mapper.cpp:71-93 | the decode is linear over GF(2), coordinate by coordinate |
| RowXorMapping.LevelsOnto | cpp/ramulator_extensions/row_xor_addr_mapper.cpp:71-93 | every in-range coordinate vector has an explicit device address that decodes to it |
| RowXorMapping.LevelsOneToOne | cpp/ramulator_extensions/row_xor_addr_mapper.cpp:71-93 | a device address is recovered from its decode, for any field widths |
| RowXorMapping.RowXorAffine | cpp/ramulator_extensions/issued_event_recorder.cpp:34-44 | the packed decode of the secret mapper meets the inverter's affinity assumption on the whole device |
| RowXorMapping.RowXorDecodeEncode | cpp/ramulator_extensions/issued_event_recorder.cpp:64-83 | the inverter returns the very address for the decode of every aligned device address |
| RowXorMapping.RowXorEncodes | cpp/ramulator_extensions/issued_event_recorder.cpp:64-83 | the inverter answers every in-range coordinate vector, with the explicit preimage |
| DecodedBits.DecodedBit | cpp/ramulator_extensions/row_xor_addr_mapper.cpp:71-93 | every bit of a decoded level is its own address bit, except that a bank bit is compared with the row bit of the same number and a bank-group bit with the row bit that the secret offset chooses, where the row has such a bit |
| DecodedBits.OffsetsTellApart | cpp/ramulator_extensions/row_xor_addr_mapper.cpp:79-92 | devices that differ only in the secret offset decode an address differently if and only if some bank-group bit is folded with different row bits |
| DecodedBits.SecretMatters | cpp/ramulator_extensions/row_xor_addr_mapper.cpp:79-92 | two different secret offsets always decode some address differently, namely that of the single row bit at one of them, exactly when the bank group is mapped |
| Addressing.Pow2Accepted | rowhammer_env/geometry.py:6-9 | the bit trick accepts every power of two and returns its exponent |
| Addressing.AcceptedIsPow2 | rowhammer_env/geometry.py:6-9 | the bit trick accepts nothing but powers of two |
| Addressing.Project | rowhammer_env/tools/addressing.py:45-78 | the projection is built exactly for the geometries it can represent, with the placement, widths and offset they imply |
| Addressing.AddressMapper.PlaceFields | rowhammer_env/tools/addressing.py:70-78 | accumulating the shift puts every field right above the ones before it |
| Addressing.AddressMapper.Decode | rowhammer_env/tools/addressing.py:92-102 | shifting and masking each field is the field split of the address; the channel is 0 |
| Addressing.AddressMapper.Encode | rowhammer_env/tools/addressing.py:104-121 | encoding succeeds exactly when every field is an in-range integer and the channel is 0, with the joined word |
| Addressing.DecodeOfEncode | rowhammer_env/tools/addressing.py:92-121 | an encoded address is aligned, inside the device, and decodes to every requested field |
| Addressing.EncodeOfDecode | rowhammer_env/tools/addressing.py:92-121 | encoding the decode of any device address gives that address with its byte offset cleared |
| Addressing.DecodeAliases | rowhammer_env/tools/addressing.py:80-98 | a device address plus any multiple of the capacity decodes like the address itself |
| DeviceGeometry.RowStride | rowhammer_env/geometry.py:87-112 | the accumulated stride is the unit of the Row field in the public layout, which is a row's own bytes times the sizes of the levels below Row |
| DeviceGeometry.SpanIsColumnBlock | rowhammer_env/geometry.py:73-85 | a row's own bytes are the Column field above the transaction offset |
| DeviceGeometry.PublicDecode | rowhammer_env/tools/addressing.py:62-102 | in numbers: Column is the transaction count modulo the columns, every other level up to Row the count of blocks of everything below it, modulo its own size |
| DeviceGeometry.WorkerCapacity | cpp/simulator_service/ramulator_worker.cpp:249-258 | the product formula on published geometries with positive sizes, and 0 on every other one |
| DeviceGeometry.CapacitiesAgree | cpp/simulator_service/ramulator_worker.cpp:239-258 | it equals the projected capacity if and only if every level between Row and Column has size 1 |
| DeviceGeometry.CapacitiesCanDiffer | rowhammer_env/tools/addressing.py:77-81 | a geometry with a level of size 2 between Row and Column has a worker capacity of 16 and a projected one of 8 |
| DeviceGeometry.StrideMovesTop | rowhammer_env/geometry.py:87-101 | adding a stride moves Row by one and keeps every other raw field |
| DisturbanceEngines.DisturbanceEngine.Apply | rowhammer_env/disturbance.py:341-347 | a bit of a returned byte differs from the stored one exactly when the overlay holds that bit at that address |
| DisturbanceEngines.DisturbanceEngine.RestoreRange | rowhammer_env/disturbance.py:349-368 | the loop removes every overwritten address from overlay, owners, cells and row index |
| DisturbanceEngines.DisturbanceEngine.NoteRowWrite | rowhammer_env/disturbance.py:370-388 | the stored pattern of a row becomes all zeros or all ones exactly when all written bytes are 0x00 or 0xFF, and mixed otherwise; no other row is touched and an empty write changes nothing |
| DisturbanceEngines.DisturbanceEngine.Consume | rowhammer_env/disturbance.py:392-420 | a call folds its commands in order into a fresh report and then restores what a write overwrote |
| DisturbanceEngines.DisturbanceEngine.HammerRow | rowhammer_env/disturbance.py:424-469 | settle another open row, credit both sides at every distance, reopen, consult the oracle |
| DisturbanceEngines.DisturbanceEngine.MaybeFlipRow | rowhammer_env/disturbance.py:471-483 | a row with fewer than 64 flipped cells flips when its exposure reaches its active threshold; which cells is the subject of `FlippedCells.MaybeFlipLayer` |
| DisturbanceEngines.DisturbanceEngine.FlipRow | rowhammer_env/disturbance.py:485-511 | emitted cells enter overlay and owners one by one, each is reported with the row, stratum, address and bit of its cell, and the row enters the index |
| DisturbanceEngines.DisturbanceEngine.CloseBank | rowhammer_env/disturbance.py:516-538 | exactly the open banks in the scope of a close are settled, -1 meaning all |
| DisturbanceEngines.DisturbanceEngine.SettleDwell | rowhammer_env/disturbance.py:540-553 | the dwell of an open row is turned into a bonus for the rows it exposed, and the row is closed |
| DisturbanceEngines.DisturbanceEngine.RefreshRank | rowhammer_env/disturbance.py:569-598 | a completed window clears the exposures, and the oracle's counters, of its own rank |
| DisturbanceEngines.DisturbanceEngine.CountActivation | rowhammer_env/disturbance.py:602-636 | the oracle counts an activation and on reaching its threshold clears the neighbours' exposure |
| Overlay.RunSound | rowhammer_env/disturbance.py:256-266 | in every run, overlay, owners, the rows' cells and the flipped row keys determine each other, and every cell is among the first 64 of its row's sequence |
| Overlay.CellCap | rowhammer_env/disturbance.py:471-483 | in every run no row has more than 64 flipped cells and no byte two flipped bits |
| Overlay.OverlayCellsExact | rowhammer_env/disturbance.py:733-748 | of several sampled cells in one byte exactly the last is kept, so no byte has two |
| Overlay.IndexIsExact | rowhammer_env/disturbance.py:262-266 | with disjoint row blocks, a key is in the index just when some overlay address lies in that row |
| Overlay.NoTheft | rowhammer_env/disturbance.py:485-511 | with disjoint row blocks, a flip never takes a cell from another row |
| Overlay.RestoredCanFlipAgain | rowhammer_env/disturbance.py:720-748 | an overwritten cell leaves its row and is emitted again by every flip that covers it |
| FlipLog.ReportReconstructsOverlay | rowhammer_env/disturbance.py:485-511 | the reported flips and the overwrites alone reconstruct the overlay after every action, so only overwrites remove an address |
| FlipLog.FlipsConserved | rowhammer_env/disturbance.py:349-368 | all flips ever reported equal the overlay's size plus addresses cleared by writes plus replacements in place |
| History.RefreshCountIsHistory | rowhammer_env/disturbance.py:569-580 | the refresh counter of a rank is the number of refreshes issued to it |
| History.OracleCountIsHistory | rowhammer_env/disturbance.py:602-636 | the oracle's counter of a row is its activations in the current window modulo the period |
| History.FiringIsHistory | rowhammer_env/disturbance.py:618-636 | the oracle fires at exactly the activations that the history singles out |
| History.OracleRefreshesAreFirings | rowhammer_env/disturbance.py:602-636 | the oracle refreshes reported in a run are its firings, each counted once |
| History.ExposureIsHistory | rowhammer_env/disturbance.py:424-469 | in every run the two counters of a row are the weighted activations of its left and right neighbours in the same bank since the last window boundary of its rank or oracle firing of a neighbour |
| Strata.PatternIsLastWrite | rowhammer_env/disturbance.py:370-388 | a row counts as all ones exactly when the last non-empty write to it was all 0xFF |
| Strata.StratumIsLatched | rowhammer_env/disturbance.py:640-668 | a victim keeps, for its thresholds, the stratum of the data stored when its row was first exposed |
| Strata.DrawnFromData | rowhammer_env/disturbance.py:640-668 | a victim has the calibrated thresholds and first bit if it is the known row, and otherwise the two samples for the data stored when its row was first exposed |
| Strata.FactorShape | rowhammer_env/disturbance.py:555-565 | the dwell factor is 1 up to 512 cycles, linear from there to 100,000 cycles, and the reduction from then on |
| Strata.MultiplicityShape | rowhammer_env/disturbance.py:703-718 | a row that just reaches its threshold flips one bit, and more exposure never recruits fewer, up to 64 |
| OpenRows.OpenIsHistory | rowhammer_env/disturbance.py:516-538 | the open-row table holds exactly the banks whose latest activation no covering close has followed, with that activation's row, clock and exposed rows |
| OpenRows.ScopeMeaning | rowhammer_env/disturbance.py:516-538 | a fully given scope covers one bank, -1 in its bank coordinates covers the rank, and -1 everywhere covers all |
| OpenRows.SettledOnce | rowhammer_env/disturbance.py:540-553 | no activation's dwell is settled twice |
| OpenRows.CommandClasses | rowhammer_env/disturbance.py:50-69 | the class of every command: ACT hammers, PRE commands, RDA and WRA close, REF and RFM commands refresh, RD, WR and VRR do nothing, and no other command does anything |
| IdleTime.IdleTimeIsInvisible | rowhammer_env/disturbance.py:540-565 | idle time inserted while no row is open changes nothing but the clocks, at every later point |
| OracleProtection.RunGuarded | rowhammer_env/disturbance.py:602-636 | over every run, each side's exposure is at most its aggressor's counter, and the bonus at most what the run's dwells are worth, for the activations since the last clear plus one |
| OracleProtection.ProtectedNeverFlips | rowhammer_env/disturbance.py:602-636 | a row protected from what the dwells and the activated neighbours of a run amount to never holds a flipped cell in it, for any interleaving of commands and writes |
| OracleProtection.ScaledPeriodProtects | rowhammer_env/disturbance.py:424-483 | a row with twice the period times the dwell factor within its double-sided threshold, and the period times the factor below its single-sided one, is protected |
| OracleProtection.DefaultProtectsKnownTarget | rowhammer_env/disturbance.py:233-237 | the default threshold protects the calibrated row in every run whose dwells are worth at most a quarter more than an activation, under any profile |
| HammerOutcome.VictimsAreNeighbours | rowhammer_env/disturbance.py:640-665 | after any run the victims are exactly the existing rows within the blast radius of some activation |
| HammerOutcome.CrossingFlips | rowhammer_env/disturbance.py:471-511 | a clean row that crosses its threshold gets its first byte flipped |
| HammerOutcome.CreditAllDecides | rowhammer_env/disturbance.py:447-469 | one activation flips a clean row exactly when its own new counts cross the threshold for its stored data, whatever other rows it exposes |
| FlippedCells.MaybeFlipLayer | rowhammer_env/disturbance.py:471-511 | an exposure E at threshold T asks for the first 1 + floor((E/T - 1) * gain) cells of the row, at most 64, none below the threshold; of those in one byte the last one stays, and other bytes keep what they had |
| FlippedCells.CreditAllLayer | rowhammer_env/disturbance.py:705-746 | one activation layers exactly the cells that its own new counts ask for over those of the row, whatever other rows it exposes |
| Campaigns.CampaignCounts | rowhammer_env/disturbance.py:447-469 | under nominal dwells and within a refresh window, in runs that may write before they hammer, the counters of a row are the plain activation counts of its neighbours |
| Campaigns.CampaignStep | rowhammer_env/disturbance.py:424-469 | in such a campaign a passive command, a refresh among them, leaves the row and the overlay alone, and an activation only credits |
| CampaignOutcomes.CampaignOutcome | rowhammer_env/disturbance.py:447-511 | within a refresh window the row and its first byte are flipped after n actions exactly when the counts crossed by then the threshold for the data written before |
| CampaignOutcomes.AlternatingFlips | rowhammer_env/disturbance.py:447-483 | within a refresh window alternating activations flip the row exactly once ceil(T/2) pairs are complete, never earlier, T being the threshold for the data written before |
| CampaignCells.CampaignRecruits | rowhammer_env/disturbance.py:471-511 | within a refresh window the cells of the row after n actions are exactly the requests of the counts so far, each layered over the earlier ones |
| CampaignCells.AlternatingCells | rowhammer_env/disturbance.py:705-746 | after p alternating pairs the row holds exactly the cells kept from the first 1 + floor((2p/T - 1) * gain) of its sequence, at most 64, and none while 2p is below T |
| BonusHistory.BonusIsHistory | rowhammer_env/disturbance.py:540-565 | a row's dwell bonus is the extra worth of the dwells settled since it was last cleared, each activation counted at most once and none while the row was full |
| BonusHistory.DistinctIsSingle | rowhammer_env/disturbance.py:447-469 | a blast radius with distinct distances exposes a row at most once per activation |
| OracleExactness.AttackFlips | rowhammer_env/disturbance.py:569-636 | an explicit run that primes the oracle, then activates long open rows one time less than the period, flips every row whose threshold it reaches |
| OracleExactness.OracleExact | rowhammer_env/disturbance.py:602-636 | over all runs on any given set of rows, with dwell effects and any stored pattern, the oracle protects a row if and only if the row meets the protection condition for the neighbours in the set, or has none there |
| OracleExactness.DefaultExact | rowhammer_env/disturbance.py:233-237 | the default threshold protects the calibrated row if and only if it meets two inequalities in the thresholds and the dwell reduction |
| OracleExactness.DefaultWithoutDwells | rowhammer_env/disturbance.py:233-237 | without dwell effects the default protects the calibrated row if and only if it is below the single-sided threshold |
| OracleExactness.LongDwellsDefeatDefault | rowhammer_env/disturbance.py:233-237 | with a dwell reduction of 3 or more an explicit run flips the calibrated row under the default threshold |
| OracleExactness.ShippedDefaultFails | rowhammer_env/disturbance.py:233-237 | at the numbers of a shipped family, 5000, 10000 and 18.666667, the run that flips the calibrated row under the default threshold of 2000 |
| DeviceRows.RowIsBlock | rowhammer_env/disturbance.py:308-333 | a row's addresses are exactly the aligned block of one row span at its anchor, for every secret offset |
| DeviceRows.EncoderIsInverter | rowhammer_env/phase4_env.py:153-169 | the worker's inverter answers column 0 of every row with its anchor |
| DeviceRows.StrideLeavesBank | cpp/ramulator_extensions/row_xor_addr_mapper.cpp:79-88 | an address and the address one stride above are in neighbouring rows of different banks |
| DeviceRows.ReportMatchesDevice | rowhammer_env/geometry.py:73-112 | stride, span and capacity derived from the report are those of the device behind the secret mapper |
| DeviceRows.FixedIsOnDevice | rowhammer_env/disturbance.py:150-278 | every device admits engine configurations anchored by its mapper's inverse, for any thresholds |
| DeviceRows.RankCommandsAreDecoded | rowhammer_env/disturbance.py:516-524 | a run may be continued by a rank-scoped precharge and refresh, whose bank coordinates are -1, and still counts as a run of the device |
| DeviceRows.RewardIsExact | rowhammer_env/rewards/predicates.py:27-42 | in every run of a device, a row key is in the reward's index exactly when some flipped address decodes to that row |
| DeviceRows.FlipsNeverSteal | rowhammer_env/disturbance.py:485-511 | in every run of a device the branch that takes a cell from another row is never taken |
| CandidateWindows.MixedInvolution | rowhammer_env/tasks/compiler.py:484-512 | at a fixed row the decoded bank slots are a bijection of the banks |
| CandidateWindows.SlotDecodes | rowhammer_env/tasks/compiler.py:504-512 | every raw slot address is column 0 of the row and bank it decodes to |
| CandidateWindows.BankSlotAddrs | rowhammer_env/tasks/compiler.py:484-513 | decoding all raw slots yields each bank exactly once, with its address at that row |
| WindowBuilders.TargetIsAnchor | rowhammer_env/tasks/compiler.py:409-414 | the row-aligned target address is column 0 of the row it decodes to, in rank 0 |
| WindowBuilders.AddFar | rowhammer_env/tasks/compiler.py:558-562 | as many decoys as asked for, or all there are, drawn from the complete list of rows of the target's bank outside the margin, all different |
| WindowBuilders.AddOtherBanks | rowhammer_env/tasks/compiler.py:564-577 | the fill loop ends with exactly the wanted number of other-bank decoys, all different when the device is roomy |
| WindowBuilders.BuildCandidates | rowhammer_env/tasks/compiler.py:515-581 | for every draw and secret offset: both physical neighbours as aggressors, half of the decoys in other banks and the others far in the target's bank as long as there are any, all shown in the order of the generator's last draw; n distinct offsets when the device is roomy |
| WindowBuilders.ExactlyTwoAggressors | rowhammer_env/tasks/compiler.py:545-550 | in a window the two neighbours are different candidates and the only aggressors |
| WindowBuilders.AddShell | rowhammer_env/tasks/compiler.py:626-644 | the adjacent shell alternates between both sides, is as large as fits, and is complete whenever it fits the window |
| WindowBuilders.BuildNumericCandidates | rowhammer_env/tasks/compiler.py:583-670 | the same for the numeric window: the adjacent rows of other banks come first, from below and above in turn, then far rows; the whole shell is there from twice as many candidates as banks on; shown in the order of the last draw |
| WindowBuilders.DrawsAll | rowhammer_env/tasks/compiler.py:579-581 | a shuffle keeps every candidate |
| WindowBuilders.ShownAnywhere | rowhammer_env/tasks/compiler.py:579-581 | for any two positions, and whatever the other draws are, some fair shuffle shows the two aggressors there |
| TaskOutcomes.DecoysNeverExpose | rowhammer_env/tasks/compiler.py:556-577 | no run that activates only decoys of a window ever exposes or flips the target |
| TaskOutcomes.StrideNeverExposes | rowhammer_env/tasks/compiler.py:592-606 | no run that activates only the rows one stride above and below the target ever exposes it |
| TaskOutcomes.CompiledPairFlips | rowhammer_env/tasks/compiler.py:409-428 | alternating the two compiled aggressors, after any writes, puts the compiled target address in the overlay, and the target in the reward index, exactly from pair ceil(T/2) on; refreshes below a window boundary change nothing |
| TaskOutcomes.CompiledPairCells | rowhammer_env/disturbance.py:640-746 | the overlay in the target's row holds exactly the cells that twice the pairs ask for, and while that is one cell, it is the compiled target bit, or the sampled first bit of another row, at the compiled address |
| TaskOutcomes.OracleOnDevice | rowhammer_env/disturbance.py:602-636 | on every device the oracle protects a compiled target over all runs on the device's rows if and only if the target meets the protection condition |
| TaskOutcomes.BonusOnDevice | rowhammer_env/disturbance.py:540-553 | on every device with different blast distances the bonus of every row equals that function of the history, in every run |
| CallHistories.CallsAreRun | rowhammer_env/disturbance.py:392-420 | after any sequence of calls the engine's dictionaries are those of the run the calls spell out |
| DisturbedMemories.Worker.Read | cpp/simulator_service/ramulator_worker.cpp:270-306 | a read is served exactly for one to tx bytes inside the capacity, if published, and a completed request, with the stored bytes; each failure has its code; cycles and activations are counted |
| DisturbedMemories.Worker.ReadStored | cpp/simulator_service/ramulator_worker.cpp:270-297 | the trusted form returns one stored byte and touches no request, cycle or counter |
| DisturbedMemories.Worker.Write | cpp/simulator_service/ramulator_worker.cpp:308-324 | a write changes exactly its range, exactly when it is admitted and completed, with the code of each failure |
| DisturbedMemories.DisturbedMemory.Read | rowhammer_env/phase4_env.py:210-240 | a policy read returns the stored bytes under the overlay left by its own commands |
| DisturbedMemories.DisturbedMemory.Write | rowhammer_env/phase4_env.py:218-236 | a write notes the row that its only write command decoded to, folds its commands, restores its range, and reads back exactly as written; without exactly one such command it is stored but not folded |
| DisturbedMemories.OneWriteIsSole | rowhammer_env/phase4_env.py:221-236 | a reply counts as one write exactly when a single command is a write and its row is known, and that row is the one noted |
| DisturbedMemories.CountActsIsCount | cpp/simulator_service/ramulator_worker.cpp:391-395 | activations are counted once per ACT command |
| DisturbedMemories.DisturbedMemory.TrustedReadByte | rowhammer_env/phase5_env.py:348-374 | the reward's reader returns the byte a policy read would show now, and changes nothing |
| DisturbedMemories.ReadableByte | rowhammer_env/disturbance.py:341-347 | at any point of any history a readable byte differs from the one written last in exactly the bit that the overlay holds there, and what the overlay holds is a bit of the byte |
| Rewards.AnyFlipIsSomeRow | rowhammer_env/rewards/predicates.py:45-48 | some flip exists exactly when some row key is indexed |
| Rewards.CellSuccessIsRowSuccess | rowhammer_env/rewards/predicates.py:27-71 | a cell or pattern success is a row success, and a row success an any-flip success |
| Rewards.CellSuccessNeedsDisturbance | rowhammer_env/rewards/predicates.py:52-60 | the cell predicate holds exactly when the requested bit is flipped and the stored bit is the opposite of the requested one |
| Rewards.PatternSuccessExactly | rowhammer_env/rewards/predicates.py:62-71 | the pattern predicate holds exactly when the target byte has a flipped bit and every bit of the mask is stored as requested, the flipped one as the opposite |
| CommandIssue.ExpandCommands | rowhammer_env/phase2_env.py:151-205 | the expansion loops, one emitted primitive at a time, compute the specified expansion or the first fault |
| CommandIssue.ExpansionIsExplicit | rowhammer_env/phase2_env.py:154-171 | expansion succeeds exactly on well-formed lists within the cap, and is the list written out |
| CommandIssue.CommandAlone | rowhammer_env/phase2_env.py:181-205 | what each command expands to on its own: the code of every malformed one, one read per row and sweep, and a single copy of a primitive without a count |
| CommandIssue.ExpansionFault | rowhammer_env/phase2_env.py:174-205 | a refused list is refused for its first malformed command or the first that passes the cap, with that fault's code |
| CommandIssue.SweepsAlternate | rowhammer_env/phase2_env.py:160-166 | a hammer reads row i modulo the rows at position i |
| CommandIssue.ValidateIssue | rowhammer_env/phase2_env.py:473-500 | the validation loop computes the specified fault and sends nothing |
| CommandIssue.AcceptedExactly | rowhammer_env/phase2_env.py:473-500 | an issue is accepted exactly when every primitive resolves and its distinct tokens fit the digest |
| CommandIssue.RefusedForFirst | rowhammer_env/phase2_env.py:473-500 | a refused issue is refused for the first primitive with a fault of its own or with the token that overfills the digest |
| CommandIssue.TokenKeysAre | rowhammer_env/phase2_env.py:484-500 | the tokens counted are those of the reads and writes, each once |
| CommandIssue.DispatchAll | rowhammer_env/phase2_env.py:399-435 | each primitive of the prefix is sent as what it is: a read of its resolved address, a write of exactly its payload there, or a wait of its cycles; the address-error branch is never reached |
| CommandIssue.SentIsPrefix | rowhammer_env/phase2_env.py:399-435 | the prefix stops at the first point at the ceiling or at the first failing reply, and nowhere else |
| CommandIssue.CeilingHolds | rowhammer_env/phase2_env.py:399-409 | with at most k activations a reply, an issue ends at most k-1 above its ceiling |
| CommandIssue.DigestIsCounter | rowhammer_env/phase2_env.py:94-111 | the digest's activation count is the counter increase if and only if the last reply was not served with activations and then lost before the engine |
| CommandIssue.FlipsAreSum | rowhammer_env/phase2_env.py:436-452 | the flips of an issue are those of its served replies and no others |
| CommandIssue.DigestCanFallShort | rowhammer_env/phase2_env.py:399-435 | a reply with one activation that is not folded: the counter rises to 1 and the digest shows 0 |
| Episodes.TaskEnv.Charge | rowhammer_env/phase5_env.py:316-328 | one tool call, the cycles and the new activations are debited, and overdraft ends the episode |
| Episodes.TaskEnv.Issue | rowhammer_env/phase2_env.py:356-471 | expansion, validation and dispatch combined, with the error and the end-of-episode flag of each outcome |
| Episodes.TaskEnv.Dispatch | rowhammer_env/phase5_env.py:165-187 | dispatch, charge, latch, in this order; an unreadable target byte refuses the step |
| Episodes.TaskEnv.StepCall | rowhammer_env/phase5_env.py:134-163 | an over or unpaid step is refused before anything is dispatched |
| EpisodeRuns.RunConsistent | rowhammer_env/phase5_env.py:301-328 | over every run: the budget is split between left and charged, and a live episode is not overdrawn, charged up to date and not yet won |
| EpisodeRuns.BudgetConserved | rowhammer_env/phase5_env.py:316-328 | the activations left and charged always add up to the initial budget |
| EpisodeRuns.CyclesConserved | rowhammer_env/phase5_env.py:316-328 | while an episode runs, the cycles left and the cycles that passed add up to the budget |
| EpisodeRuns.IssueWithinBudget | rowhammer_env/phase5_env.py:301-314 | an issue never drives the counter above the budget plus k-1 |
| EpisodeRuns.SendsWithinBudget | rowhammer_env/phase2_env.py:399-409 | an issue sends its next primitive exactly while the counter is below the budget, so it is never cut with activations left |
| EpisodeRuns.TruncatedIssueEnds | rowhammer_env/phase2_env.py:463-470 | an issue cut at the ceiling ends the episode and reports the exhausted budget |
| EpisodeRuns.CounterWithinBudget | rowhammer_env/phase5_env.py:301-328 | no run of direct calls drives the counter above the budget plus k |
| EpisodeRuns.EndsInTime | rowhammer_env/phase5_env.py:134-163 | every episode is over after its tool calls plus one step |
| EpisodeRuns.StepAnswers | rowhammer_env/phase5_env.py:134-187 | the error of every admitted call short of success, and the episode ends exactly with an exhausted budget, a simulator failure or a finish |
| EpisodeRuns.StepLeaves | rowhammer_env/phase5_env.py:165-204 | the worker is closed exactly by a finish or an unreadable target byte, success is latched exactly when the objective is met, and every call is paid for unless a finish could not be judged |
| EpisodeRuns.RefusedStep | rowhammer_env/phase5_env.py:134-163 | a step after the end, or without a tool call left, is refused with the code of its reason and ends the episode |
| EpisodeRuns.OverIsFrozen | rowhammer_env/phase5_env.py:189-204 | once over, no step changes anything but closing the worker, and none shows a reward |
| EpisodeRuns.RewardExactly | rowhammer_env/phase5_env.py:333-345 | reward 1 is shown exactly by the admitted step at which the trusted predicate holds |
| EpisodeRuns.RewardOnce | rowhammer_env/phase5_env.py:134-187 | at most one observation of an episode carries reward 1 |
| EpisodeRuns.RejectedIssueIsFree | rowhammer_env/phase2_env.py:370-380 | an issue that fails expansion or validation moves no counter and costs one tool call |
| ComposedEpisodes.RewardIsTrusted | rowhammer_env/phase5_env.py:328-345 | with the predicate read from what the turns left in memory and engine, a turn shows reward 1 exactly when it is admitted and that state meets the objective |
| ComposedEpisodes.RewardIsFlippedRow | rowhammer_env/rewards/predicates.py:27-42 | on a device, an episode with a row objective shows reward 1 in exactly the admitted turns after which some overlay address decodes to the target row |
| ComposedEpisodes.RewardIsFlippedCell | rowhammer_env/rewards/predicates.py:52-60 | an episode with a cell objective shows reward 1 in exactly the admitted turns after which the target bit is flipped, at a readable address, and the byte written last holds its opposite |
| ComposedEpisodes.RewardIsFlippedPattern | rowhammer_env/rewards/predicates.py:62-71 | an episode with a pattern objective shows reward 1 in exactly the admitted turns after which the readable target byte has a flipped bit and every masked bit, as written last, is the requested one unless it is the flipped one |
| ComposedEpisodes.UnreadableEnds | rowhammer_env/phase5_env.py:333-374 | a flip that cannot be judged, because the worker does not serve its byte, closes the worker and ends the episode with a simulator failure and no reward |
| ComposedEpisodes.Serve | rowhammer_env/phase4_env.py:210-240 | one primitive on the memory object leaves the store and the dictionaries that the history of the episode says |
| ComposedEpisodes.IssueStores | rowhammer_env/phase2_env.py:411-435 | after an issue the memory holds exactly what its unrefused write requests carried, over what it held before |
| ComposedEpisodes.IssueTurnStores | rowhammer_env/phase2_env.py:411-435 | the same for an admitted issue turn of an episode |
| ComposedEpisodes.TurnStores | rowhammer_env/phase2_env.py:318-333 | a direct write stores its payload, and no other turn but an issue stores anything |
| ComposedEpisodes.IssueFolds | rowhammer_env/phase4_env.py:218-240 | the engine receives every command of the served replies once and in order, and no other |
| ComposedEpisodes.EngineSeesActivations | rowhammer_env/phase4_env.py:210-240 | while every reply can be folded, the engine has seen exactly the activations that the environment counted and charged |
| Rollouts.DriveAlone | rowhammer_env/llm/multiturn_rollout.py:293-343 | the sequential driver's loop is the episode run alone for at most the given turns |
| Rollouts.RecordsTrue | rowhammer_env/llm/multiturn_rollout.py:293-343 | an episode run alone records at most the given turns, fewer only when done; every record is the policy's completion on all before it, its parsed call, the environment's answer and its reward; and the dialogue shows exactly these turns |
| Rollouts.EpisodeState.Advance | rowhammer_env/llm/multiturn_rollout.py:399-416 | beginning and ending a turn on the object is one turn of the sequential driver |
| Rollouts.BatchToolPolicyGenerator.Generate | rowhammer_env/llm/multiturn_rollout.py:522-539 | with distinct ids every request is answered and advanced by its own policy, and no other policy moves |
| Rollouts.RunBatched | rowhammer_env/llm/multiturn_rollout.py:439-472 | every batched episode ends with the messages, trajectory, reward and done of running it alone |
| TrainingMask.AssembleExample | rowhammer_env/llm/multiturn_rollout.py:650-680 | the assembly loop yields the completion part of the specified ids and mask, or refuses; the mask is 1 on the sampled completions and 0 on every other token |
| TrainingMask.SampledMaskExact | rowhammer_env/llm/multiturn_rollout.py:662-680 | ids and mask have equal length, the mask is 1 exactly on the sampled completions and 0 elsewhere, these are the sampled tokens in order, and each sampled span follows the very context it came from |
| TrainingMask.CompletionExact | rowhammer_env/llm/multiturn_rollout.py:679 | cutting off the first context loses no sampled token |
| TrainingMask.RefusedExactly | rowhammer_env/llm/multiturn_rollout.py:667-679 | assembly is refused exactly when a sampled context does not extend what was assembled before it |
| TrainingMask.CommonPrefixLen | rowhammer_env/llm/multiturn_rollout.py:568-574 | the loop computes the longest common prefix |
| TrainingMask.BuildMasked | rowhammer_env/llm/multiturn_rollout.py:577-647 | it succeeds exactly when every assistant turn stands where its context ends, and then the ones are exactly those spans |
| TrainingMask.RenderedMaskExact | rowhammer_env/llm/multiturn_rollout.py:577-602 | with a prefix-consistent template no turn is refused, spans are disjoint and in order, and the prompt split loses none |

## Left out

- Ramulator itself: scheduling, timing and the recorder's row-hit flags; its output is an arbitrary sequence of
  decoded commands, with a bound on activations per reply where a theorem needs one. `AddrMapperBase` and
  `slice_lower_bits` are not part of this model; the row-XOR decode takes its widths and offset from a layout.
- Threshold and first-bit sampling, cell sequences, multiplicity gains and profile fitting: functions of the
  configuration; a device's cell sequences stay inside the row and start at byte 0. Rounding of floats: reals.
- The random generator of the compiler: shuffles and samples are arbitrary draws of different indices. The
  worker's replies and address resolution are parameters of an episode's step. So is the success predicate's answer in
  `Episode`; `ComposedEpisode` reads it from the state that the turns left.
- `Victim` objects are values in the engine's map, updated by key, not separately allocated objects.
- A failing row encoder, which ends the episode in the middle of a call: the encoder is total on device rows.
- The 64-bit wrap of the worker's capacity product, and zero bytes that a C++ map lookup inserts.
- Multi-channel and pseudo-channel geometries; the composed device has rank, bank group, bank, row and column.
- WindowBuilders.BuildCandidates: the target row is required to have a neighbour on both sides, as the
  compiler's own row draw gives on devices of ordinary size; targets on tiny devices are not modelled.
- WindowBuilders.AddOtherBanks: which rows the decoys of other banks take is stated only as faithful, and distinct on
  a roomy device.
- The remaining compiled fields (bit, value, mask, budgets, disclosure) and the known-target overrides.
- Campaigns.CampaignCounts: the exact outcome is for a blast radius of one row, nominal dwells and runs that complete no
  refresh window of the row's rank.
- `script.run`: its inner calls are direct calls, but a script without any consumes no tool call, so
  termination is about direct calls.
- Trace tails, per-address digest buckets, public flip lists of an issue and other feedback of the observation.
- Rollouts.RunBatched: environments are independent values and the HTTP driver's concurrent stepping is not
  modelled.
- Manifests, YAML, subprocess pipes, the script sandbox, servers, prompts, training scripts and disclosure levels.
