# CometBFT → Rollkit state migration, modelled in Dafny

This project models the migration command of `sdk/migration/migration_cmd.go`. The command
turns a CometBFT node's persisted history into Rollkit's storage schema:

- it loads the CometBFT chain state;
- it converts the state into a Rollkit state record (`rollkitStateFromCometBFTState`) and
  writes it to the Rollkit store once;
- it then runs a counter from the last block height down to 1. Each iteration:
  - converts a CometBFT block into a Rollkit header, data and signature triple
    (`cometBlockToRollkit`) and saves it;
  - when vote extensions are enabled at the block's height, builds an ABCI extended-commit
    record from the block's extended commit and saves that as well. Each vote's power is
    looked up by a first-match address scan of the last validator set, with 0 as the default.

Files and modules:

- `base.dfy` (`Base`): the Go integer widths and `Option`. Go's `uint64(int64)` conversion is
  `ToUint64`, with two's-complement wrap-around made explicit.
- `comet.dfy` (`Comet`): the CometBFT records the migration reads. It includes
  `ConsensusParams.ToProto` (with its inverse) and CometBFT's `VoteExtensionsEnabled` rule.
- `rollkit.dfy` (`Rollkit`): the Rollkit records the migration writes.
- `transform.dfy` (`Transform`):
  - the state transformer;
  - the block transformer, a method with the source's two loops;
  - the extended-commit builder, a method with the source's nested loops;
  - the first-match lookups they use, each with an independent characterisation.
- `target_store.dfy` (`TargetStore`): the Rollkit store, a class whose log of accepted writes
  is updated in place. A backend verdict `rejects` decides which writes fail.
- `migration.dfy` (`Migration`):
  - the driver as written, `MigrateToRollkit`;
  - the corrected driver, `MigrateByHeight`;
  - the pure description of a run, `MigrationRun`, which both drivers are proved against.

  A `LoadPolicy` says which height an iteration loads from: the fixed last block height, as
  the code does, or the counter's own height.
- `migration_properties.dfy` (`MigrationProperties`): properties of runs. They cover ordering,
  the iteration count, the failure policy, and which heights are written.

The loop `for height := lastBlockHeight; height > 0; height--` (`migration_cmd.go:63`) reads
its counter `height` only in its own header. Both loads in the body, `LoadBlock` (`:64`) and
`LoadBlockExtendedCommit` (`:74`), pass `lastBlockHeight` instead. A counter that runs over
every height but is never used in the body evidently was meant to select the height to load.
`MigrateToRollkit` models the code as written. "## Findings" records the discrepancy, and
`MigrateByHeight` is the driver that loads at `height`, with its intended behaviour proved.

## Model

| member | source | states |
|---|---|---|
| Base.ToUint64 | sdk/migration/migration_cmd.go:214-215 | Go's `uint64(x)` of an int64: the identity on non-negative values, and `x + 2^64` for negative ones |
| Comet.ProtoRoundTrip | sdk/migration/migration_cmd.go:221 | reading back the proto form of the consensus parameters gives the original parameters, so `ToProto` loses nothing |
| Transform.RollkitStateFromCometBFTState | sdk/migration/migration_cmd.go:209-231 | the conversion is total. InitialHeight and LastBlockHeight are both `uint64(LastBlockHeight)`, and equal it when it is non-negative. DAHeight is 1. The consensus parameters decode back to the source's. LastHeightConsensusParamsChanged is `uint64` of the source's. Version, chain ID, last block ID and time, app and results hashes, all three validator sets and LastHeightValidatorsChanged are copied verbatim |
| Transform.StateConversionForgetsOnlyInitialHeight | sdk/migration/migration_cmd.go:209-231 | two CometBFT states convert to the same Rollkit state if and only if they differ at most in their own InitialHeight. No other field is lost, because the int64-to-uint64 reinterpretations are injective |
| Transform.FirstIndex | sdk/migration/migration_cmd.go:120-125 | the first-match scan: a found index holds the address and no earlier index does; a None result means no index holds it |
| Transform.ProposerSignatureIsFirstMatch | sdk/migration/migration_cmd.go:119-125 | the returned signature is the empty signature when no last-commit entry has the proposer's address. Otherwise it is the signature of the earliest entry that has it |
| Transform.CometBlockToRollkit | sdk/migration/migration_cmd.go:111-167 | the loop's signature is the first-match proposer signature. The header is the block's converted header carrying that signature. The data's metadata comes from the block, and its transactions equal the block's in number, content and order |
| Transform.BlockTripleAgrees | sdk/migration/migration_cmd.go:127-161 | header and data metadata carry the same height, time and chain ID, all taken from the block. LastDataHash equals the header's DataHash, which is the block's. LastHeaderHash equals LastCommitHash, which is the block's LastCommitHash. The header carries the returned signature and the state's current validators and proposer, whatever the block's height |
| Transform.HeaderIgnoresLastBlockId | sdk/migration/migration_cmd.go:138-139 | the converted header, LastHeaderHash included, does not depend on the block's LastBlockID |
| Transform.PowerOfIsFirstMatch | sdk/migration/migration_cmd.go:81-87 | a vote's power is 0 when no last validator has its address. Otherwise it is the power of the earliest validator that has it |
| Transform.PowerOfAgreesWithIndex | sdk/migration/migration_cmd.go:81-87 | the linear scan agrees with a lookup in an address-keyed index in which earlier validators win, with 0 for an absent address |
| Transform.ExtendedCommitInfoOf | sdk/migration/migration_cmd.go:76-98 | the record keeps the round and holds one vote record per vote, in list order |
| Transform.BuildExtendedCommitInfo | sdk/migration/migration_cmd.go:76-98 | the nested loops build exactly the record: one vote record per vote, in order. Each record holds the vote's address, its first-match power, its extension, its extension signature and its block-ID flag |
| TargetStore.Store.UpdateState | sdk/migration/migration_cmd.go:58-61 | a state write succeeds exactly when the backend accepts it; it appends the state on success and changes nothing on failure |
| TargetStore.Store.SaveBlockData | sdk/migration/migration_cmd.go:67-70 | a block write succeeds exactly when the backend accepts it; it appends the triple on success and changes nothing on failure |
| TargetStore.Store.SaveExtendedCommit | sdk/migration/migration_cmd.go:100 | an extended-commit write succeeds exactly when the backend accepts it; it appends the record on success and changes nothing on failure |
| Migration.MigrateBlockAt | sdk/migration/migration_cmd.go:64-101 | one iteration succeeds exactly when its block write is accepted. It then appends the block triple and, if vote extensions are enabled at the block's height and the backend accepts it, the extended-commit record, with that record's height taken from the header. On failure nothing is written |
| Migration.MigrateToRollkit | sdk/migration/migration_cmd.go:42-105 | the driver as written. Its outcome and its writes are exactly those of `MigrationRun` when every iteration loads at the fixed last block height |
| Migration.MigrateBlocksAtLastHeight | sdk/migration/migration_cmd.go:63-102 | the loop as written runs its counter from `lastBlockHeight` down to 1, so iteration i has counter value `lastBlockHeight - i`. Every iteration loads at `lastBlockHeight`. Its writes and outcome are those of the planned iterations run in order, stopping at the first rejected block write |
| Migration.MigrateByHeight | sdk/migration/migration_cmd.go:42-105 | the corrected driver. Its outcome and its writes are exactly those of `MigrationRun` when every iteration loads at the counter's height |
| Migration.MigrateBlocksByHeight | sdk/migration/migration_cmd.go:63-102 | the corrected loop runs its counter from `lastBlockHeight` down to 1, so iteration i has counter value `lastBlockHeight - i`, and it loads at that value. Its writes and outcome are those of the planned iterations run in order, stopping at the first rejected block write |
| MigrationProperties.StateWrittenOnceBeforeBlocks | sdk/migration/migration_cmd.go:42-62 | nothing is written when the state cannot be loaded or its write is rejected. Otherwise the converted state is the first write and no later write is a state write |
| MigrationProperties.CompletesIffEveryBlockSaved | sdk/migration/migration_cmd.go:58-70 | a run completes if and only if the state write and the block write of each of the `lastBlockHeight` iterations are accepted. It then holds exactly `lastBlockHeight` block records; a failed block write ends it with fewer |
| MigrationProperties.ExecuteCompletesIffNoBlockRejected | sdk/migration/migration_cmd.go:63-70 | a sequence of iterations completes exactly when no block write is rejected. A failure is always a block-write failure |
| MigrationProperties.ExtendedCommitRejectionIgnored | sdk/migration/migration_cmd.go:100 | whether extended-commit writes are accepted changes neither the outcome of a run nor any of its other writes |
| MigrationProperties.AsWrittenSavesOnlyLastBlock | sdk/migration/migration_cmd.go:63-74 | as written, every write after the state is either the converted block at the last block height or that height's extended-commit record |
| MigrationProperties.AsWrittenRepeatsLastHeight | sdk/migration/migration_cmd.go:63-74 | as written, with every write accepted, the run writes the last block `lastBlockHeight` times. It writes that block's extended-commit record as many times when extensions are enabled at that height, and never at all otherwise |
| MigrationProperties.ByHeightWritesEveryHeightDescending | sdk/migration/migration_cmd.go:63-74 | corrected, with every write accepted, the run writes the state first, then one block record for each height from `lastBlockHeight` down to 1, in that order. It writes one extended-commit record for each of those heights at which vote extensions are enabled |
| MigrationProperties.FixedHeightSkipsEarlierBlocks | sdk/migration/migration_cmd.go:64 | whenever `lastBlockHeight >= 2`, the second block record written as written is again the last block, where the corrected driver writes the block one height below. The two runs differ |
| MigrationProperties.AsWrittenAgreesUpToOneBlock | sdk/migration/migration_cmd.go:63-74 | on a chain with at most one block, the driver as written and the corrected driver perform the same run |
| MigrationProperties.EnabledHeightsCount | sdk/migration/migration_cmd.go:73 | how many extended-commit records the corrected run writes: none when extensions are disabled or enabled above the last height, otherwise one per height from the enable height up |

## Left out

- Command wiring and `cometbftcmd.ParseConfig` (`migration_cmd.go:25-35`): command-line plumbing with no migration logic.
- `loadStateAndBlockStore` and `loadRollkitStateStore` (`migration_cmd.go:169-207`): they check for files and open database backends, all I/O. The source stores are the `Source` value. The target store is the `Store` class, whose backend's verdicts are a parameter.
- `stateStore.Load()` is reduced to its result: a state, or `None` when loading fails. The error's content is not modelled.
- `log.Println` (`migration_cmd.go:104`): output only.
- A block or extended commit missing from the block store (`LoadBlock` returning nil) makes the Go code dereference nil. The model requires such records to be present (`Ready`) instead of modelling the crash.
- Library internals are abstract:
  - `ToExtendedVoteSet(...).List()` with `CommitSig().BlockIDFlag` is the `votes` list of an `ExtendedCommit`, each vote carrying its flag;
  - `Time` is its `UnixNano` value;
  - `HexBytes.Bytes()` is the identity on byte sequences;
  - `ValidatorSet` has only its public `Validators` and `Proposer` fields; its cached total voting power is not modelled.
- Comet.VoteExtensionsEnabled: it follows CometBFT's rule (an enable height other than 0 and at most the block's height). CometBFT's panic for heights below 1 is not modelled.
- The `context.Background()` arguments and the ignored error of `SaveExtendedCommit` carry no state. That ignored result is modelled as an ignored boolean.
- `sdk/simapp/simd/main.go`: application bootstrap with no logic of its own.
- TargetStore.Store: the backend's verdict `rejects` is a fixed function of the write alone. It does not depend on the store's contents, on earlier attempts or on time. So the model cannot express a failure that depends on history, such as a full disk or a transient I/O error. In particular, as written, once the one repeated block write is accepted, every later iteration is accepted too.
- Whole runs are stated as a log of accepted writes, not as a key-value map. Overwriting a record already stored under the same key is not modelled. This is why `AsWrittenRepeatsLastHeight` speaks of repeated writes, not of the final contents of the store.

## Findings

| source | as written | input that shows it | evidently intended | confidence | as-written member | corrected member |
|---|---|---|---|---|---|---|
| sdk/migration/migration_cmd.go:64 | every loop iteration calls `LoadBlock(lastBlockHeight)` and `LoadBlockExtendedCommit(lastBlockHeight)` (`:74`), although the counter `height` decrements. The block at the last height is migrated `lastBlockHeight` times, and no earlier block is migrated | a chain state with LastBlockHeight 2 and blocks stored at heights 1 and 2: the block records written are at heights 2, 2 instead of 2, 1 | load the block and extended commit at `height`, so each height from the last down to 1 is migrated once | not executed | MigrationProperties.FixedHeightSkipsEarlierBlocks | Migration.MigrateByHeight |

The header's `LastHeaderHash` is filled from the block's `LastCommitHash`
(`migration_cmd.go:138-139`). This is preserved as written and stated by
`Transform.BlockTripleAgrees` and `Transform.HeaderIgnoresLastBlockId`. It is not a Findings
row, because the intended value cannot be read off the code.
