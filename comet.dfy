// The CometBFT side of the migration: the chain state read from the state store,
// blocks and extended commits read from the block store, and the few library
// operations the migration calls on them.
module Comet {
  import opened Base

  /** A time.Time, represented by the instant's UnixNano() value. */
  datatype Time = Time(unixNano: int64)

  datatype PartSetHeader = PartSetHeader(total: uint32, hash: Bytes)
  datatype BlockID = BlockID(hash: Bytes, partSetHeader: PartSetHeader)

  /** version.Consensus: the block and app protocol versions. */
  datatype ConsensusVersion = ConsensusVersion(block: uint64, app: uint64)
  /** state.Version: the consensus versions and the software version string. */
  datatype StateVersion = StateVersion(consensus: ConsensusVersion, software: string)

  datatype Validator = Validator(address: Bytes, pubKey: Bytes, votingPower: int64, proposerPriority: int64)
  /** A ValidatorSet: its ordered validators and its current proposer (nil when unset). */
  datatype ValidatorSet = ValidatorSet(validators: seq<Validator>, proposer: Option<Validator>)

  // Consensus parameters, group by group.
  datatype BlockParams = BlockParams(maxBytes: int64, maxGas: int64)
  datatype EvidenceParams = EvidenceParams(maxAgeNumBlocks: int64, maxAgeDuration: int64, maxBytes: int64)
  datatype ValidatorParams = ValidatorParams(pubKeyTypes: seq<string>)
  datatype VersionParams = VersionParams(app: uint64)
  datatype ABCIParams = ABCIParams(voteExtensionsEnableHeight: int64)

  datatype ConsensusParams = ConsensusParams(
    block: BlockParams,
    evidence: EvidenceParams,
    validator: ValidatorParams,
    version: VersionParams,
    abci: ABCIParams)

  /** The wire form of the consensus parameters: every group is an optional (pointer) field. */
  datatype ConsensusParamsProto = ConsensusParamsProto(
    block: Option<BlockParams>,
    evidence: Option<EvidenceParams>,
    validator: Option<ValidatorParams>,
    version: Option<VersionParams>,
    abci: Option<ABCIParams>)

  /** ConsensusParams.ToProto: every group is present in the wire form. */
  function ToProto(p: ConsensusParams): (r: ConsensusParamsProto)
    ensures r.block.Some? && r.evidence.Some? && r.validator.Some? && r.version.Some? && r.abci.Some?
  {
    ConsensusParamsProto(Some(p.block), Some(p.evidence), Some(p.validator), Some(p.version), Some(p.abci))
  }

  /** The decoding direction: a missing group reads as its zero value. */
  function FromProto(q: ConsensusParamsProto): ConsensusParams
  {
    ConsensusParams(
      match q.block case Some(b) => b case None => BlockParams(0, 0),
      match q.evidence case Some(e) => e case None => EvidenceParams(0, 0, 0),
      match q.validator case Some(v) => v case None => ValidatorParams([]),
      match q.version case Some(v) => v case None => VersionParams(0),
      match q.abci case Some(a) => a case None => ABCIParams(0))
  }

  /** Re-encoding the parameters into their wire form loses nothing. */
  lemma ProtoRoundTrip(p: ConsensusParams)
    ensures FromProto(ToProto(p)) == p
  {
  }

  /** ABCIParams.VoteExtensionsEnabled: extensions are on from the enable height on; 0 means never. */
  predicate VoteExtensionsEnabled(a: ABCIParams, h: int64)
  {
    a.voteExtensionsEnableHeight != 0 && a.voteExtensionsEnableHeight <= h
  }

  datatype BlockIDFlag = BlockIDFlagUnknown | BlockIDFlagAbsent | BlockIDFlagCommit | BlockIDFlagNil

  datatype CommitSig = CommitSig(blockIdFlag: BlockIDFlag, validatorAddress: Bytes, timestamp: Time, signature: Bytes)
  datatype Commit = Commit(height: int64, round: int32, blockId: BlockID, signatures: seq<CommitSig>)

  /** A block: its header fields, its transactions (Data.Txs) and the commit of the previous block. */
  datatype Block = Block(
    version: ConsensusVersion,
    chainId: string,
    height: int64,
    time: Time,
    lastBlockId: BlockID,
    lastCommitHash: Bytes,
    dataHash: Bytes,
    validatorsHash: Bytes,
    nextValidatorsHash: Bytes,
    consensusHash: Bytes,
    appHash: Bytes,
    lastResultsHash: Bytes,
    evidenceHash: Bytes,
    proposerAddress: Bytes,
    txs: seq<Bytes>,
    lastCommit: Commit)

  /** One vote of an extended commit, as listed by ToExtendedVoteSet(...).List(); blockIdFlag is
      its CommitSig().BlockIDFlag. */
  datatype ExtendedVote = ExtendedVote(
    validatorAddress: Bytes,
    extension: Bytes,
    extensionSignature: Bytes,
    blockIdFlag: BlockIDFlag)

  /** An extended commit, reduced to its round and its list of votes. */
  datatype ExtendedCommit = ExtendedCommit(round: int32, votes: seq<ExtendedVote>)

  /** state.State: the consensus state at the last committed height. */
  datatype CometState = CometState(
    version: StateVersion,
    chainId: string,
    initialHeight: int64,
    lastBlockHeight: int64,
    lastBlockId: BlockID,
    lastBlockTime: Time,
    nextValidators: ValidatorSet,
    validators: ValidatorSet,
    lastValidators: ValidatorSet,
    lastHeightValidatorsChanged: int64,
    consensusParams: ConsensusParams,
    lastHeightConsensusParamsChanged: int64,
    lastResultsHash: Bytes,
    appHash: Bytes)

  // ABCI records written for extended commits.
  datatype AbciValidator = AbciValidator(address: Bytes, power: int64)
  datatype ExtendedVoteInfo = ExtendedVoteInfo(
    validator: AbciValidator,
    voteExtension: Bytes,
    extensionSignature: Bytes,
    blockIdFlag: BlockIDFlag)
  datatype ExtendedCommitInfo = ExtendedCommitInfo(round: int32, votes: seq<ExtendedVoteInfo>)
}
