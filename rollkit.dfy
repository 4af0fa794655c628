// The Rollkit side of the migration: the records the target store holds.
module Rollkit {
  import opened Base
  import opened Comet

  datatype BaseHeader = BaseHeader(height: uint64, time: uint64, chainId: string)
  datatype Version = Version(block: uint64, app: uint64)

  datatype Header = Header(
    baseHeader: BaseHeader,
    version: Version,
    lastHeaderHash: Bytes,
    lastCommitHash: Bytes,
    dataHash: Bytes,
    consensusHash: Bytes,
    appHash: Bytes,
    lastResultsHash: Bytes,
    validatorHash: Bytes,
    proposerAddress: Bytes)

  type Signature = Bytes

  /** A header with the proposer's signature and the validator set it is checked against. */
  datatype SignedHeader = SignedHeader(header: Header, signature: Signature, validators: ValidatorSet)

  datatype Metadata = Metadata(chainId: string, height: uint64, time: uint64, lastDataHash: Bytes)
  datatype Data = Data(metadata: Metadata, txs: seq<Bytes>)

  /** types.State of Rollkit. */
  datatype RollkitState = RollkitState(
    version: StateVersion,
    chainId: string,
    initialHeight: uint64,
    lastBlockHeight: uint64,
    lastBlockId: BlockID,
    lastBlockTime: Time,
    daHeight: uint64,
    consensusParams: ConsensusParamsProto,
    lastHeightConsensusParamsChanged: uint64,
    lastResultsHash: Bytes,
    appHash: Bytes,
    validators: ValidatorSet,
    nextValidators: ValidatorSet,
    lastValidators: ValidatorSet,
    lastHeightValidatorsChanged: int64)
}
