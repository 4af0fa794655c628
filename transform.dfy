// The record transformer: CometBFT chain state to Rollkit state, one CometBFT block
// to a Rollkit header/data/signature triple, and one extended commit to the ABCI
// extended-commit record, with the first-match address lookups they rely on.
module Transform {
  import opened Base
  import opened Comet
  import opened Rollkit

  // ---------------------------------------------------------------------------
  // State transformer

  /** rollkitStateFromCometBFTState. The Go function also returns an error, which is always
      nil, so the conversion is total here. The migration height becomes the initial height
      of the new chain, and the data-availability height starts at 1. */
  function RollkitStateFromCometBFTState(s: CometState): (r: RollkitState)
    ensures r.initialHeight == r.lastBlockHeight == ToUint64(s.lastBlockHeight)
    ensures s.lastBlockHeight >= 0 ==> r.initialHeight == s.lastBlockHeight
    ensures r.daHeight == 1
    ensures FromProto(r.consensusParams) == s.consensusParams
    ensures r.lastHeightConsensusParamsChanged == ToUint64(s.lastHeightConsensusParamsChanged)
    ensures r.version == s.version && r.chainId == s.chainId
    ensures r.lastBlockId == s.lastBlockId && r.lastBlockTime == s.lastBlockTime
    ensures r.appHash == s.appHash && r.lastResultsHash == s.lastResultsHash
    ensures r.validators == s.validators && r.nextValidators == s.nextValidators
    ensures r.lastValidators == s.lastValidators
    ensures r.lastHeightValidatorsChanged == s.lastHeightValidatorsChanged
  {
    ProtoRoundTrip(s.consensusParams);
    RollkitState(
      version := s.version,
      chainId := s.chainId,
      initialHeight := ToUint64(s.lastBlockHeight),
      lastBlockHeight := ToUint64(s.lastBlockHeight),
      lastBlockId := s.lastBlockId,
      lastBlockTime := s.lastBlockTime,
      daHeight := 1,
      consensusParams := ToProto(s.consensusParams),
      lastHeightConsensusParamsChanged := ToUint64(s.lastHeightConsensusParamsChanged),
      lastResultsHash := s.lastResultsHash,
      appHash := s.appHash,
      validators := s.validators,
      nextValidators := s.nextValidators,
      lastValidators := s.lastValidators,
      lastHeightValidatorsChanged := s.lastHeightValidatorsChanged)
  }

  /** The state conversion forgets exactly one thing, the source's own initial height: two
      source states convert to the same Rollkit state if and only if they agree on every
      other field. */
  lemma StateConversionForgetsOnlyInitialHeight(a: CometState, b: CometState)
    ensures RollkitStateFromCometBFTState(a) == RollkitStateFromCometBFTState(b)
            <==> a.(initialHeight := b.initialHeight) == b
  {
    var ra, rb := RollkitStateFromCometBFTState(a), RollkitStateFromCometBFTState(b);
    if ra == rb {
      ToUint64Injective(a.lastBlockHeight, b.lastBlockHeight);
      ToUint64Injective(a.lastHeightConsensusParamsChanged, b.lastHeightConsensusParamsChanged);
      assert a.consensusParams == FromProto(ra.consensusParams) == b.consensusParams;
    }
  }

  // ---------------------------------------------------------------------------
  // First-match lookup by address

  /** The index of the first address equal to `addr`, if any. */
  function FirstIndex(addrs: seq<Bytes>, addr: Bytes): (r: Option<nat>)
    ensures r.Some? ==> r.value < |addrs| && addrs[r.value] == addr
    ensures r.Some? ==> forall j :: 0 <= j < r.value ==> addrs[j] != addr
    ensures r.None? ==> forall j :: 0 <= j < |addrs| ==> addrs[j] != addr
  {
    if |addrs| == 0 then None
    else if addrs[0] == addr then Some(0)
    else match FirstIndex(addrs[1..], addr)
      case None => None
      case Some(i) => Some(i + 1)
  }

  function SignerAddresses(sigs: seq<CommitSig>): (r: seq<Bytes>)
    ensures |r| == |sigs| && forall i :: 0 <= i < |sigs| ==> r[i] == sigs[i].validatorAddress
  {
    seq(|sigs|, i requires 0 <= i < |sigs| => sigs[i].validatorAddress)
  }

  function ValidatorAddresses(vals: seq<Validator>): (r: seq<Bytes>)
    ensures |r| == |vals| && forall i :: 0 <= i < |vals| ==> r[i] == vals[i].address
  {
    seq(|vals|, i requires 0 <= i < |vals| => vals[i].address)
  }

  // ---------------------------------------------------------------------------
  // Block transformer

  /** The signature the converted block carries: that of the first last-commit entry signed
      by the block's proposer, or the empty signature when the proposer did not sign. */
  function ProposerSignature(block: Block): Signature
  {
    var sigs := block.lastCommit.signatures;
    match FirstIndex(SignerAddresses(sigs), block.proposerAddress)
    case Some(i) => sigs[i].signature
    case None => []
  }

  /** The proposer signature, characterised without the lookup: the empty signature when no
      entry has the proposer's address, else the signature of the earliest entry that has it. */
  lemma ProposerSignatureIsFirstMatch(block: Block)
    ensures var sigs := block.lastCommit.signatures;
      && ((forall i :: 0 <= i < |sigs| ==> sigs[i].validatorAddress != block.proposerAddress)
           ==> ProposerSignature(block) == [])
      && (forall i :: 0 <= i < |sigs| && sigs[i].validatorAddress == block.proposerAddress
           && (forall j :: 0 <= j < i ==> sigs[j].validatorAddress != block.proposerAddress)
           ==> ProposerSignature(block) == sigs[i].signature)
  {
    var sigs := block.lastCommit.signatures;
    var addrs := SignerAddresses(sigs);
    match FirstIndex(addrs, block.proposerAddress)
    case None =>
    case Some(k) =>
      forall i | 0 <= i < |sigs| && sigs[i].validatorAddress == block.proposerAddress
        && (forall j :: 0 <= j < i ==> sigs[j].validatorAddress != block.proposerAddress)
        ensures ProposerSignature(block) == sigs[i].signature
      {
        assert addrs[i] == block.proposerAddress;
      }
  }

  /** The converted header: the block's own height, time, chain ID, versions, hashes and
      proposer, the given signature, and the validator set of the migrated state. */
  function HeaderOf(block: Block, s: CometState, signature: Signature): SignedHeader
  {
    SignedHeader(
      header := Header(
        baseHeader := BaseHeader(ToUint64(block.height), ToUint64(block.time.unixNano), block.chainId),
        version := Version(block.version.block, block.version.app),
        lastHeaderHash := block.lastCommitHash,
        lastCommitHash := block.lastCommitHash,
        dataHash := block.dataHash,
        consensusHash := block.consensusHash,
        appHash := block.appHash,
        lastResultsHash := block.lastResultsHash,
        validatorHash := block.validatorsHash,
        proposerAddress := block.proposerAddress),
      signature := signature,
      validators := ValidatorSet(s.validators.validators, s.validators.proposer))
  }

  function MetadataOf(block: Block): Metadata
  {
    Metadata(block.chainId, ToUint64(block.height), ToUint64(block.time.unixNano), block.dataHash)
  }

  /** cometBlockToRollkit: scans the last commit for the proposer's signature, assembles the
      header, then copies the transactions one by one into the data. */
  method CometBlockToRollkit(block: Block, s: CometState)
    returns (header: SignedHeader, data: Data, signature: Signature)
    ensures signature == ProposerSignature(block)
    ensures header == HeaderOf(block, s, signature)
    ensures data.metadata == MetadataOf(block)
    ensures data.txs == block.txs
  {
    var sigs := block.lastCommit.signatures;
    signature := [];
    var i := 0;
    while i < |sigs|
      invariant 0 <= i <= |sigs|
      invariant signature == []
      invariant forall j :: 0 <= j < i ==> sigs[j].validatorAddress != block.proposerAddress
    {
      if sigs[i].validatorAddress == block.proposerAddress {
        signature := sigs[i].signature;
        break;
      }
      i := i + 1;
    }
    ProposerSignatureIsFirstMatch(block);

    header := HeaderOf(block, s, signature);
    data := Data(MetadataOf(block), []);

    var t := 0;
    while t < |block.txs|
      invariant 0 <= t <= |block.txs|
      invariant data.metadata == MetadataOf(block)
      invariant data.txs == block.txs[..t]
    {
      data := data.(txs := data.txs + [block.txs[t]]);
      t := t + 1;
    }
  }

  /** What the converted triple promises, stated between its parts and the source block:
      header and data carry the same height, time and chain ID taken from the block; the
      data's previous-data hash is the block's data hash; the header embeds the proposer
      signature and the migrated state's current validators whatever the block's height;
      and the header's LastHeaderHash is the block's LastCommitHash (not the hash of the
      previous header). */
  lemma BlockTripleAgrees(block: Block, s: CometState)
    ensures var sig := ProposerSignature(block);
      var h := HeaderOf(block, s, sig);
      var m := MetadataOf(block);
      && h.header.baseHeader.height == m.height == ToUint64(block.height)
      && h.header.baseHeader.time == m.time == ToUint64(block.time.unixNano)
      && h.header.baseHeader.chainId == m.chainId == block.chainId
      && m.lastDataHash == h.header.dataHash == block.dataHash
      && h.header.lastHeaderHash == h.header.lastCommitHash == block.lastCommitHash
      && h.signature == sig
      && h.validators == s.validators
  {
  }

  /** The header does not depend on the block's LastBlockID: two blocks that differ only in
      the ID of the previous block get the same header, so LastHeaderHash never reflects it. */
  lemma HeaderIgnoresLastBlockId(block: Block, other: BlockID, s: CometState)
    ensures HeaderOf(block.(lastBlockId := other), s, ProposerSignature(block.(lastBlockId := other)))
         == HeaderOf(block, s, ProposerSignature(block))
  {
  }

  // ---------------------------------------------------------------------------
  // Extended-commit transformer

  /** The voting power of the first validator with address `addr`, or 0 when none has it. */
  function PowerOf(vals: seq<Validator>, addr: Bytes): int64
  {
    match FirstIndex(ValidatorAddresses(vals), addr)
    case Some(i) => vals[i].votingPower
    case None => 0
  }

  /** A reference index of powers keyed by address, in which an earlier validator overrides
      a later one with the same address. */
  function PowerIndex(vals: seq<Validator>): map<Bytes, int64>
  {
    if |vals| == 0 then map[] else PowerIndex(vals[1..])[vals[0].address := vals[0].votingPower]
  }

  /** The linear first-match scan and a lookup in the address index agree on every address,
      with 0 for an address that is absent. */
  lemma {:induction false} PowerOfAgreesWithIndex(vals: seq<Validator>, addr: Bytes)
    ensures PowerOf(vals, addr) == if addr in PowerIndex(vals) then PowerIndex(vals)[addr] else 0
  {
    if |vals| > 0 && vals[0].address != addr {
      PowerOfAgreesWithIndex(vals[1..], addr);
      var tail := ValidatorAddresses(vals[1..]);
      assert ValidatorAddresses(vals)[1..] == tail;
      match FirstIndex(tail, addr)
      case None =>
      case Some(i) =>
        assert ValidatorAddresses(vals)[i + 1] == addr;
    }
  }

  /** One ABCI vote record: the vote's validator with its power in the last validator set,
      and the vote's extension, extension signature and block-ID flag. */
  function VoteInfoOf(vote: ExtendedVote, lastValidators: ValidatorSet): ExtendedVoteInfo
  {
    ExtendedVoteInfo(
      validator := AbciValidator(vote.validatorAddress, PowerOf(lastValidators.validators, vote.validatorAddress)),
      voteExtension := vote.extension,
      extensionSignature := vote.extensionSignature,
      blockIdFlag := vote.blockIdFlag)
  }

  function ExtendedCommitInfoOf(ec: ExtendedCommit, lastValidators: ValidatorSet): (r: ExtendedCommitInfo)
    ensures r.round == ec.round && |r.votes| == |ec.votes|
    ensures forall i :: 0 <= i < |ec.votes| ==> r.votes[i] == VoteInfoOf(ec.votes[i], lastValidators)
  {
    ExtendedCommitInfo(ec.round, seq(|ec.votes|, i requires 0 <= i < |ec.votes| => VoteInfoOf(ec.votes[i], lastValidators)))
  }

  /** The extended-commit record of the migration loop: one vote record per vote, in list
      order, each vote's power found by a first-match scan of the last validator set with
      0 as the default. */
  method BuildExtendedCommitInfo(ec: ExtendedCommit, lastValidators: ValidatorSet)
    returns (info: ExtendedCommitInfo)
    ensures info == ExtendedCommitInfoOf(ec, lastValidators)
  {
    info := ExtendedCommitInfo(round := ec.round, votes := []);
    var vals := lastValidators.validators;
    var n := 0;
    while n < |ec.votes|
      invariant 0 <= n <= |ec.votes|
      invariant info.round == ec.round && |info.votes| == n
      invariant forall i :: 0 <= i < n ==> info.votes[i] == VoteInfoOf(ec.votes[i], lastValidators)
    {
      var vote := ec.votes[n];
      var power: int64 := 0;
      var k := 0;
      while k < |vals|
        invariant 0 <= k <= |vals|
        invariant power == 0
        invariant forall j :: 0 <= j < k ==> vals[j].address != vote.validatorAddress
      {
        if vals[k].address == vote.validatorAddress {
          power := vals[k].votingPower;
          break;
        }
        k := k + 1;
      }
      PowerOfIsFirstMatch(vals, vote.validatorAddress);
      info := info.(votes := info.votes + [ExtendedVoteInfo(
        validator := AbciValidator(vote.validatorAddress, power),
        voteExtension := vote.extension,
        extensionSignature := vote.extensionSignature,
        blockIdFlag := vote.blockIdFlag)]);
      n := n + 1;
    }
  }

  /** The power lookup, characterised without the lookup: 0 when no validator has the
      address, else the power of the earliest validator that has it. */
  lemma PowerOfIsFirstMatch(vals: seq<Validator>, addr: Bytes)
    ensures (forall i :: 0 <= i < |vals| ==> vals[i].address != addr) ==> PowerOf(vals, addr) == 0
    ensures forall i :: 0 <= i < |vals| && vals[i].address == addr
              && (forall j :: 0 <= j < i ==> vals[j].address != addr)
              ==> PowerOf(vals, addr) == vals[i].votingPower
  {
    var addrs := ValidatorAddresses(vals);
    match FirstIndex(addrs, addr)
    case None =>
    case Some(k) =>
      forall i | 0 <= i < |vals| && vals[i].address == addr && (forall j :: 0 <= j < i ==> vals[j].address != addr)
        ensures PowerOf(vals, addr) == vals[i].votingPower
      {
        assert addrs[i] == addr;
      }
  }
}
