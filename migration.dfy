// The migration driver: write the converted state once, then walk a height counter
// from the last block height down to 1, saving one converted block per iteration and,
// where vote extensions are enabled, its extended-commit record.
//
// The driver as written loads the block and the extended commit at the fixed last
// block height on every iteration (MigrateToRollkit); MigrateByHeight loads them at the
// loop's own height. Both are proved against one pure description of a run,
// MigrationRun, which differs only in the height each iteration reads from.
module Migration {
  import opened Base
  import opened Comet
  import opened Rollkit
  import opened Transform
  import opened TargetStore

  /** The CometBFT stores as the migration reads them: the state store's Load result (None
      when loading fails) and the block store's blocks and extended commits by height. */
  datatype Source = Source(
    state: Option<CometState>,
    blocks: map<int, Block>,
    extendedCommits: map<int, ExtendedCommit>)

  datatype Failure = StateLoadFailed | StateWriteFailed | BlockWriteFailed
  datatype Outcome = Completed | Failed(failure: Failure)

  /** Which height an iteration with counter value `height` loads from. */
  datatype LoadPolicy = AtLastBlockHeight | AtLoopHeight

  function LoadKey(policy: LoadPolicy, last: int, height: int): int
  {
    match policy
    case AtLastBlockHeight => last
    case AtLoopHeight => height
  }

  /** The number of iterations of `for height := last; height > 0; height--`. */
  function Iterations(last: int64): nat
  {
    if last > 0 then last else 0
  }

  /** The block at key `k` is present, and so is its extended commit when the loop will ask
      for it. A missing record is dereferenced as nil by the driver, so callers must provide it. */
  predicate Loadable(src: Source, s: CometState, k: int)
  {
    && k in src.blocks
    && (VoteExtensionsEnabled(s.consensusParams.abci, src.blocks[k].height) ==> k in src.extendedCommits)
  }

  predicate LoopReady(src: Source, s: CometState, policy: LoadPolicy)
  {
    forall h: int :: 1 <= h <= s.lastBlockHeight ==> Loadable(src, s, LoadKey(policy, s.lastBlockHeight, h))
  }

  predicate Ready(src: Source, policy: LoadPolicy)
  {
    src.state.Some? ==> LoopReady(src, src.state.value, policy)
  }

  /** Every block is stored under its own height. */
  ghost predicate BlockStoreConsistent(src: Source)
  {
    forall k :: k in src.blocks ==> src.blocks[k].height == k
  }

  ghost predicate AcceptsAll(rejects: Write -> bool)
  {
    forall w :: !rejects(w)
  }

  // ---------------------------------------------------------------------------
  // The run, as a function of the stores and the backend's verdicts

  function BlockWriteAt(src: Source, s: CometState, k: int): Write
    requires k in src.blocks
  {
    var b := src.blocks[k];
    var sig := ProposerSignature(b);
    BlockDataWrite(HeaderOf(b, s, sig), Data(MetadataOf(b), b.txs), sig)
  }

  function ExtendedCommitWriteAt(src: Source, s: CometState, k: int): Option<Write>
    requires Loadable(src, s, k)
  {
    var b := src.blocks[k];
    if VoteExtensionsEnabled(s.consensusParams.abci, b.height)
    then Some(ExtendedCommitWrite(ToUint64(b.height), ExtendedCommitInfoOf(src.extendedCommits[k], s.lastValidators)))
    else None
  }

  /** What one loop iteration asks the store to write: the converted block, and the
      extended-commit record when vote extensions are enabled at the block's height. */
  datatype Step = Step(blockWrite: Write, extendedCommitWrite: Option<Write>)

  function StepAt(src: Source, s: CometState, k: int): Step
    requires Loadable(src, s, k)
  {
    Step(BlockWriteAt(src, s, k), ExtendedCommitWriteAt(src, s, k))
  }

  /** The iterations of the loop in the order they run: entry i is the iteration whose
      counter value is lastBlockHeight - i. */
  function Plan(src: Source, s: CometState, policy: LoadPolicy): (r: seq<Step>)
    requires LoopReady(src, s, policy)
    ensures |r| == Iterations(s.lastBlockHeight)
  {
    var n := Iterations(s.lastBlockHeight);
    seq(n, i requires 0 <= i < n => StepAt(src, s, LoadKey(policy, s.lastBlockHeight, s.lastBlockHeight - i)))
  }

  /** Entry i of the plan is the step at the key the iteration with counter
      lastBlockHeight - i loads from. */
  lemma PlanAt(src: Source, s: CometState, policy: LoadPolicy, i: nat)
    requires LoopReady(src, s, policy)
    requires i < Iterations(s.lastBlockHeight)
    ensures Loadable(src, s, LoadKey(policy, s.lastBlockHeight, s.lastBlockHeight - i))
    ensures Plan(src, s, policy)[i] == StepAt(src, s, LoadKey(policy, s.lastBlockHeight, s.lastBlockHeight - i))
  {
  }

  /** The writes of an iteration whose block write was accepted; a rejected extended-commit
      write is dropped silently. */
  function Saved(step: Step, rejects: Write -> bool): seq<Write>
  {
    var ext := step.extendedCommitWrite;
    [step.blockWrite] + if ext.Some? && !rejects(ext.value) then [ext.value] else []
  }

  datatype Run = Run(writes: seq<Write>, outcome: Outcome)

  /** Runs the iterations in order; the first rejected block write ends the run. */
  function Execute(steps: seq<Step>, rejects: Write -> bool): Run
  {
    if steps == [] then Run([], Completed)
    else if rejects(steps[0].blockWrite) then Run([], Failed(BlockWriteFailed))
    else
      var rest := Execute(steps[1..], rejects);
      Run(Saved(steps[0], rejects) + rest.writes, rest.outcome)
  }

  /** A whole run: load the state, write its conversion, then run the loop. */
  function MigrationRun(src: Source, policy: LoadPolicy, rejects: Write -> bool): Run
    requires Ready(src, policy)
  {
    match src.state
    case None => Run([], Failed(StateLoadFailed))
    case Some(s) =>
      var sw := StateWrite(RollkitStateFromCometBFTState(s));
      if rejects(sw) then Run([], Failed(StateWriteFailed))
      else
        var rest := Execute(Plan(src, s, policy), rejects);
        Run([sw] + rest.writes, rest.outcome)
  }

  /** Execute from iteration i on, unfolded by one iteration. */
  lemma ExecuteFrom(steps: seq<Step>, i: nat, rejects: Write -> bool)
    requires i < |steps|
    ensures var rest := Execute(steps[i + 1..], rejects);
      Execute(steps[i..], rejects)
        == if rejects(steps[i].blockWrite) then Run([], Failed(BlockWriteFailed))
           else Run(Saved(steps[i], rejects) + rest.writes, rest.outcome)
  {
    assert steps[i..][1..] == steps[i + 1..];
  }

  lemma AppendStep(log: seq<Write>, step: seq<Write>, rest: seq<Write>)
    ensures (log + step) + rest == log + (step + rest)
  {
  }

  // ---------------------------------------------------------------------------
  // The driver

  /** One iteration's body: load the block at `k`, convert and save it; on success, and when
      vote extensions are enabled at the block's height, build and save its extended-commit
      record, ignoring whether that save succeeds. */
  method MigrateBlockAt(src: Source, s: CometState, k: int, store: Store) returns (ok: bool)
    requires Loadable(src, s, k)
    modifies store
    ensures ok == !store.rejects(BlockWriteAt(src, s, k))
    ensures store.log == old(store.log) + if ok then Saved(StepAt(src, s, k), store.rejects) else []
  {
    var block := src.blocks[k];
    var header, data, signature := CometBlockToRollkit(block, s);
    ok := store.SaveBlockData(header, data, signature);
    if !ok {
      return;
    }
    if VoteExtensionsEnabled(s.consensusParams.abci, block.height) {
      var extendedCommit := src.extendedCommits[k];
      var extendedCommitInfo := BuildExtendedCommitInfo(extendedCommit, s.lastValidators);
      var _ := store.SaveExtendedCommit(header.header.baseHeader.height, extendedCommitInfo);
    }
  }

  /** The RunE body of the migration command, as written: every iteration loads the block
      and the extended commit at the last block height, whatever the counter's value. */
  method MigrateToRollkit(src: Source, store: Store) returns (outcome: Outcome)
    requires Ready(src, AtLastBlockHeight)
    modifies store
    ensures outcome == MigrationRun(src, AtLastBlockHeight, store.rejects).outcome
    ensures store.log == old(store.log) + MigrationRun(src, AtLastBlockHeight, store.rejects).writes
  {
    if src.state.None? {
      return Failed(StateLoadFailed);
    }
    var cometState := src.state.value;
    var rollkitState := RollkitStateFromCometBFTState(cometState);
    var ok := store.UpdateState(rollkitState);
    if !ok {
      return Failed(StateWriteFailed);
    }
    ok := MigrateBlocksAtLastHeight(src, cometState, store);
    if !ok {
      return Failed(BlockWriteFailed);
    }
    return Completed;
  }

  /** The loop of MigrateToRollkit: the counter runs from the last block height down to 1,
      and every iteration migrates the block at the last block height. */
  method MigrateBlocksAtLastHeight(src: Source, s: CometState, store: Store) returns (ok: bool)
    requires LoopReady(src, s, AtLastBlockHeight)
    modifies store
    ensures var run := Execute(Plan(src, s, AtLastBlockHeight), store.rejects);
      && run.outcome == (if ok then Completed else Failed(BlockWriteFailed))
      && store.log == old(store.log) + run.writes
  {
    var lastBlockHeight := s.lastBlockHeight;
    ghost var rejects := store.rejects;
    ghost var plan := Plan(src, s, AtLastBlockHeight);
    ghost var done: nat := 0;
    var height := lastBlockHeight;
    while height > 0
      invariant height <= lastBlockHeight
      invariant height as int == lastBlockHeight as int - done
      invariant done + Iterations(height) == |plan|
      invariant store.log + Execute(plan[done..], rejects).writes == old(store.log) + Execute(plan, rejects).writes
      invariant Execute(plan[done..], rejects).outcome == Execute(plan, rejects).outcome
      decreases height
    {
      ExecuteFrom(plan, done, rejects);
      PlanAt(src, s, AtLastBlockHeight, done);
      ghost var before := store.log;
      ok := MigrateBlockAt(src, s, lastBlockHeight, store);
      if !ok {
        return;
      }
      assert store.log == before + Saved(plan[done], rejects);
      AppendStep(before, Saved(plan[done], rejects), Execute(plan[done + 1..], rejects).writes);
      height := height - 1;
      done := done + 1;
    }
    assert plan[done..] == [];
    return true;
  }

  /** The driver as evidently intended: every iteration loads the block and the extended
      commit at the counter's own height. */
  method MigrateByHeight(src: Source, store: Store) returns (outcome: Outcome)
    requires Ready(src, AtLoopHeight)
    modifies store
    ensures outcome == MigrationRun(src, AtLoopHeight, store.rejects).outcome
    ensures store.log == old(store.log) + MigrationRun(src, AtLoopHeight, store.rejects).writes
  {
    if src.state.None? {
      return Failed(StateLoadFailed);
    }
    var cometState := src.state.value;
    var rollkitState := RollkitStateFromCometBFTState(cometState);
    var ok := store.UpdateState(rollkitState);
    if !ok {
      return Failed(StateWriteFailed);
    }
    ok := MigrateBlocksByHeight(src, cometState, store);
    if !ok {
      return Failed(BlockWriteFailed);
    }
    return Completed;
  }

  /** The loop of MigrateByHeight: the counter runs from the last block height down to 1,
      and every iteration migrates the block at the counter's height. */
  method MigrateBlocksByHeight(src: Source, s: CometState, store: Store) returns (ok: bool)
    requires LoopReady(src, s, AtLoopHeight)
    modifies store
    ensures var run := Execute(Plan(src, s, AtLoopHeight), store.rejects);
      && run.outcome == (if ok then Completed else Failed(BlockWriteFailed))
      && store.log == old(store.log) + run.writes
  {
    var lastBlockHeight := s.lastBlockHeight;
    ghost var rejects := store.rejects;
    ghost var plan := Plan(src, s, AtLoopHeight);
    ghost var done: nat := 0;
    var height := lastBlockHeight;
    while height > 0
      invariant height <= lastBlockHeight
      invariant height as int == lastBlockHeight as int - done
      invariant done + Iterations(height) == |plan|
      invariant store.log + Execute(plan[done..], rejects).writes == old(store.log) + Execute(plan, rejects).writes
      invariant Execute(plan[done..], rejects).outcome == Execute(plan, rejects).outcome
      decreases height
    {
      ExecuteFrom(plan, done, rejects);
      PlanAt(src, s, AtLoopHeight, done);
      ghost var before := store.log;
      ok := MigrateBlockAt(src, s, height, store);
      if !ok {
        return;
      }
      assert store.log == before + Saved(plan[done], rejects);
      AppendStep(before, Saved(plan[done], rejects), Execute(plan[done + 1..], rejects).writes);
      height := height - 1;
      done := done + 1;
    }
    assert plan[done..] == [];
    return true;
  }
}
