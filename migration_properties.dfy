// What a migration run writes, stated over the pure description MigrationRun that both
// drivers are proved against: ordering, iteration count, failure policy, and which
// heights the block and extended-commit records come from.
module MigrationProperties {
  import opened Base
  import opened Comet
  import opened Rollkit
  import opened Transform
  import opened TargetStore
  import opened Migration

  // ---------------------------------------------------------------------------
  // Views of a write log

  /** The header heights of the block writes, in log order. */
  function BlockHeights(ws: seq<Write>): seq<int>
  {
    if ws == [] then []
    else (if ws[0].BlockDataWrite? then [ws[0].header.header.baseHeader.height] else []) + BlockHeights(ws[1..])
  }

  /** The heights of the extended-commit writes, in log order. */
  function ExtendedCommitHeights(ws: seq<Write>): seq<int>
  {
    if ws == [] then []
    else (if ws[0].ExtendedCommitWrite? then [ws[0].height] else []) + ExtendedCommitHeights(ws[1..])
  }

  /** The log with its extended-commit writes taken out. */
  function WithoutExtendedCommits(ws: seq<Write>): seq<Write>
  {
    if ws == [] then []
    else (if ws[0].ExtendedCommitWrite? then [] else [ws[0]]) + WithoutExtendedCommits(ws[1..])
  }

  lemma {:induction false} ViewsDistribute(a: seq<Write>, b: seq<Write>)
    ensures BlockHeights(a + b) == BlockHeights(a) + BlockHeights(b)
    ensures ExtendedCommitHeights(a + b) == ExtendedCommitHeights(a) + ExtendedCommitHeights(b)
    ensures WithoutExtendedCommits(a + b) == WithoutExtendedCommits(a) + WithoutExtendedCommits(b)
  {
    if a != [] {
      assert a + b == [a[0]] + (a[1..] + b);
      assert (a + b)[0] == a[0] && (a + b)[1..] == a[1..] + b;
      ViewsDistribute(a[1..], b);
    } else {
      assert a + b == b;
    }
  }

  /** n, n-1, ..., 1. */
  function Descending(n: nat): seq<int>
  {
    if n == 0 then [] else [n] + Descending(n - 1)
  }

  /** The heights among n, n-1, ..., 1 at which vote extensions are enabled. */
  function EnabledDescending(a: ABCIParams, n: nat): seq<int>
    requires n < 0x8000_0000_0000_0000
  {
    if n == 0 then []
    else (if VoteExtensionsEnabled(a, n) then [n] else []) + EnabledDescending(a, n - 1)
  }

  function Repeat(x: int, n: nat): (r: seq<int>)
    ensures |r| == n && forall i :: 0 <= i < n ==> r[i] == x
  {
    seq(n, _ => x)
  }

  // ---------------------------------------------------------------------------
  // Runs of loop iterations

  /** A loop iteration writes one block record and at most one extended-commit record. */
  predicate IsLoopStep(step: Step)
  {
    && step.blockWrite.BlockDataWrite?
    && (step.extendedCommitWrite.Some? ==> step.extendedCommitWrite.value.ExtendedCommitWrite?)
  }

  predicate AllLoopSteps(steps: seq<Step>)
  {
    forall i :: 0 <= i < |steps| ==> IsLoopStep(steps[i])
  }

  lemma PlanHasLoopSteps(src: Source, s: CometState, policy: LoadPolicy)
    requires LoopReady(src, s, policy)
    ensures AllLoopSteps(Plan(src, s, policy))
  {
    forall i | 0 <= i < |Plan(src, s, policy)|
      ensures IsLoopStep(Plan(src, s, policy)[i])
    {
      PlanAt(src, s, policy, i);
    }
  }

  lemma {:induction false} ExecuteWritesNoState(steps: seq<Step>, rejects: Write -> bool)
    requires AllLoopSteps(steps)
    ensures var ws := Execute(steps, rejects).writes;
      forall i :: 0 <= i < |ws| ==> !ws[i].StateWrite?
  {
    if steps != [] && !rejects(steps[0].blockWrite) {
      assert IsLoopStep(steps[0]);
      assert AllLoopSteps(steps[1..]) by {
        forall i | 0 <= i < |steps[1..]| ensures IsLoopStep(steps[1..][i]) {
          assert steps[1..][i] == steps[i + 1];
        }
      }
      ExecuteWritesNoState(steps[1..], rejects);
      var saved := Saved(steps[0], rejects);
      var ws := Execute(steps, rejects).writes;
      assert ws == saved + Execute(steps[1..], rejects).writes;
      forall i | 0 <= i < |ws| ensures !ws[i].StateWrite? {
        if i >= |saved| {
          assert ws[i] == Execute(steps[1..], rejects).writes[i - |saved|];
        }
      }
    }
  }

  /** A run of iterations completes exactly when no block write is rejected, and then holds one
      block record per iteration; otherwise it fails on a block write with fewer. */
  lemma {:induction false} ExecuteCompletesIffNoBlockRejected(steps: seq<Step>, rejects: Write -> bool)
    requires AllLoopSteps(steps)
    ensures var r := Execute(steps, rejects);
      && (r.outcome == Completed <==> forall i :: 0 <= i < |steps| ==> !rejects(steps[i].blockWrite))
      && (r.outcome != Completed ==> r.outcome == Failed(BlockWriteFailed))
      && (r.outcome == Completed ==> |BlockHeights(r.writes)| == |steps|)
      && (r.outcome != Completed ==> |BlockHeights(r.writes)| < |steps|)
  {
    if steps != [] && !rejects(steps[0].blockWrite) {
      var rest := steps[1..];
      assert AllLoopSteps(rest) by {
        forall i | 0 <= i < |rest| ensures IsLoopStep(rest[i]) {
          assert rest[i] == steps[i + 1];
        }
      }
      ExecuteCompletesIffNoBlockRejected(rest, rejects);
      var bw := steps[0].blockWrite;
      var saved := Saved(steps[0], rejects);
      assert IsLoopStep(steps[0]);
      assert saved == [bw] + saved[1..];
      ViewsDistribute(saved, Execute(rest, rejects).writes);
      ViewsDistribute([bw], saved[1..]);
      assert BlockHeights(saved[1..]) == [];
      if forall i :: 0 <= i < |rest| ==> !rejects(rest[i].blockWrite) {
        forall i | 0 <= i < |steps| ensures !rejects(steps[i].blockWrite) {
          if i > 0 {
            assert steps[i] == rest[i - 1];
          }
        }
      } else {
        var j :| 0 <= j < |rest| && rejects(rest[j].blockWrite);
        assert steps[j + 1] == rest[j];
      }
    }
  }

  /** The outcome of a run of iterations and its writes other than extended commits do not
      depend on whether the backend accepts extended-commit writes. */
  lemma {:induction false} ExecuteIgnoresExtendedCommitRejection(steps: seq<Step>, r1: Write -> bool, r2: Write -> bool)
    requires AllLoopSteps(steps)
    requires forall w: Write :: !w.ExtendedCommitWrite? ==> r1(w) == r2(w)
    ensures Execute(steps, r1).outcome == Execute(steps, r2).outcome
    ensures WithoutExtendedCommits(Execute(steps, r1).writes) == WithoutExtendedCommits(Execute(steps, r2).writes)
  {
    if steps != [] {
      var bw := steps[0].blockWrite;
      assert IsLoopStep(steps[0]);
      assert r1(bw) == r2(bw);
      if !r1(bw) {
        var rest := steps[1..];
        assert AllLoopSteps(rest) by {
          forall i | 0 <= i < |rest| ensures IsLoopStep(rest[i]) {
            assert rest[i] == steps[i + 1];
          }
        }
        ExecuteIgnoresExtendedCommitRejection(rest, r1, r2);
        var s1, s2 := Saved(steps[0], r1), Saved(steps[0], r2);
        ViewsDistribute(s1, Execute(rest, r1).writes);
        ViewsDistribute(s2, Execute(rest, r2).writes);
        ViewsDistribute([bw], s1[1..]);
        ViewsDistribute([bw], s2[1..]);
        assert s1 == [bw] + s1[1..] && s2 == [bw] + s2[1..];
        assert WithoutExtendedCommits(s1[1..]) == [] == WithoutExtendedCommits(s2[1..]);
      }
    }
  }

  /** When every iteration is the same step, every record a run writes is that step's. */
  lemma {:induction false} ExecuteOfRepeatedStep(steps: seq<Step>, step: Step, rejects: Write -> bool)
    requires forall i :: 0 <= i < |steps| ==> steps[i] == step
    ensures var ws := Execute(steps, rejects).writes;
      forall i :: 0 <= i < |ws| ==> ws[i] == step.blockWrite || Some(ws[i]) == step.extendedCommitWrite
  {
    if steps != [] && !rejects(steps[0].blockWrite) {
      ExecuteOfRepeatedStep(steps[1..], step, rejects);
      var saved := Saved(steps[0], rejects);
      var ws := Execute(steps, rejects).writes;
      assert ws == saved + Execute(steps[1..], rejects).writes;
      forall i | 0 <= i < |ws| ensures ws[i] == step.blockWrite || Some(ws[i]) == step.extendedCommitWrite {
        if i >= |saved| {
          assert ws[i] == Execute(steps[1..], rejects).writes[i - |saved|];
        }
      }
    }
  }

  // ---------------------------------------------------------------------------
  // The state record comes first, and only once

  /** The converted state is the first write of a run and the only state write; nothing is
      written when the state cannot be loaded or its write is rejected. */
  lemma StateWrittenOnceBeforeBlocks(src: Source, policy: LoadPolicy, rejects: Write -> bool)
    requires Ready(src, policy)
    ensures var r := MigrationRun(src, policy, rejects);
      && (src.state.None? ==> r == Run([], Failed(StateLoadFailed)))
      && (src.state.Some? ==>
            var sw := StateWrite(RollkitStateFromCometBFTState(src.state.value));
            && (rejects(sw) <==> r == Run([], Failed(StateWriteFailed)))
            && (!rejects(sw) ==> r.writes[0] == sw))
      && forall i :: 0 < i < |r.writes| ==> !r.writes[i].StateWrite?
  {
    if src.state.Some? {
      var s := src.state.value;
      PlanHasLoopSteps(src, s, policy);
      ExecuteWritesNoState(Plan(src, s, policy), rejects);
      ExecuteCompletesIffNoBlockRejected(Plan(src, s, policy), rejects);
    }
  }

  // ---------------------------------------------------------------------------
  // Iteration count and failure policy

  /** Every block write of the plan is accepted exactly when the block write at the load key
      of every counter value from lastBlockHeight down to 1 is. */
  lemma PlanBlocksAccepted(src: Source, s: CometState, policy: LoadPolicy, rejects: Write -> bool)
    requires LoopReady(src, s, policy)
    ensures var plan := Plan(src, s, policy);
      var last := s.lastBlockHeight;
      (forall i :: 0 <= i < |plan| ==> !rejects(plan[i].blockWrite))
        <==> forall j: int :: 1 <= j <= last ==> !rejects(BlockWriteAt(src, s, LoadKey(policy, last, j)))
  {
    var plan := Plan(src, s, policy);
    var last := s.lastBlockHeight;
    if forall i :: 0 <= i < |plan| ==> !rejects(plan[i].blockWrite) {
      forall j: int | 1 <= j <= last ensures !rejects(BlockWriteAt(src, s, LoadKey(policy, last, j))) {
        PlanAt(src, s, policy, last - j);
      }
    } else {
      var i :| 0 <= i < |plan| && rejects(plan[i].blockWrite);
      PlanAt(src, s, policy, i);
      assert rejects(BlockWriteAt(src, s, LoadKey(policy, last, last - i)));
    }
  }

  /** A run completes if and only if the state write and the block write of every one of the
      lastBlockHeight iterations are accepted, and it then holds exactly lastBlockHeight block
      writes; a rejected block write ends the run at once with fewer. */
  lemma CompletesIffEveryBlockSaved(src: Source, policy: LoadPolicy, rejects: Write -> bool)
    requires Ready(src, policy)
    requires src.state.Some?
    ensures var s := src.state.value;
      var r := MigrationRun(src, policy, rejects);
      && (r.outcome == Completed <==>
            && !rejects(StateWrite(RollkitStateFromCometBFTState(s)))
            && forall j: int :: 1 <= j <= s.lastBlockHeight ==>
                 !rejects(BlockWriteAt(src, s, LoadKey(policy, s.lastBlockHeight, j))))
      && (r.outcome == Completed ==> |BlockHeights(r.writes)| == Iterations(s.lastBlockHeight))
      && (r.outcome == Failed(BlockWriteFailed) ==> |BlockHeights(r.writes)| < Iterations(s.lastBlockHeight))
  {
    var s := src.state.value;
    var last := s.lastBlockHeight;
    var sw := StateWrite(RollkitStateFromCometBFTState(s));
    var plan := Plan(src, s, policy);
    PlanHasLoopSteps(src, s, policy);
    ExecuteCompletesIffNoBlockRejected(plan, rejects);
    PlanBlocksAccepted(src, s, policy, rejects);
    if !rejects(sw) {
      ViewsDistribute([sw], Execute(plan, rejects).writes);
    }
  }

  /** Whether the backend accepts extended-commit writes changes neither the outcome of a run
      nor any of its other writes: their save result is ignored. */
  lemma ExtendedCommitRejectionIgnored(src: Source, policy: LoadPolicy, r1: Write -> bool, r2: Write -> bool)
    requires Ready(src, policy)
    requires forall w: Write :: !w.ExtendedCommitWrite? ==> r1(w) == r2(w)
    ensures MigrationRun(src, policy, r1).outcome == MigrationRun(src, policy, r2).outcome
    ensures WithoutExtendedCommits(MigrationRun(src, policy, r1).writes)
         == WithoutExtendedCommits(MigrationRun(src, policy, r2).writes)
  {
    if src.state.Some? {
      var s := src.state.value;
      var sw := StateWrite(RollkitStateFromCometBFTState(s));
      assert r1(sw) == r2(sw);
      var plan := Plan(src, s, policy);
      PlanHasLoopSteps(src, s, policy);
      ExecuteIgnoresExtendedCommitRejection(plan, r1, r2);
      ViewsDistribute([sw], Execute(plan, r1).writes);
      ViewsDistribute([sw], Execute(plan, r2).writes);
    }
  }

  // ---------------------------------------------------------------------------
  // Which heights are written

  /** As written, every block write of a run is the conversion of the block at the last block
      height, and every extended-commit write is that height's record. */
  lemma AsWrittenSavesOnlyLastBlock(src: Source, rejects: Write -> bool)
    requires Ready(src, AtLastBlockHeight)
    requires src.state.Some? && src.state.value.lastBlockHeight >= 1
    ensures Loadable(src, src.state.value, src.state.value.lastBlockHeight)
    ensures var s := src.state.value;
      var ws := MigrationRun(src, AtLastBlockHeight, rejects).writes;
      forall i :: 0 < i < |ws| ==>
        ws[i] == BlockWriteAt(src, s, s.lastBlockHeight) || Some(ws[i]) == ExtendedCommitWriteAt(src, s, s.lastBlockHeight)
  {
    var s := src.state.value;
    var last := s.lastBlockHeight;
    var plan := Plan(src, s, AtLastBlockHeight);
    PlanAt(src, s, AtLastBlockHeight, 0);
    forall i | 0 <= i < |plan| ensures plan[i] == StepAt(src, s, last) {
      PlanAt(src, s, AtLastBlockHeight, i);
    }
    ExecuteOfRepeatedStep(plan, StepAt(src, s, last), rejects);
    assert forall j :: 0 <= j < |Execute(plan, rejects).writes| ==> Execute(plan, rejects).writes[j] == StepAt(src, s, last).blockWrite || Some(Execute(plan, rejects).writes[j]) == StepAt(src, s, last).extendedCommitWrite;
    var sw := StateWrite(RollkitStateFromCometBFTState(s));
    var ws := MigrationRun(src, AtLastBlockHeight, rejects).writes;
    if !rejects(sw) {
      var loop := Execute(plan, rejects).writes;
      assert ws == [sw] + loop;
      assert StepAt(src, s, last) == Step(BlockWriteAt(src, s, last), ExtendedCommitWriteAt(src, s, last));
      forall i | 0 < i < |ws|
        ensures ws[i] == BlockWriteAt(src, s, last) || Some(ws[i]) == ExtendedCommitWriteAt(src, s, last)
      {
        assert ws[i] == loop[i - 1];
      }
    }
  }

  /** With every block stored under its own height and every write accepted, entry i of the
      plan writes one block record and, when vote extensions are enabled at its height, one
      extended-commit record, both at the height it loads from. */
  lemma PlanStepHeights(src: Source, s: CometState, policy: LoadPolicy, rejects: Write -> bool, i: nat)
    requires LoopReady(src, s, policy)
    requires BlockStoreConsistent(src) && AcceptsAll(rejects)
    requires i < Iterations(s.lastBlockHeight)
    ensures var step := Plan(src, s, policy)[i];
      var k := LoadKey(policy, s.lastBlockHeight, s.lastBlockHeight - i);
      && !rejects(step.blockWrite)
      && 1 <= k <= s.lastBlockHeight
      && BlockHeights(Saved(step, rejects)) == [k]
      && ExtendedCommitHeights(Saved(step, rejects))
         == if VoteExtensionsEnabled(s.consensusParams.abci, k) then [k] else []
  {
    var last := s.lastBlockHeight;
    PlanAt(src, s, policy, i);
    var k := LoadKey(policy, last, last - i);
    var bw := BlockWriteAt(src, s, k);
    var ext := ExtendedCommitWriteAt(src, s, k);
    var step := Plan(src, s, policy)[i];
    assert step == Step(bw, ext);
    var saved := Saved(step, rejects);
    ViewsDistribute([bw], saved[1..]);
    assert saved == [bw] + saved[1..];
    assert src.blocks[k].height == k;
    assert BlockHeights([bw]) == [k];
    if ext.Some? {
      assert saved[1..] == [ext.value];
      assert ExtendedCommitHeights(saved[1..]) == [k];
    } else {
      assert saved[1..] == [];
    }
  }

  /** Together with the previous iterations, the iterations from entry i of the plan on write
      the heights below the counter value lastBlockHeight - i: each height once, in descending
      order, when the loop loads at its own height; the last block height every time when it
      loads at that fixed height. */
  lemma {:induction false} PlanSuffixHeights(src: Source, s: CometState, policy: LoadPolicy, rejects: Write -> bool, i: nat)
    requires LoopReady(src, s, policy)
    requires BlockStoreConsistent(src) && AcceptsAll(rejects)
    requires i <= Iterations(s.lastBlockHeight)
    decreases Iterations(s.lastBlockHeight) - i
    ensures var r := Execute(Plan(src, s, policy)[i..], rejects);
      var a := s.consensusParams.abci;
      var last := s.lastBlockHeight;
      var m := Iterations(last) - i;
      && r.outcome == Completed
      && (policy == AtLoopHeight ==>
            BlockHeights(r.writes) == Descending(m) && ExtendedCommitHeights(r.writes) == EnabledDescending(a, m))
      && (policy == AtLastBlockHeight ==>
            && BlockHeights(r.writes) == Repeat(last, m)
            && ExtendedCommitHeights(r.writes) == if VoteExtensionsEnabled(a, last) then Repeat(last, m) else [])
  {
    var plan := Plan(src, s, policy);
    var last := s.lastBlockHeight;
    var n := Iterations(last);
    if i == n {
      assert plan[i..] == [];
    } else {
      ExecuteFrom(plan, i, rejects);
      PlanStepHeights(src, s, policy, rejects, i);
      PlanSuffixHeights(src, s, policy, rejects, i + 1);
      var m := n - i;
      assert m == last - i;
      ViewsDistribute(Saved(plan[i], rejects), Execute(plan[i + 1..], rejects).writes);
      if policy == AtLastBlockHeight {
        assert Repeat(last, m) == [last] + Repeat(last, m - 1);
      }
    }
  }

  /** With every block stored under its own height and every write accepted, the corrected
      driver writes one block record for each height from lastBlockHeight down to 1, in that
      order, and one extended-commit record for each of those heights at which vote extensions
      are enabled. */
  lemma ByHeightWritesEveryHeightDescending(src: Source, rejects: Write -> bool)
    requires Ready(src, AtLoopHeight) && src.state.Some?
    requires BlockStoreConsistent(src) && AcceptsAll(rejects)
    ensures var s := src.state.value;
      var r := MigrationRun(src, AtLoopHeight, rejects);
      && r.outcome == Completed
      && r.writes[0] == StateWrite(RollkitStateFromCometBFTState(s))
      && BlockHeights(r.writes) == Descending(Iterations(s.lastBlockHeight))
      && ExtendedCommitHeights(r.writes) == EnabledDescending(s.consensusParams.abci, Iterations(s.lastBlockHeight))
  {
    var s := src.state.value;
    var sw := StateWrite(RollkitStateFromCometBFTState(s));
    assert !rejects(sw);
    var plan := Plan(src, s, AtLoopHeight);
    PlanSuffixHeights(src, s, AtLoopHeight, rejects, 0);
    assert plan[0..] == plan;
    ViewsDistribute([sw], Execute(plan, rejects).writes);
  }

  /** As written, with every block stored under its own height and every write accepted, the
      driver writes the block at lastBlockHeight lastBlockHeight times, and its extended-commit
      record as many times when vote extensions are enabled there; no other height is written. */
  lemma AsWrittenRepeatsLastHeight(src: Source, rejects: Write -> bool)
    requires Ready(src, AtLastBlockHeight) && src.state.Some?
    requires BlockStoreConsistent(src) && AcceptsAll(rejects)
    ensures var s := src.state.value;
      var last := s.lastBlockHeight;
      var r := MigrationRun(src, AtLastBlockHeight, rejects);
      && r.outcome == Completed
      && BlockHeights(r.writes) == Repeat(last, Iterations(last))
      && ExtendedCommitHeights(r.writes)
         == if VoteExtensionsEnabled(s.consensusParams.abci, last) then Repeat(last, Iterations(last)) else []
  {
    var s := src.state.value;
    var sw := StateWrite(RollkitStateFromCometBFTState(s));
    assert !rejects(sw);
    var plan := Plan(src, s, AtLastBlockHeight);
    PlanSuffixHeights(src, s, AtLastBlockHeight, rejects, 0);
    assert plan[0..] == plan;
    ViewsDistribute([sw], Execute(plan, rejects).writes);
  }

  /** The fixed-height defect is observable on every chain whose last block height is at least
      2: the second block record written is again the last block, where the intended driver
      writes the block one height below it. */
  lemma FixedHeightSkipsEarlierBlocks(src: Source, rejects: Write -> bool)
    requires Ready(src, AtLastBlockHeight) && Ready(src, AtLoopHeight) && src.state.Some?
    requires BlockStoreConsistent(src) && AcceptsAll(rejects)
    requires src.state.value.lastBlockHeight >= 2
    ensures var last := src.state.value.lastBlockHeight;
      var asWritten := BlockHeights(MigrationRun(src, AtLastBlockHeight, rejects).writes);
      var intended := BlockHeights(MigrationRun(src, AtLoopHeight, rejects).writes);
      && |asWritten| == |intended| == last
      && asWritten[1] == last && intended[1] == last - 1
      && asWritten != intended
  {
    var last := src.state.value.lastBlockHeight;
    AsWrittenRepeatsLastHeight(src, rejects);
    ByHeightWritesEveryHeightDescending(src, rejects);
    DescendingAt(last, 1);
  }

  /** On a chain with at most one block the fixed height and the loop's height coincide, so
      the driver as written and the corrected one perform the same run. */
  lemma AsWrittenAgreesUpToOneBlock(src: Source, rejects: Write -> bool)
    requires Ready(src, AtLastBlockHeight) && Ready(src, AtLoopHeight)
    requires src.state.Some? ==> src.state.value.lastBlockHeight <= 1
    ensures MigrationRun(src, AtLastBlockHeight, rejects) == MigrationRun(src, AtLoopHeight, rejects)
  {
    if src.state.Some? {
      var s := src.state.value;
      var p1, p2 := Plan(src, s, AtLastBlockHeight), Plan(src, s, AtLoopHeight);
      if |p1| == 1 {
        PlanAt(src, s, AtLastBlockHeight, 0);
        PlanAt(src, s, AtLoopHeight, 0);
      }
      assert p1 == p2;
    }
  }

  lemma {:induction false} DescendingAt(n: nat, i: nat)
    requires i < n
    ensures |Descending(n)| == n && Descending(n)[i] == n - i
  {
    if i > 0 {
      DescendingAt(n - 1, i - 1);
    } else if n > 1 {
      DescendingAt(n - 1, 0);
    }
  }

  /** How many extended-commit records the corrected driver writes for heights n down to 1:
      none when extensions are never enabled or enabled above n, otherwise one for each height
      from the enable height (or 1) up to n. */
  lemma {:induction false} EnabledHeightsCount(a: ABCIParams, n: nat)
    requires n < 0x8000_0000_0000_0000
    ensures var e := a.voteExtensionsEnableHeight;
      |EnabledDescending(a, n)| == if e == 0 || e > n then 0 else if e <= 1 then n else n - e + 1
  {
    if n > 0 {
      EnabledHeightsCount(a, n - 1);
    }
  }
}
