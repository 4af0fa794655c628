// The Rollkit store the migration writes into, seen as the log of the writes it has
// accepted. Whether the backend accepts a write is decided by the environment.
module TargetStore {
  import opened Base
  import opened Comet
  import opened Rollkit

  /** One write into the Rollkit store. */
  datatype Write =
    | StateWrite(state: RollkitState)
    | BlockDataWrite(header: SignedHeader, data: Data, signature: Signature)
    | ExtendedCommitWrite(height: uint64, info: ExtendedCommitInfo)

  class Store {
    /** The accepted writes, oldest first. */
    var log: seq<Write>
    /** The backend's verdict: a write for which this holds fails with an error and leaves
        the store unchanged. */
    const rejects: Write -> bool

    constructor (rejects: Write -> bool)
      ensures log == [] && this.rejects == rejects
    {
      log := [];
      this.rejects := rejects;
    }

    /** Store.UpdateState. */
    method UpdateState(s: RollkitState) returns (ok: bool)
      modifies this
      ensures ok == !rejects(StateWrite(s))
      ensures log == old(log) + if ok then [StateWrite(s)] else []
    {
      ok := !rejects(StateWrite(s));
      if ok {
        log := log + [StateWrite(s)];
      }
    }

    /** Store.SaveBlockData. */
    method SaveBlockData(header: SignedHeader, data: Data, signature: Signature) returns (ok: bool)
      modifies this
      ensures ok == !rejects(BlockDataWrite(header, data, signature))
      ensures log == old(log) + if ok then [BlockDataWrite(header, data, signature)] else []
    {
      var w := BlockDataWrite(header, data, signature);
      ok := !rejects(w);
      if ok {
        log := log + [w];
      }
    }

    /** Store.SaveExtendedCommit. */
    method SaveExtendedCommit(height: uint64, info: ExtendedCommitInfo) returns (ok: bool)
      modifies this
      ensures ok == !rejects(ExtendedCommitWrite(height, info))
      ensures log == old(log) + if ok then [ExtendedCommitWrite(height, info)] else []
    {
      var w := ExtendedCommitWrite(height, info);
      ok := !rejects(w);
      if ok {
        log := log + [w];
      }
    }
  }
}
