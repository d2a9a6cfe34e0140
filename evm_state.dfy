/**
 * The EVM state DB's log hooks (x/evm/state/log.go): the EVM reports each
 * log to the state DB, which hands it to the keeper and keeps the keeper's
 * error as its own pending error.
 */
module EvmState {
  import opened Common
  import opened EvmKeeper

  class DBImpl {
    const k: Keeper
    /** Whether the state DB runs a simulation; the log hooks do not read it. */
    const simulation: bool
    /** The error the state DB reports when it is finalised. */
    var err: Option<Error>

    /** `state.NewDBImpl(ctx, k, simulation)`. */
    constructor (k: Keeper, simulation: bool)
      ensures this.k == k && this.simulation == simulation && err == None
    {
      this.k := k;
      this.simulation := simulation;
      err := None;
    }

    /**
     * `DBImpl.AddLog`: the keeper appends the log, and its result replaces
     * the pending error, so a later successful append clears an earlier error.
     */
    method AddLog(l: Log)
      modifies this`err, k`transient
      ensures (err, k.transient) == AddLogResult(k.logCodec, k.LogsStoreKey(), old(k.transient), l)
      ensures err.None? && RoundTrips(k.logCodec) ==> GetLogs() == LogsResult(old(GetLogs()).logs + [l], None)
    {
      var e := k.AddLog(l);
      err := e;
    }

    /** `DBImpl.GetLogs`: the keeper's list of the block's logs. */
    function GetLogs(): (r: LogsResult)
      reads k
      ensures r == ReadLogs(k.logCodec, k.LogsStoreKey(), k.transient)
    {
      k.GetLogs()
    }

    /** `DBImpl.SetBalance`: the EVM balance of `addr` becomes `balance`. */
    method SetBalance(addr: EvmAddress, balance: nat)
      modifies k`balances
      ensures k.balances == old(k.balances)[addr := balance]
    {
      k.balances := k.balances[addr := balance];
    }
  }

  /**
   * The pending error reflects the last append only: when the second of two
   * appends succeeds, whatever happened to the first, no error is pending and
   * the second log is the last one in the list. `err1`, the error the first
   * append left, is overwritten by the second; when both succeed the list is
   * the old one with both logs appended in order.
   */
  method AddLogsInOrder(db: DBImpl, l1: Log, l2: Log) returns (err1: Option<Error>)
    requires RoundTrips(db.k.logCodec)
    modifies db`err, db.k`transient
    ensures db.err.None? ==> db.GetLogs().err.None? && |db.GetLogs().logs| >= 1 && db.GetLogs().logs[|db.GetLogs().logs| - 1] == l2
    ensures err1.None? && db.err.None? ==> db.GetLogs().logs == old(db.GetLogs()).logs + [l1, l2]
  {
    db.AddLog(l1);
    err1 := db.err;
    db.AddLog(l2);
  }
}
