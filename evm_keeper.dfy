/**
 * The EVM module's keeper (package x/evm/keeper): the transient log list
 * (log.go), the module's genesis writes (genesis.go) and the fee-collector
 * lookup of the message server (msg_server.go). The keeper's stores and the
 * account keeper's module accounts are fields of one `Keeper` object.
 */
module EvmKeeper {
  import opened Common

  type SeiAddress = Bytes

  // ---------------------------------------------------------------------
  // Accounts and params
  // ---------------------------------------------------------------------

  /** `types.ModuleName`, `authtypes.FeeCollectorName` and the module-account permissions. */
  const ModuleName: string := "evm"
  const FeeCollectorName: string := "fee_collector"
  const Minter: string := "minter"
  const Burner: string := "burner"

  datatype ModuleAccount = ModuleAccount(name: string, permissions: seq<string>)

  /** `authtypes.NewEmptyModuleAccount(types.ModuleName, authtypes.Minter, authtypes.Burner)`. */
  const EvmModuleAccount: ModuleAccount := ModuleAccount(ModuleName, [Minter, Burner])

  /**
   * The module's params as named values. Their default values are defined in
   * x/evm/types, which is not part of this model; one fixed value stands for them.
   */
  datatype Params = Params(values: map<string, string>)

  const DefaultParams: Params := Params(map[])

  /** `FeeCollectorAddress`, the hex of the EVM address given to the fee collector. */
  const FeeCollectorAddress: string := "41cc5d9842746c69d689c8379f7f5662b8701393"

  /** The 20 bytes `common.HexToAddress(FeeCollectorAddress)` decodes to. */
  const FeeCollectorEvmAddress: EvmAddress :=
    [0x41, 0xcc, 0x5d, 0x98, 0x42, 0x74, 0x6c, 0x69, 0xd6, 0x89, 0xc8, 0x37, 0x9f, 0x7f, 0x56, 0x62, 0xb8, 0x70, 0x13, 0x93]

  const FeeCollectorNotFound: Error := Error("fee collector's EVM address not found")

  // ---------------------------------------------------------------------
  // Logs kept in the transient store (log.go)
  // ---------------------------------------------------------------------

  datatype Log = Log(address: EvmAddress, topics: seq<Hash>, data: Bytes)

  /** `json.Marshal` / `json.Unmarshal` of the `Logs` wrapper, as given functions. */
  datatype LogCodec = LogCodec(marshal: seq<Log> -> Result<Bytes>, unmarshal: Bytes -> Result<seq<Log>>)

  /** The codec reads back every list it managed to write. */
  ghost predicate RoundTrips(codec: LogCodec)
  {
    forall ls :: codec.marshal(ls).Ok? ==> codec.unmarshal(codec.marshal(ls).value) == Ok(ls)
  }

  /** `GetLogs` returns a list and an error together. */
  datatype LogsResult = LogsResult(logs: seq<Log>, err: Option<Error>)

  /**
   * What `GetLogs` reads from a transient store holding `transient`, the
   * list being kept under `key`: an absent key is the empty list, a value
   * that does not decode is the empty list with the decoding error.
   */
  function ReadLogs(codec: LogCodec, key: Bytes, transient: map<Bytes, Bytes>): (r: LogsResult)
    ensures key !in transient ==> r == LogsResult([], None)
    ensures r.err.Some? ==> r.logs == [] && key in transient && codec.unmarshal(transient[key]).Err?
    ensures r.err.None? && key in transient ==> codec.unmarshal(transient[key]) == Ok(r.logs)
    ensures key in transient && codec.unmarshal(transient[key]).Err? ==>
      r == LogsResult([], Some(codec.unmarshal(transient[key]).error))
  {
    if key !in transient then LogsResult([], None)
    else match codec.unmarshal(transient[key])
      case Err(e) => LogsResult([], Some(e))
      case Ok(ls) => LogsResult(ls, None)
  }

  /**
   * The error `AddLog` returns and the transient store it leaves: a read
   * error or an encoding error is returned with nothing written; otherwise
   * the encoded list with `l` appended is stored under `key`.
   */
  function AddLogResult(codec: LogCodec, key: Bytes, transient: map<Bytes, Bytes>, l: Log)
    : (r: (Option<Error>, map<Bytes, Bytes>))
    ensures ReadLogs(codec, key, transient).err.Some? ==> r == (ReadLogs(codec, key, transient).err, transient)
    ensures ReadLogs(codec, key, transient).err.None? && codec.marshal(ReadLogs(codec, key, transient).logs + [l]).Err? ==>
      r == (Some(codec.marshal(ReadLogs(codec, key, transient).logs + [l]).error), transient)
    ensures ReadLogs(codec, key, transient).err.None? && codec.marshal(ReadLogs(codec, key, transient).logs + [l]).Ok? ==> r.0.None?
    ensures r.0.None? ==> key in r.1 && codec.marshal(ReadLogs(codec, key, transient).logs + [l]) == Ok(r.1[key])
    ensures r.0.Some? ==> r.1 == transient
    ensures r.0.None? ==> r.1.Keys == transient.Keys + {key}
    ensures r.0.None? ==> forall k :: k in transient && k != key ==> r.1[k] == transient[k]
  {
    var prior := ReadLogs(codec, key, transient);
    if prior.err.Some? then (prior.err, transient)
    else match codec.marshal(prior.logs + [l])
      case Err(e) => (Some(e), transient)
      case Ok(bz) => (None, transient[key := bz])
  }

  /**
   * With a codec that round-trips, a successful `AddLog` is read back by
   * `GetLogs` as the previous list with `l` at its end, one entry longer.
   */
  lemma {:induction false} AddLogThenReadLogs(codec: LogCodec, key: Bytes, transient: map<Bytes, Bytes>, l: Log)
    requires RoundTrips(codec)
    requires AddLogResult(codec, key, transient, l).0.None?
    ensures ReadLogs(codec, key, AddLogResult(codec, key, transient, l).1)
         == LogsResult(ReadLogs(codec, key, transient).logs + [l], None)
    ensures |ReadLogs(codec, key, AddLogResult(codec, key, transient, l).1).logs|
         == |ReadLogs(codec, key, transient).logs| + 1
  {
    var ls := ReadLogs(codec, key, transient).logs + [l];
    assert codec.marshal(ls).Ok?;
    assert codec.unmarshal(codec.marshal(ls).value) == Ok(ls);
  }

  /** Starting from a store without the key, the first successful append is read back as the one-entry list. */
  lemma {:induction false} AddLogFromEmpty(codec: LogCodec, key: Bytes, transient: map<Bytes, Bytes>, l: Log)
    requires RoundTrips(codec)
    requires key !in transient
    requires codec.marshal([l]).Ok?
    ensures AddLogResult(codec, key, transient, l).0 == None
    ensures ReadLogs(codec, key, AddLogResult(codec, key, transient, l).1) == LogsResult([l], None)
  {
    assert [] + [l] == [l];
    AddLogThenReadLogs(codec, key, transient, l);
  }

  // ---------------------------------------------------------------------
  // The keeper
  // ---------------------------------------------------------------------

  class Keeper {
    /** `accountKeeper.GetModuleAddress`: the Sei address derived from a module name. */
    const moduleAddress: string -> SeiAddress
    const logCodec: LogCodec
    /** `types.TransientModuleStateKeyPrefix` and `types.LogsKey`, defined in x/evm/types. */
    const transientPrefix: Bytes
    const logsKey: Bytes

    /** The account keeper's module accounts, by name. */
    var moduleAccounts: map<string, ModuleAccount>
    var params: Params
    /** The address association written by `SetAddressMapping`, in both directions. */
    var evmAddressOf: map<SeiAddress, EvmAddress>
    var seiAddressOf: map<EvmAddress, SeiAddress>
    /** The transient store, block-scoped. */
    var transient: map<Bytes, Bytes>
    /** EVM balances as the state DB sets them. */
    var balances: map<EvmAddress, nat>

    constructor (moduleAddress: string -> SeiAddress, logCodec: LogCodec, transientPrefix: Bytes, logsKey: Bytes)
      ensures this.moduleAddress == moduleAddress && this.logCodec == logCodec
      ensures this.transientPrefix == transientPrefix && this.logsKey == logsKey
      ensures moduleAccounts == map[] && params == DefaultParams
      ensures evmAddressOf == map[] && seiAddressOf == map[]
      ensures transient == map[] && balances == map[]
    {
      this.moduleAddress := moduleAddress;
      this.logCodec := logCodec;
      this.transientPrefix := transientPrefix;
      this.logsKey := logsKey;
      moduleAccounts := map[];
      params := DefaultParams;
      evmAddressOf := map[];
      seiAddressOf := map[];
      transient := map[];
      balances := map[];
    }

    /** The key the prefix store for `TransientModuleStateKeyPrefix` uses for `LogsKey`. */
    function LogsStoreKey(): (key: Bytes)
      ensures |key| == |transientPrefix| + |logsKey|
      ensures key[..|transientPrefix|] == transientPrefix && key[|transientPrefix|..] == logsKey
    {
      transientPrefix + logsKey
    }

    // Params and address mapping (defined in files that are not part of this model)

    /** The params the keeper holds: those of the last `SetParams`. */
    function GetParams(): (p: Params)
      reads this
      ensures p == params
    {
      params
    }

    method SetParams(p: Params)
      modifies this`params
      ensures params == p
    {
      params := p;
    }

    method SetModuleAccount(acc: ModuleAccount)
      modifies this`moduleAccounts
      ensures moduleAccounts == old(moduleAccounts)[acc.name := acc]
    {
      moduleAccounts := moduleAccounts[acc.name := acc];
    }

    method SetAddressMapping(seiAddr: SeiAddress, evmAddr: EvmAddress)
      modifies this`evmAddressOf, this`seiAddressOf
      ensures evmAddressOf == old(evmAddressOf)[seiAddr := evmAddr]
      ensures seiAddressOf == old(seiAddressOf)[evmAddr := seiAddr]
    {
      evmAddressOf := evmAddressOf[seiAddr := evmAddr];
      seiAddressOf := seiAddressOf[evmAddr := seiAddr];
    }

    /** `GetEVMAddress`: the EVM address associated with a Sei address, if any. */
    function GetEVMAddress(seiAddr: SeiAddress): (r: Option<EvmAddress>)
      reads this
      ensures r.Some? <==> seiAddr in evmAddressOf
      ensures r.Some? ==> r.value == evmAddressOf[seiAddr]
    {
      if seiAddr in evmAddressOf then Some(evmAddressOf[seiAddr]) else None
    }

    // log.go

    /** `Keeper.GetLogs`: the list kept under the logs key of the transient store, read as `ReadLogs` describes. */
    function GetLogs(): (r: LogsResult)
      reads this
      ensures r == ReadLogs(logCodec, LogsStoreKey(), transient)
      ensures LogsStoreKey() !in transient ==> r == LogsResult([], None)
      ensures LogsStoreKey() in transient && logCodec.unmarshal(transient[LogsStoreKey()]).Ok? ==>
        r == LogsResult(logCodec.unmarshal(transient[LogsStoreKey()]).value, None)
      ensures LogsStoreKey() in transient && logCodec.unmarshal(transient[LogsStoreKey()]).Err? ==>
        r == LogsResult([], Some(logCodec.unmarshal(transient[LogsStoreKey()]).error))
    {
      ReadLogs(logCodec, LogsStoreKey(), transient)
    }

    /** `Keeper.AddLog`: read the list, append `l`, encode and store it under the logs key. */
    method AddLog(l: Log) returns (err: Option<Error>)
      modifies this`transient
      ensures (err, transient) == AddLogResult(logCodec, LogsStoreKey(), old(transient), l)
      ensures old(GetLogs()).err.Some? ==> err == old(GetLogs()).err && transient == old(transient)
      ensures err.None? && RoundTrips(logCodec) ==> GetLogs() == LogsResult(old(GetLogs()).logs + [l], None)
    {
      var key := LogsStoreKey();
      var prior := GetLogs();
      if prior.err.Some? {
        return prior.err;
      }
      var ls := prior.logs + [l];
      var logsbz := logCodec.marshal(ls);
      if logsbz.Err? {
        return Some(logsbz.error);
      }
      transient := transient[key := logsbz.value];
      err := None;
      if RoundTrips(logCodec) {
        AddLogThenReadLogs(logCodec, key, old(transient), l);
      }
    }

    // genesis.go

    /**
     * `Keeper.InitGenesis`: register the evm module account with the Minter
     * and Burner permissions, reset the params to their defaults, and map the
     * fee collector's module address to `FeeCollectorAddress`.
     */
    method InitGenesis()
      modifies this`moduleAccounts, this`params, this`evmAddressOf, this`seiAddressOf
      ensures moduleAccounts == old(moduleAccounts)[ModuleName := EvmModuleAccount]
      ensures params == DefaultParams
      ensures evmAddressOf == old(evmAddressOf)[moduleAddress(FeeCollectorName) := FeeCollectorEvmAddress]
      ensures seiAddressOf == old(seiAddressOf)[FeeCollectorEvmAddress := moduleAddress(FeeCollectorName)]
      ensures GetFeeCollectorAddress() == Ok(FeeCollectorEvmAddress)
    {
      var moduleAcc := EvmModuleAccount;
      SetModuleAccount(moduleAcc);
      SetParams(DefaultParams);
      var evmAddrFc := FeeCollectorEvmAddress;
      var seiAddrFc := moduleAddress(FeeCollectorName);
      SetAddressMapping(seiAddrFc, evmAddrFc);
    }

    // msg_server.go

    /**
     * `msgServer.GetFeeCollectorAddress`: the EVM address mapped to the fee
     * collector's module address, or an error when there is none.
     */
    function GetFeeCollectorAddress(): (r: Result<EvmAddress>)
      reads this
      ensures r.Ok? <==> moduleAddress(FeeCollectorName) in evmAddressOf
      ensures r.Ok? ==> r.value == evmAddressOf[moduleAddress(FeeCollectorName)]
      ensures r.Err? ==> r.error == FeeCollectorNotFound
    {
      var moduleAddr := moduleAddress(FeeCollectorName);
      match GetEVMAddress(moduleAddr)
      case None => Err(FeeCollectorNotFound)
      case Some(evmAddr) => Ok(evmAddr)
    }
  }

  /** Every write of `InitGenesis` stores a constant, so a second run changes nothing. */
  method InitGenesisTwice(k: Keeper)
    modifies k
    ensures k.moduleAccounts == old(k.moduleAccounts)[ModuleName := EvmModuleAccount]
    ensures k.params == DefaultParams
    ensures k.evmAddressOf == old(k.evmAddressOf)[k.moduleAddress(FeeCollectorName) := FeeCollectorEvmAddress]
    ensures k.seiAddressOf == old(k.seiAddressOf)[FeeCollectorEvmAddress := k.moduleAddress(FeeCollectorName)]
    ensures k.transient == old(k.transient) && k.balances == old(k.balances)
  {
    k.InitGenesis();
    ghost var accounts, evmOf, seiOf := k.moduleAccounts, k.evmAddressOf, k.seiAddressOf;
    k.InitGenesis();
    assert k.moduleAccounts == accounts;
    assert k.evmAddressOf == evmOf;
    assert k.seiAddressOf == seiOf;
  }
}
