/**
 * The EVM module's genesis (x/evm/genesis.go): on init the keeper's own
 * genesis writes, the params of the genesis state, and one balance per
 * allocation entry; on export the params.
 */
module EvmGenesis {
  import opened Common
  import opened EvmKeeper
  import opened EvmState

  /** An entry of `GenesisState.Alloc`: a hex address and the big-endian bytes of its balance. */
  datatype GenesisAlloc = GenesisAlloc(address: string, balance: Bytes)

  datatype GenesisState = GenesisState(params: Params, alloc: seq<GenesisAlloc>)

  /**
   * `types.DefaultGenesis()`. Its contents are defined in x/evm/types, which is
   * not part of this model: default params and no allocation stand for them.
   */
  const DefaultGenesis: GenesisState := GenesisState(DefaultParams, [])

  /** The balance an entry sets, `new(big.Int).SetBytes(entry.Account.Balance)`. */
  function EntryBalance(e: GenesisAlloc): nat
  {
    BigEndianValue(e.balance)
  }

  /** Encoding the balance back into as many bytes as the entry has gives the entry's bytes. */
  lemma {:induction false} EntryBalanceRoundTrip(e: GenesisAlloc)
    ensures EntryBalance(e) < Pow256(|e.balance|)
    ensures BigEndianBytes(EntryBalance(e), |e.balance|) == e.balance
  {
    BigEndianBytesOfValue(e.balance);
  }

  /** The address an entry sets, `common.HexToAddress(entry.Address)`. */
  function EntryAddress(e: GenesisAlloc): EvmAddress
  {
    HexToAddress(e.address)
  }

  /** An address written as 0x and 40 hex digits sets exactly the bytes it spells. */
  lemma {:induction false} CanonicalEntryAddress(e: GenesisAlloc)
    requires HasHexPrefix(e.address) && |e.address| == 2 + 2 * AddressLength && IsHexDigits(e.address[2..])
    ensures EntryAddress(e) == FromHex(e.address)
  {
    FromHexLength(e.address);
    HexToAddressBytes(e.address);
  }

  /** The balances the allocation writes over `base`, entry by entry, so that a later entry for the same address wins. */
  function ApplyAlloc(base: map<EvmAddress, nat>, alloc: seq<GenesisAlloc>): (r: map<EvmAddress, nat>)
    ensures r.Keys == base.Keys + set i | 0 <= i < |alloc| :: EntryAddress(alloc[i])
  {
    if |alloc| == 0 then base
    else
      var last := alloc[|alloc| - 1];
      var r := ApplyAlloc(base, alloc[..|alloc| - 1])[EntryAddress(last) := EntryBalance(last)];
      assert forall i | 0 <= i < |alloc| - 1 :: alloc[..|alloc| - 1][i] == alloc[i];
      r
  }

  /** An address no entry names keeps its balance. */
  lemma {:induction false} ApplyAllocUntouched(base: map<EvmAddress, nat>, alloc: seq<GenesisAlloc>, a: EvmAddress)
    requires forall i | 0 <= i < |alloc| :: EntryAddress(alloc[i]) != a
    ensures a in ApplyAlloc(base, alloc) <==> a in base
    ensures a in base ==> ApplyAlloc(base, alloc)[a] == base[a]
  {
    if |alloc| > 0 {
      ApplyAllocUntouched(base, alloc[..|alloc| - 1], a);
    }
  }

  /** An address gets the balance of the last entry that names it. */
  lemma {:induction false} ApplyAllocLastWins(base: map<EvmAddress, nat>, alloc: seq<GenesisAlloc>, j: nat)
    requires j < |alloc|
    requires forall i | j < i < |alloc| :: EntryAddress(alloc[i]) != EntryAddress(alloc[j])
    ensures ApplyAlloc(base, alloc)[EntryAddress(alloc[j])] == EntryBalance(alloc[j])
  {
    if j < |alloc| - 1 {
      var front := alloc[..|alloc| - 1];
      assert front[j] == alloc[j];
      ApplyAllocLastWins(base, front, j);
    }
  }

  /** The loop of `InitGenesis`: each entry's balance set through the state DB, in order. */
  method SetAllocBalances(s: DBImpl, alloc: seq<GenesisAlloc>)
    modifies s.k`balances
    ensures s.k.balances == ApplyAlloc(old(s.k.balances), alloc)
  {
    var i := 0;
    while i < |alloc|
      invariant 0 <= i <= |alloc|
      invariant s.k.balances == ApplyAlloc(old(s.k.balances), alloc[..i])
    {
      var entry := alloc[i];
      var balance := BigEndianValue(entry.balance);
      var address := HexToAddress(entry.address);
      s.SetBalance(address, balance);
      assert alloc[..i + 1][..i] == alloc[..i];
      i := i + 1;
    }
    assert alloc[..i] == alloc;
  }

  /**
   * `InitGenesis`: the keeper's genesis, the genesis params, and the balance
   * of every allocation entry through a fresh state DB.
   */
  method InitGenesis(k: Keeper, genState: GenesisState)
    modifies k
    ensures k.moduleAccounts == old(k.moduleAccounts)[ModuleName := EvmModuleAccount]
    ensures k.params == genState.params
    ensures k.evmAddressOf == old(k.evmAddressOf)[k.moduleAddress(FeeCollectorName) := FeeCollectorEvmAddress]
    ensures k.seiAddressOf == old(k.seiAddressOf)[FeeCollectorEvmAddress := k.moduleAddress(FeeCollectorName)]
    ensures k.balances == ApplyAlloc(old(k.balances), genState.alloc)
    ensures k.transient == old(k.transient)
  {
    k.InitGenesis();
    k.SetParams(genState.params);
    var s := new DBImpl(k, false);
    SetAllocBalances(s, genState.alloc);
  }

  /** `ExportGenesis`: the default genesis with the keeper's params. */
  function ExportGenesis(k: Keeper): (g: GenesisState)
    reads k
    ensures g.params == k.GetParams() && g.alloc == DefaultGenesis.alloc
  {
    DefaultGenesis.(params := k.GetParams())
  }

  /** Exporting after `InitGenesis` gives back the params it was given, but not the allocation. */
  method InitThenExport(k: Keeper, genState: GenesisState) returns (exported: GenesisState)
    modifies k
    ensures exported.params == genState.params
    ensures exported.alloc == []
  {
    InitGenesis(k, genState);
    exported := ExportGenesis(k);
  }
}
