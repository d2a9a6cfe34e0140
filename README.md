# sei-chain core rules in Dafny

This is a Dafny model of several parts of the sei-chain node:

- the gasless ante decorator, which decides which transactions skip fee charging;
- the EVM module's keeper rules:
  - the fee-collector address;
  - the block-hash lookup, the block gas pool and the base fee;
  - the steps and error exits of `EVMTransaction`;
  - the transient log list, both through the keeper and through the state DB;
  - genesis import and export;
- the dex module's epoch marker;
- the wasmd precompile, through which EVM callers instantiate, execute and query CosmWasm contracts;
- the store and response comparison used by the optimistic-concurrency (OCC) tests.

One Dafny module stands for each Go file or package:

| module | file | Go source |
|---|---|---|
| `Common` | `common.dfy` | shared types: bytes, uint64 arithmetic, big-endian integers, hashes, addresses, gas meters, the SDK context, a KV store |
| `AnteDecorators` | `gasless.dfy` | `app/antedecorators/gasless.go` |
| `EvmKeeper` | `evm_keeper.dfy` | `x/evm/keeper/log.go`, `x/evm/keeper/genesis.go`, `GetFeeCollectorAddress` |
| `EvmMsgServer` | `evm_msg_server.dfy` | `x/evm/keeper/msg_server.go` |
| `EvmState` | `evm_state.dfy` | `x/evm/state/log.go` |
| `EvmGenesis` | `evm_genesis.dfy` | `x/evm/genesis.go` |
| `DexEpoch` | `dex_epoch.dfy` | `x/dex/keeper/epoch.go` |
| `OccTestUtils` | `occ_test_utils.dfy` | `occ_tests/test_utils.go` |
| `WasmdPrecompile` | `wasmd.dfy` | `precompiles/wasmd/wasmd.go` |

Some code is imperative in Go and is modelled imperatively here:

- The EVM keeper is a class whose fields hold the stores it updates: module accounts, params, address mappings, the transient store and balances. The state DB is a class holding a reference to that keeper and the pending error of its last log append, and it writes through the keeper.
- The dex epoch is written through a byte buffer, an `array`.
- The loops of the Go code are `while` loops with invariants. This covers the signer checks, the ante-decorator chain, the genesis allocation, the store comparisons and the shuffle.

Everything the core calls but does not define is a parameter of the model, usually a function value in a datatype:

- JSON, ABI and bech32 codecs;
- the oracle, nitro, staking, account and wasm keepers;
- go-ethereum's transaction conversion and state transition;
- the priority-normaliser scaling of gas.

Where a property depends on a codec, it holds under a `RoundTrips` predicate that is stated as a precondition. It is never stated as an axiom.

Go panics are explicit outcomes:

- slicing a short input: `GasPanicked`;
- reading a missing epoch: `Panicked`;
- bad argument counts or types, keeper panics and out-of-range gas in the wasmd precompile: `ArgsPanicked`, `KeeperPanicked`, and `Recovered` for the recovered result.

## Model

| member | source | states |
|---|---|---|
| `Common.Sub64` | x/evm/keeper/msg_server.go:44 | uint64 subtraction: the exact difference when it does not underflow, otherwise the difference plus 2^64 |
| `Common.Low64` | precompiles/wasmd/wasmd.go:118 | `big.Int.Uint64()` of a non-negative value keeps the value when it fits in 64 bits |
| `Common.Int64ToUint64` | x/evm/keeper/msg_server.go:58 | `uint64(x)` of an int64: a non-negative value is kept, a negative one wraps around to itself plus 2^64 |
| `Common.BigEndianValue` | x/evm/genesis.go:18 | the big-endian value of n bytes (`big.Int.SetBytes`) is below 256^n |
| `Common.BigEndianBytes` | x/dex/keeper/epoch.go:16 | the n-byte big-endian encoding has exactly n bytes |
| `Common.BigEndianValueOfBytes` | x/dex/keeper/epoch.go:16 | decoding the n-byte big-endian encoding of a value below 256^n gives the value back |
| `Common.BigEndianBytesOfValue` | x/evm/genesis.go:18 | re-encoding the value of a byte string at its own length gives the same bytes |
| `Common.BigEndianValueLeadingZero` | x/evm/genesis.go:18 | a leading zero byte does not change the value of a balance |
| `Common.FitBytes` | x/evm/keeper/msg_server.go:99 | `BytesToHash`/`BytesToAddress`: the last n bytes of a longer input, or the input left-padded with zeros |
| `Common.DecodeHexPairs` | x/evm/genesis.go:19 | never more bytes than digit pairs |
| `Common.DecodeHexPairsStopsAtInvalid` | x/evm/genesis.go:19 | `DecodeHexPairs` is exactly the leading run of well-formed digit pairs: each byte is its pair's value, high digit first, and the decoding stops at the first pair that is missing or holds a non-hex character |
| `Common.DecodeHexPairsComplete` | x/evm/genesis.go:19 | an even-length string of hex digits decodes to exactly one byte per pair |
| `Common.FromHexLength` | x/evm/genesis.go:19 | `FromHex`: at most one byte per two characters, rounded up; after an optional 0x prefix, a string of hex digits decodes to one byte per two digits, rounded up, an odd length getting a leading 0 |
| `Common.HexToAddressBytes` | x/evm/genesis.go:19 | `HexToAddress` gives the decoded bytes cropped to their last 20, or left-padded with zeros |
| `Common.GasMeter.Limit` | x/evm/keeper/msg_server.go:40 | a basic meter reports its limit and an infinite meter reports 0, which is how callers recognise it |
| `Common.GasMeter.GasConsumedToLimit` | x/evm/keeper/msg_server.go:44 | the consumption capped at the limit: the smaller of the consumption and the limit for a basic meter, the consumption itself for an infinite meter |
| `Common.NewGasMeter` | precompiles/wasmd/wasmd.go:118 | a basic meter with the given limit and nothing consumed |
| `Common.NewInfiniteGasMeter` | app/antedecorators/gasless.go:39 | a meter without a limit, which reports the limit 0, with nothing consumed |
| `Common.Context.WithGasMeter` | app/antedecorators/gasless.go:41 | replaces the gas meter and keeps the height, the block time, the header hash and the block gas meter |
| `Common.KVStore.Get` | x/dex/keeper/epoch.go:31 | finds a key exactly when it is stored, with its stored value |
| `Common.KVStore.Set` | x/dex/keeper/epoch.go:17 | writes one key and leaves every other key as it was |
| `AnteDecorators.DexPlaceOrdersIsGasless` | app/antedecorators/gasless.go:78-80 | placing orders is always gasless |
| `AnteDecorators.AllSignersWhitelisted` | app/antedecorators/gasless.go:89-103 | true exactly when every signer is in the whitelist; true with no signers; with an empty whitelist, true only with no signers |
| `AnteDecorators.DexCancelOrdersIsGasless` | app/antedecorators/gasless.go:82-87 | with the empty `WhitelistedGaslessCancellationAddrs`, cancelling orders is gasless exactly when the message has no signers |
| `AnteDecorators.OracleVoteIsGasless` | app/antedecorators/gasless.go:105-126 | gasless exactly when the feeder and validator addresses decode, the feeder is valid for the validator and no aggregate vote is stored yet |
| `AnteDecorators.NitroRecordTxDataGasless` | app/antedecorators/gasless.go:128-135 | gasless exactly when every signer is a whitelisted transaction sender |
| `AnteDecorators.IsTxGasless` | app/antedecorators/gasless.go:44-76 | gasless exactly when the transaction has messages and every one is of a gasless kind and gasless; never for an empty transaction or one with any other message type |
| `AnteDecorators.Terminator` | app/antedecorators/gasless.go:29-31 | the handler given to each wrapped decorator returns the context it receives and no error |
| `AnteDecorators.RunWrapped` | app/antedecorators/gasless.go:34-36 | no decorators leave the context as it was; with one decorator the result is the context it returns, whatever its error |
| `AnteDecorators.RunWrappedFirst` | app/antedecorators/gasless.go:34-36 | the first decorator runs on the original context and the others run on the context it returned |
| `AnteDecorators.RunWrappedAppend` | app/antedecorators/gasless.go:34-36 | running two decorator lists one after the other is running their concatenation |
| `AnteDecorators.RunWrappedPassThrough` | app/antedecorators/gasless.go:34-36 | decorators that return the context they got leave the context unchanged |
| `AnteDecorators.AnteHandle` | app/antedecorators/gasless.go:24-42 | a gasless transaction reaches `next` with an infinite gas meter; any other reaches `next` once, with the context the wrapped decorators produced in order |
| `DexEpoch.EncodeUint64` | x/dex/keeper/epoch.go:15-16 | `PutUint64` writes 8 bytes |
| `DexEpoch.DecodeUint64` | x/dex/keeper/epoch.go:32 | only the first 8 bytes are read: encoding the result gives back exactly those bytes |
| `DexEpoch.EpochRoundTrip` | x/dex/keeper/epoch.go:16-32 | reading the marker back with `binary.BigEndian.Uint64` gives the epoch that was written |
| `DexEpoch.EncodeUint64Injective` | x/dex/keeper/epoch.go:16 | different epochs are stored as different bytes |
| `DexEpoch.PutBigEndian` | x/dex/keeper/epoch.go:15-25 | the buffer's first n bytes become the big-endian encoding of the value; the rest of the buffer is unchanged |
| `DexEpoch.SetEpoch` | x/dex/keeper/epoch.go:13-27 | the store maps "epoch" to the 8-byte encoding of the epoch and nothing else changes |
| `DexEpoch.IsNewEpoch` | x/dex/keeper/epoch.go:29-35 | panics exactly when the marker is missing or shorter than 8 bytes; otherwise returns the current epoch and whether it is greater than the stored one |
| `DexEpoch.IsNewEpochAfterSet` | x/dex/keeper/epoch.go:13-35 | after `SetEpoch(e)`, a new epoch is reported exactly when the current epoch is above e, and never for e itself |
| `EvmKeeper.ReadLogs` | x/evm/keeper/log.go:32-43 | no stored value gives the empty list with no error; an unmarshal error gives the empty list and that error; otherwise the decoded list |
| `EvmKeeper.AddLogResult` | x/evm/keeper/log.go:15-30 | a read error is returned and the store is unchanged; an encoding error is returned with nothing written; a successful read and encoding return no error; on success only the logs key is written, holding the encoding of the old list plus the log |
| `EvmKeeper.AddLogThenReadLogs` | x/evm/keeper/log.go:15-43 | with a round-tripping codec, a successful append is read back as the old list plus the new log, one longer |
| `EvmKeeper.AddLogFromEmpty` | x/evm/keeper/log.go:15-43 | with a round-tripping codec and an empty store, the first append succeeds and is read back as the one-entry list |
| `EvmKeeper.Keeper.LogsStoreKey` | x/evm/keeper/log.go:17-28 | the logs live in the transient module-state prefix store: the key is the prefix followed by `LogsKey` |
| `EvmKeeper.Keeper.GetParams` | x/evm/genesis.go:26 | the params the keeper holds, as the last `SetParams` wrote them |
| `EvmKeeper.Keeper.SetParams` | x/evm/keeper/genesis.go:17 | replaces the params |
| `EvmKeeper.Keeper.SetModuleAccount` | x/evm/keeper/genesis.go:15 | stores the module account under its name |
| `EvmKeeper.Keeper.SetAddressMapping` | x/evm/keeper/genesis.go:22 | records the association in both directions |
| `EvmKeeper.Keeper.GetEVMAddress` | x/evm/keeper/msg_server.go:129 | found exactly when the Sei address has an association, and returns it |
| `EvmKeeper.Keeper.GetLogs` | x/evm/keeper/log.go:32-43 | `ReadLogs` of the logs key of the transient store: the empty list when nothing is stored, the decoded list when the value decodes, and the empty list with the decoding error otherwise |
| `EvmKeeper.Keeper.AddLog` | x/evm/keeper/log.go:15-30 | a read error is passed on and the transient store is unchanged; on success with a round-tripping codec the stored list is the old one plus the log |
| `EvmKeeper.Keeper.InitGenesis` | x/evm/keeper/genesis.go:13-23 | the EVM module account with minter and burner permissions; default params; the fee collector associated to the fixed EVM address both ways; the fee-collector lookup then succeeds |
| `EvmKeeper.Keeper.GetFeeCollectorAddress` | x/evm/keeper/msg_server.go:127-134 | succeeds exactly when the fee collector's module address has an EVM address, and returns it; otherwise fails with "fee collector's EVM address not found" |
| `EvmKeeper.InitGenesisTwice` | x/evm/keeper/genesis.go:13-23 | running keeper genesis twice leaves the same state as running it once |
| `EvmMsgServer.GetHash` | x/evm/keeper/msg_server.go:90-120 | the zero hash above the int64 range, in the future, for a pruned height or for a header that does not parse; the current header's hash at the current height; otherwise the stored header's hash |
| `EvmMsgServer.GetHashFn` | x/evm/keeper/msg_server.go:90-120 | the lookup handed to the EVM gives the zero hash for every future height and the current header's hash at the current height |
| `EvmMsgServer.AllFutureHeightsHaveNoHash` | x/evm/keeper/msg_server.go:92-104 | every height above the current block gets the zero hash |
| `EvmMsgServer.FutureHeightsHaveNoHash` | x/evm/keeper/msg_server.go:92-104 | no height above the current block has a hash |
| `EvmMsgServer.NonZeroHashHasSource` | x/evm/keeper/msg_server.go:90-120 | a non-zero hash comes from the current header or from a stored header that parses |
| `EvmMsgServer.BlockGasPool` | x/evm/keeper/msg_server.go:39-45 | MaxUint64 for a meter with no limit; otherwise the remaining gas, which plus the consumption up to the limit equals the limit |
| `EvmMsgServer.GetBaseFee` | x/evm/keeper/msg_server.go:122-125 | the base fee is 0 |
| `EvmMsgServer.BlockContextFor` | x/evm/keeper/msg_server.go:51-62 | the EVM runs with the fee collector as coinbase, the current height and block time, no hash for any future block, a zero base fee, and as gas limit all of uint64 for a block without a gas limit and otherwise exactly the gas the block has left |
| `EvmMsgServer.EVMTransaction` | x/evm/keeper/msg_server.go:33-87 | the steps run in order and the first failure ends the call with an empty response and that step's error; the fee-collector error exactly when the lookup fails; the transition runs in the block context of `BlockContextFor`, whose hash lookup is `GetHashFn`; on success the response has the transition's used gas and return data and the transaction hash |
| `EvmState.DBImpl.constructor` | x/evm/genesis.go:16 | a state DB over the keeper with no pending error |
| `EvmState.DBImpl.AddLog` | x/evm/state/log.go:7-10 | the keeper's `AddLog`, with its error recorded in the state DB |
| `EvmState.DBImpl.GetLogs` | x/evm/state/log.go:12-14 | what the keeper's transient store holds under the logs key |
| `EvmState.DBImpl.SetBalance` | x/evm/genesis.go:20 | sets one address's balance and leaves every other balance unchanged |
| `EvmState.AddLogsInOrder` | x/evm/state/log.go:7-14 | after two appends through the state DB, with no pending error, the second log is last; when both appends succeed, the list is the old one followed by the two logs in call order |
| `EvmGenesis.EntryBalanceRoundTrip` | x/evm/genesis.go:18 | `EntryBalance` is below 256^n for an n-byte balance, and encoding it back into n bytes gives the entry's bytes |
| `EvmGenesis.CanonicalEntryAddress` | x/evm/genesis.go:19 | `EntryAddress`: an address written as 0x and 40 hex digits sets exactly the 20 bytes it spells |
| `EvmGenesis.ApplyAlloc` | x/evm/genesis.go:17-21 | the addresses with a balance are the old ones plus every entry's address |
| `EvmGenesis.ApplyAllocUntouched` | x/evm/genesis.go:17-21 | an address no entry names keeps its balance, or stays without one |
| `EvmGenesis.ApplyAllocLastWins` | x/evm/genesis.go:17-21 | an address gets the balance of the last entry that names it |
| `EvmGenesis.SetAllocBalances` | x/evm/genesis.go:17-21 | the balances after the loop are the allocation applied over the old ones |
| `EvmGenesis.InitGenesis` | x/evm/genesis.go:13-22 | keeper genesis, then the genesis params instead of the defaults, then the allocation; the transient store is unchanged |
| `EvmGenesis.ExportGenesis` | x/evm/genesis.go:24-29 | the default genesis with the keeper's params |
| `EvmGenesis.InitThenExport` | x/evm/genesis.go:13-29 | export after import gives back the imported params and an empty allocation |
| `OccTestUtils.StoreMapValue` | occ_tests/test_utils.go:254-263 | every key of a store has an entry, and with distinct keys that entry's value |
| `OccTestUtils.StoreMapKey` | occ_tests/test_utils.go:254-263 | every key of the store's map is the key of some entry |
| `OccTestUtils.StoreMapSize` | occ_tests/test_utils.go:254-270 | with distinct keys, the map has one key per entry |
| `OccTestUtils.IncludedEntriesBound` | occ_tests/test_utils.go:259-266 | if every expected key is in the actual store, the actual store has at least as many entries |
| `OccTestUtils.StoreMapEqual` | occ_tests/test_utils.go:254-270 | with distinct keys, two stores have the same map exactly when every expected entry is in the actual store with its value and the sizes agree |
| `OccTestUtils.CompareStores` | occ_tests/test_utils.go:241-271 | accepts exactly when the store is ignored or both stores hold the same keys with the same values |
| `OccTestUtils.AssertEqualStores` | occ_tests/test_utils.go:223-239 | accepts exactly when the numbers of stores agree and every pair of stores with the same, non-ignored name agrees |
| `OccTestUtils.MultiStoresAgreeReflexive` | occ_tests/test_utils.go:223-239 | a multistore with distinct store names agrees with itself |
| `OccTestUtils.UnmatchedStoresAgree` | occ_tests/test_utils.go:223-239 | stores are accepted whatever their contents when the counts agree and no names match |
| `OccTestUtils.AssertEqualResponses` | occ_tests/test_utils.go:296-316 | accepts exactly when the lengths agree and at each index the codes, logs and infos agree and the actual code is 0 |
| `OccTestUtils.ResponsesAgreeWithThemselves` | occ_tests/test_utils.go:296-316 | a list of responses agrees with itself exactly when every code is 0 |
| `OccTestUtils.FlattenAppend` | occ_tests/test_utils.go:207-213 | joining lists distributes over concatenation |
| `OccTestUtils.JoinMsgs` | occ_tests/test_utils.go:207-213 | the result is the lists concatenated in order |
| `OccTestUtils.Pick` | occ_tests/test_utils.go:215-221 | picking by indices gives one element per index |
| `OccTestUtils.PickAt` | occ_tests/test_utils.go:215-221 | the k-th picked element is the element at the k-th index |
| `OccTestUtils.PickAppend` | occ_tests/test_utils.go:215-221 | picking by concatenated indices is concatenating the picks |
| `OccTestUtils.PermutationInRange` | occ_tests/test_utils.go:217 | every index of a permutation of 0..n-1 is below n |
| `OccTestUtils.PickPermuted` | occ_tests/test_utils.go:215-221 | picking by index lists with equal multisets gives equal multisets |
| `OccTestUtils.Shuffle` | occ_tests/test_utils.go:215-221 | the k-th message of the result is the message at the k-th index of the permutation, and the result is a permutation of the messages |
| `WasmdPrecompile.IsTransaction` | precompiles/wasmd/wasmd.go:93-102 | true exactly for execute and instantiate, and false for query |
| `WasmdPrecompile.RequiredGas` | precompiles/wasmd/wasmd.go:81-91 | panics exactly when the input is shorter than a method ID; 0 for an unknown method; otherwise the common required gas, as a transaction exactly for execute and instantiate |
| `WasmdPrecompile.GasLimitFor` | precompiles/wasmd/wasmd.go:114-118 | a scaled gas within uint64 is kept; a larger one is capped at MaxUint64 |
| `WasmdPrecompile.GasLimitMonotone` | precompiles/wasmd/wasmd.go:114-118 | a larger non-negative scaled gas never gives a lower limit |
| `WasmdPrecompile.RemainingGas` | precompiles/wasmd/wasmd.go:249-253 | the unscaled remainder of the limit minus the consumption up to it; no value (a panic) when it is not a uint64 |
| `WasmdPrecompile.RemainingSeiGasOfBasicMeter` | precompiles/wasmd/wasmd.go:251 | on a basic meter the subtraction does not wrap, and nothing remains once the limit is reached |
| `WasmdPrecompile.RemainingGasOfBasicMeter` | precompiles/wasmd/wasmd.go:249-253 | on a basic meter the remaining gas is the unscaled difference of the limit and the gas consumed, with no wrap-around, and the unscaled 0 once the meter is used up |
| `WasmdPrecompile.Recovered` | precompiles/wasmd/wasmd.go:136-143 | a recovered panic is a failure (nil output, no gas left) whose error reports the panic's message |
| `WasmdPrecompile.FailedIsRecoveredShape` | precompiles/wasmd/wasmd.go:136-143 | a result is a failure exactly when it has the shape of a recovered panic carrying its own error message |
| `WasmdPrecompile.CallerSeiAddress` | precompiles/wasmd/wasmd.go:148-151 | the caller acts as its associated Sei address if it has one, else as its own 20 bytes |
| `WasmdPrecompile.Finish` | precompiles/wasmd/wasmd.go:175-176 | the packed output with no error, or no output and the packing error itself, with the remaining gas computed in both cases; a remaining-gas panic is recovered |
| `WasmdPrecompile.AfterKeeper` | precompiles/wasmd/wasmd.go:170-177 | a keeper panic is recovered; a keeper error returns nil, no gas and the error; a result is packed and finished |
| `WasmdPrecompile.Dispatch` | precompiles/wasmd/wasmd.go:136-177 | an argument panic is recovered, an argument error returned with nil and no gas; otherwise the keeper is called with the call's gas meter; every failure before the keeper returns a result is nil, no gas and an error |
| `WasmdPrecompile.InstantiateArgs` | precompiles/wasmd/wasmd.go:144-169 | a request exactly when the five arguments have their ABI types, the admin is empty or decodes, and the coins decode; a wrong count or type panics, except that an admin decoding error is returned first; the coins decoding error is returned; an empty admin never gives a decoding error of the admin; the creator is the caller's Sei address; the admin is unset exactly for an empty string and otherwise is the decoded address |
| `WasmdPrecompile.Instantiate` | precompiles/wasmd/wasmd.go:135-178 | a wrong argument count is a recovered panic; a request is passed to `Instantiate` and its address and data packed; any failure before that is nil, no gas and an error |
| `WasmdPrecompile.ExecuteArgs` | precompiles/wasmd/wasmd.go:189-209 | a request exactly when the three arguments have their ABI types and both the contract address and the coins decode; a wrong count or type panics, except that an address decoding error is returned first; the address or coins decoding error is returned; the sender is the caller's Sei address |
| `WasmdPrecompile.Execute` | precompiles/wasmd/wasmd.go:180-218 | a wrong argument count is a recovered panic; a request is passed to `Execute` and its result packed; any failure before that is nil, no gas and an error |
| `WasmdPrecompile.QueryArgs` | precompiles/wasmd/wasmd.go:229-238 | a request exactly when the two arguments have their ABI types and the contract address decodes; a wrong count or type panics, except that an address decoding error is returned first; that error is returned |
| `WasmdPrecompile.Query` | precompiles/wasmd/wasmd.go:220-247 | a wrong argument count is a recovered panic; a request is passed to `QuerySmart` and its result packed; any failure before that is nil, no gas and an error |
| `WasmdPrecompile.CallContext` | precompiles/wasmd/wasmd.go:113-118 | the keeper sees a fresh basic gas meter with nothing consumed, whose limit is the scaled supplied gas when that is a uint64 and its clamped conversion otherwise; the rest of the context is the prepared one |
| `WasmdPrecompile.SuppliedGasMonotone` | precompiles/wasmd/wasmd.go:114-118 | when the normaliser's scaling is monotone and non-negative, more supplied gas never gives the call a lower limit |
| `WasmdPrecompile.UnspentCallGasReturned` | precompiles/wasmd/wasmd.go:114-253 | a call whose keeper consumes no gas gets back all the supplied gas, when the scaled gas is a uint64 and scaling it back down gives the supplied amount |
| `WasmdPrecompile.RunAndCalculateGas` | precompiles/wasmd/wasmd.go:108-129 | a `Prepare` error returns nil, no gas and the error; each of the three method names runs its call under the call context; any other name returns nil, no gas and no error |

## Left out

- `DefaultParams` and `DefaultGenesis` are placeholders: x/evm/types is not part of this model, so the default params are an empty parameter map.
- `FeeCollectorEvmAddress` is a constant holding the 20 bytes that `common.HexToAddress(FeeCollectorAddress)` decodes. The model does not derive it from the hex string with `HexToAddress`.
- JSON, ABI, bech32, header hashing, `sdk.Dec` scaling and the coin decoding are functions passed in. Properties that need a codec to invert itself assume it through `RoundTrips`.
- The EVM itself is a function passed in: `TransactionToMessage`, the state transition and `stateDB.Finalize`.
- `EVMTransaction`: the response's `VmError` field is not modelled. x/evm/keeper/msg_server.go:84 fills it with `res.Err.Error()`, and `res.Err` is nil when the transition ran without a VM error, so as written that call fails on a nil error. The model returns the response without the field.
- `EVMTransaction`: the block context's `CanTransfer`, `Transfer`, `Difficulty` and `Random` fields and the signer built by `MakeSigner` are go-ethereum constants or go-ethereum code, and are left out.
- Logging through `ctx.Logger()` is left out of `GetHash`, `SetEpoch` and the msg server, because it does not affect results.
- The `ctx` carried by the state DB is left out, because the keeper's stores are fields of the `Keeper` class.
- `SetEpoch`: `rand.Intn(10000)` becomes the parameter `randNum`.
- `IsNewEpoch`: the epoch keeper's current epoch is a parameter.
- `toRequests`, `initSigner`, `initTestContext`, `runSequentially` and `runParallel` are not modelled. They build and run a full test application, with signing, wasm code upload and the OCC scheduler.
- `CompareStores`, `AssertEqualStores` and `AssertEqualResponses` return `false` where a `require` or `t.Fatalf` would fail the test. The failure messages are not modelled.
- `Shuffle` takes `rand.Perm(len(msgs))` as the parameter `perm`.
- `RequiredGas`: an input shorter than 4 bytes is modelled as a panic. Go only panics when the slice's capacity is below 4.
- `GasLimitFor`: `big.Int.Uint64()` of a negative scaled gas takes the low 64 bits of its magnitude, which is what the Go implementation does. Go documents the result as undefined.
- `RemainingGas`: a division by a zero priority normaliser panics in `Quo`. The model expresses it as an unscaled value outside the uint64 range, so the call also ends in a recovered failure, but with the message of the `Uint64()` panic rather than that of the division.
- `Recovered`: the panic messages of `AssertArgsLength`, of a failed type assertion and of `sdk.Int.Uint64()` come from code that is not part of this model. The model uses fixed strings.
- `RunAndCalculateGas`: a panic of `sdk.Dec.Mul` on overflow is outside the recovered calls and is not modelled.
- The static-gas `Run`, which always panics, is not modelled.
- `Instantiate`, `Execute`, `Query` and `RemainingGas`: the gas that the store reads of `GetSeiAddress` (precompiles/wasmd/wasmd.go:149 and :200) and of `GetPriorityNormalizer` (precompiles/wasmd/wasmd.go:250) charge to the call's meter is not modelled. The keeper call receives the fresh call meter, and the remaining gas is computed from the meter the keeper call left.
- `GasLimitMonotone`: states monotonicity in the scaled gas only, because the priority-normaliser scaling is a parameter. `SuppliedGasMonotone` states it for the supplied gas, under the precondition that the scaling is monotone and non-negative.
- `SetParams`, `GetParams`, `SetModuleAccount`, `SetAddressMapping` and `GetEVMAddress`: these are called from x/evm/keeper/genesis.go and msg_server.go but defined elsewhere in x/evm/keeper and in the account keeper, which are not part of this model. The model assumes that the params are a plain field that `SetParams` replaces and `GetParams` returns, that `SetModuleAccount` stores the account under its name, that `SetAddressMapping` writes both the Sei-to-EVM and the EVM-to-Sei maps, and that `GetEVMAddress` reads the map `SetAddressMapping` wrote. The fee-collector ensures of `Keeper.InitGenesis` depends on these assumptions.
- `SetBalance` and `EvmGenesis.InitGenesis`: the state DB is modelled as writing each balance straight through to the keeper. Whether Go's `DBImpl` does so or buffers the write until `Finalize` is decided in x/evm/state, which is not part of this model beyond log.go. If it buffers, the allocation written by x/evm/genesis.go:16-21, which never calls `Finalize`, would not reach the keeper.
- `FromHex`, `HexToAddress` and `EntryAddress`: strings are decoded character by character. Go's `hex.DecodeString` works on UTF-8 bytes, so address strings with non-ASCII characters are not modelled: `FromHex("aé")` is empty here, while Go decodes it to the byte 0x0a.
- `Keeper.constructor` and `KVStore.constructor` are modelling devices that create a keeper over empty stores and a store with given contents. `NewKeeper` and the SDK's store construction are not part of this model.
- Precompile construction (`NewPrecompile`, ABI loading) is not modelled.
- Concurrency: the OCC scheduler is not part of this model.
