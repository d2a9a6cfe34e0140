/**
 * The EVM message server's block rules (x/evm/keeper/msg_server.go): the
 * block-hash lookup handed to the EVM, the block gas pool, the base fee and
 * the order of the steps of `EVMTransaction` with their error exits. The
 * EVM itself (message conversion, the state transition, the state DB's
 * finalisation) is given as the `EvmEnv` of the call.
 */
module EvmMsgServer {
  import opened Common
  import opened EvmKeeper

  // ---------------------------------------------------------------------
  // GetHashFn
  // ---------------------------------------------------------------------

  /** A header as the staking keeper stores it, and the parsed header with its `Hash()`. */
  datatype HeaderProto = HeaderProto(raw: Bytes)
  datatype TmHeader = TmHeader(hash: Bytes)
  datatype HistoricalInfo = HistoricalInfo(header: HeaderProto)

  /** `stakingKeeper.GetHistoricalInfo` as a map by height, and `tmtypes.HeaderFromProto`. */
  datatype StakingView = StakingView(
    historicalInfo: map<i64, HistoricalInfo>,
    headerFromProto: HeaderProto -> Result<TmHeader>)

  /**
   * The function `GetHashFn(ctx)` returns, applied to `height`: the current
   * header hash at the current height, the hash of the stored historical
   * header at a past height, and the zero hash above the int64 range, in the
   * future, for a pruned height or for a header that does not parse.
   */
  function GetHash(ctx: Context, staking: StakingView, height: u64): (h: Hash)
    ensures height > MaxInt64 ==> h == ZeroHash
    ensures height == ctx.blockHeight ==> h == BytesToHash(ctx.headerHash)
    ensures height < ctx.blockHeight && height !in staking.historicalInfo ==> h == ZeroHash
    ensures height < ctx.blockHeight && height in staking.historicalInfo ==>
      match staking.headerFromProto(staking.historicalInfo[height].header)
      case Err(_) => h == ZeroHash
      case Ok(header) => h == BytesToHash(header.hash)
  {
    if height > MaxInt64 then ZeroHash
    else
      var h: i64 := height;
      if ctx.blockHeight == h then BytesToHash(ctx.headerHash)
      else if ctx.blockHeight < h then ZeroHash
      else if h !in staking.historicalInfo then ZeroHash
      else match staking.headerFromProto(staking.historicalInfo[h].header)
        case Err(_) => ZeroHash
        case Ok(header) => BytesToHash(header.hash)
  }

  /** `GetHashFn(ctx)`: the lookup `GetHash` closed over the context and the staking keeper. */
  function GetHashFn(ctx: Context, staking: StakingView): (f: u64 -> Hash)
    ensures forall height: u64 :: height > ctx.blockHeight ==> f(height) == ZeroHash
    ensures ctx.blockHeight >= 0 ==> f(ctx.blockHeight) == BytesToHash(ctx.headerHash)
  {
    AllFutureHeightsHaveNoHash(ctx, staking);
    (height: u64) => GetHash(ctx, staking, height)
  }

  /** No height above the current block has a hash, whether or not it fits in int64. */
  lemma {:induction false} FutureHeightsHaveNoHash(ctx: Context, staking: StakingView, height: u64)
    requires height > ctx.blockHeight
    ensures GetHash(ctx, staking, height) == ZeroHash
  {
  }

  lemma AllFutureHeightsHaveNoHash(ctx: Context, staking: StakingView)
    ensures forall height: u64 :: height > ctx.blockHeight ==> GetHash(ctx, staking, height) == ZeroHash
  {
    forall height: u64 | height > ctx.blockHeight
      ensures GetHash(ctx, staking, height) == ZeroHash
    {
      FutureHeightsHaveNoHash(ctx, staking, height);
    }
  }

  /**
   * A non-zero hash comes only from the current header or from a stored,
   * parseable historical header of a past height.
   */
  lemma {:induction false} NonZeroHashHasSource(ctx: Context, staking: StakingView, height: u64)
    requires GetHash(ctx, staking, height) != ZeroHash
    ensures height <= ctx.blockHeight
    ensures height < ctx.blockHeight ==>
      height in staking.historicalInfo && staking.headerFromProto(staking.historicalInfo[height].header).Ok?
  {
  }

  // ---------------------------------------------------------------------
  // Gas pool and base fee
  // ---------------------------------------------------------------------

  /**
   * The gas pool of `EVMTransaction`: unlimited (MaxUint64) for a block gas
   * meter without a limit, otherwise what is left of the limit; the uint64
   * subtraction never wraps because consumption is counted up to the limit.
   */
  function BlockGasPool(blockGasMeter: GasMeter): (gp: u64)
    ensures blockGasMeter.Limit() == 0 ==> gp == MaxUint64
    ensures blockGasMeter.Limit() != 0 ==>
      gp + blockGasMeter.GasConsumedToLimit() == blockGasMeter.Limit() && gp <= blockGasMeter.Limit()
  {
    if blockGasMeter.Limit() == 0 then MaxUint64
    else Sub64(blockGasMeter.Limit(), blockGasMeter.GasConsumedToLimit())
  }

  /** `GetBaseFee`: the fee market is not enabled, so the base fee is 0. */
  function GetBaseFee(): (fee: nat)
    ensures fee == 0
  {
    0
  }

  // ---------------------------------------------------------------------
  // EVMTransaction
  // ---------------------------------------------------------------------

  /** The fields of `vm.BlockContext` that the server fills from block data. */
  datatype EvmBlockContext = EvmBlockContext(
    getHash: u64 -> Hash,
    coinbase: EvmAddress,
    gasLimit: u64,
    blockNumber: i64,
    time: u64,
    baseFee: nat)

  datatype EvmMessage = EvmMessage(payload: Bytes)
  datatype ExecutionResult = ExecutionResult(usedGas: u64, returnData: Bytes)

  /**
   * The EVM side of a call: `core.TransactionToMessage` for a block height
   * and base fee, the state transition run in a block context, and the error
   * of `stateDB.Finalize()`.
   */
  datatype EvmEnv = EvmEnv(
    toMessage: (i64, nat) -> Result<EvmMessage>,
    transition: (EvmBlockContext, EvmMessage) -> Result<ExecutionResult>,
    finalizeErr: Option<Error>)

  datatype MsgEVMTransactionResponse = MsgEVMTransactionResponse(gasUsed: u64, returnData: Bytes, hash: string)

  const EmptyResponse: MsgEVMTransactionResponse := MsgEVMTransactionResponse(0, [], "")

  /** The steps of `EVMTransaction` that can stop it. */
  datatype Step = FeeCollectorLookup | MessageConversion | StateTransition | Finalize

  /**
   * The block context built for a transaction whose coinbase is the fee
   * collector: the EVM sees the current height and time, no hash for any
   * future block, a zero base fee, and as gas limit all of uint64 when the block
   * has no gas limit, otherwise exactly the gas the block has left.
   */
  function BlockContextFor(ctx: Context, staking: StakingView, coinbase: EvmAddress): (b: EvmBlockContext)
    ensures b.coinbase == coinbase && b.blockNumber == ctx.blockHeight && b.baseFee == 0
    ensures ctx.blockTime >= 0 ==> b.time == ctx.blockTime
    ensures forall height: u64 :: height > ctx.blockHeight ==> b.getHash(height) == ZeroHash
    ensures ctx.blockHeight >= 0 ==> b.getHash(ctx.blockHeight) == BytesToHash(ctx.headerHash)
    ensures ctx.blockGasMeter.Limit() == 0 ==> b.gasLimit == MaxUint64
    ensures ctx.blockGasMeter.Limit() != 0 ==>
      b.gasLimit + ctx.blockGasMeter.GasConsumedToLimit() == ctx.blockGasMeter.Limit()
  {
    EvmBlockContext(GetHashFn(ctx, staking), coinbase, BlockGasPool(ctx.blockGasMeter), ctx.blockHeight,
      Int64ToUint64(ctx.blockTime), GetBaseFee())
  }

  /**
   * `msgServer.EVMTransaction`. `steps` lists the steps that ran, in order: a
   * failing step ends the call with an empty response and its error, and no
   * later step runs. On success the response carries the gas used and the
   * data returned by the transition, which ran with the fee collector as
   * coinbase, the block gas pool as gas limit and a zero base fee.
   */
  method EVMTransaction(k: Keeper, staking: StakingView, ctx: Context, txHash: string, env: EvmEnv)
    returns (resp: MsgEVMTransactionResponse, err: Option<Error>, steps: seq<Step>)
    ensures 1 <= |steps| <= 4 && steps == [FeeCollectorLookup, MessageConversion, StateTransition, Finalize][..|steps|]
    ensures err.Some? ==> resp == EmptyResponse
    ensures |steps| < 4 ==> err.Some?
    ensures k.GetFeeCollectorAddress().Err? <==> steps == [FeeCollectorLookup] && err.Some?
    ensures k.GetFeeCollectorAddress().Err? ==> err == Some(FeeCollectorNotFound)
    ensures |steps| >= 2 ==> k.GetFeeCollectorAddress().Ok?
    ensures |steps| == 2 ==> env.toMessage(ctx.blockHeight, 0).Err? && err == Some(env.toMessage(ctx.blockHeight, 0).error)
    ensures |steps| >= 3 ==> env.toMessage(ctx.blockHeight, 0).Ok?
    ensures |steps| == 3 ==>
      var r := env.transition(BlockContextFor(ctx, staking, k.GetFeeCollectorAddress().value), env.toMessage(ctx.blockHeight, 0).value);
      r.Err? && err == Some(r.error)
    ensures |steps| == 4 ==>
      var r := env.transition(BlockContextFor(ctx, staking, k.GetFeeCollectorAddress().value), env.toMessage(ctx.blockHeight, 0).value);
      r.Ok? && err == env.finalizeErr &&
      (err.None? ==> resp == MsgEVMTransactionResponse(r.value.usedGas, r.value.returnData, txHash))
  {
    var gp: u64;
    if ctx.blockGasMeter.Limit() == 0 {
      gp := MaxUint64;
    } else {
      gp := Sub64(ctx.blockGasMeter.Limit(), ctx.blockGasMeter.GasConsumedToLimit());
    }
    var baseFee := GetBaseFee();
    steps := [FeeCollectorLookup];
    var coinbase := k.GetFeeCollectorAddress();
    if coinbase.Err? {
      return EmptyResponse, Some(coinbase.error), steps;
    }
    var blockCtx := EvmBlockContext(GetHashFn(ctx, staking), coinbase.value, gp, ctx.blockHeight,
      Int64ToUint64(ctx.blockTime), baseFee);
    steps := steps + [MessageConversion];
    var emsg := env.toMessage(ctx.blockHeight, baseFee);
    if emsg.Err? {
      return EmptyResponse, Some(emsg.error), steps;
    }
    steps := steps + [StateTransition];
    var res := env.transition(blockCtx, emsg.value);
    if res.Err? {
      return EmptyResponse, Some(res.error), steps;
    }
    steps := steps + [Finalize];
    if env.finalizeErr.Some? {
      return EmptyResponse, env.finalizeErr, steps;
    }
    resp := MsgEVMTransactionResponse(res.value.usedGas, res.value.returnData, txHash);
    err := None;
  }
}
