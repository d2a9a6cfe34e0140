/**
 * The wasmd precompile (precompiles/wasmd/wasmd.go): the EVM contract through
 * which EVM callers instantiate, execute and query CosmWasm contracts. ABI
 * decoding, bech32 decoding, the coin JSON decoding, the wasm keepers and
 * the priority-normaliser scaling are given as functions of a `Precompile`
 * value; what is modelled is the dispatch, the gas-limit clamp, the default
 * addresses, the early error exits and the recovery of panics.
 */
module WasmdPrecompile {
  import opened Common
  import opened EvmKeeper

  const InstantiateMethod: string := "instantiate"
  const ExecuteMethod: string := "execute"
  const QueryMethod: string := "query"

  const WasmdAddress: string := "0x0000000000000000000000000000000000001002"

  /** `IsTransaction`: the methods that change state. */
  function IsTransaction(name: string): (r: bool)
    ensures r <==> name == ExecuteMethod || name == InstantiateMethod
    ensures name == QueryMethod ==> !r
  {
    match name
    case "execute" => true
    case "instantiate" => true
    case _ => false
  }

  // ---------------------------------------------------------------------
  // The precompile's inputs and collaborators
  // ---------------------------------------------------------------------

  /** A decoded ABI argument (`args[i]` of type uint64, string or []byte). */
  datatype Arg = U64Arg(u: u64) | StrArg(s: string) | BytesArg(b: Bytes)

  datatype Method = Method(name: string)

  datatype Coin = Coin(denom: string, amount: nat)

  /** What `p.Prepare(evm, input)` returns: the SDK context, the ABI method and its arguments. */
  datatype Prepared = Prepared(ctx: Context, abiMethod: Method, args: seq<Arg>)

  /**
   * The result of a keeper call: its result and the gas meter after it, or a
   * panic (running out of gas panics) with its message.
   */
  datatype KeeperOutcome<T> = Returned(result: Result<T>, meterAfter: GasMeter) | KeeperPanicked(message: string)

  datatype InstantiateRequest = InstantiateRequest(
    codeID: u64, creator: SeiAddress, admin: Option<SeiAddress>, msg: Bytes, contractLabel: string, coins: seq<Coin>)

  datatype ExecuteRequest = ExecuteRequest(contract: SeiAddress, sender: SeiAddress, msg: Bytes, coins: seq<Coin>)

  datatype QueryRequest = QueryRequest(contract: SeiAddress, req: Bytes)

  /**
   * The precompile with everything it calls: `ABI.MethodById`, the common
   * `RequiredGas`, `Prepare`, the priority-normaliser scaling of a gas
   * amount up (`Mul(...).RoundInt()`) and down (`Quo(...).RoundInt()`), the
   * EVM keeper's `GetSeiAddress`, `AccAddressFromBech32`, `AccAddress.String`,
   * the coins JSON decoding, the three wasm keeper calls and
   * `method.Outputs.Pack`.
   */
  datatype Precompile = Precompile(
    methodById: Bytes -> Option<Method>,
    baseRequiredGas: (Bytes, bool) -> u64,
    prepare: Bytes -> Result<Prepared>,
    scaleGas: (Context, u64) -> int,
    unscaleGas: (Context, u64) -> int,
    getSeiAddress: EvmAddress -> Option<SeiAddress>,
    accAddressFromBech32: string -> Result<SeiAddress>,
    addressString: SeiAddress -> string,
    decodeCoins: Bytes -> Result<seq<Coin>>,
    instantiate: (InstantiateRequest, GasMeter) -> KeeperOutcome<(SeiAddress, Bytes)>,
    execute: (ExecuteRequest, GasMeter) -> KeeperOutcome<Bytes>,
    querySmart: (QueryRequest, GasMeter) -> KeeperOutcome<Bytes>,
    pack: (Method, seq<Arg>) -> Result<Bytes>)

  // ---------------------------------------------------------------------
  // RequiredGas
  // ---------------------------------------------------------------------

  /** What `RequiredGas` returns, or the panic of slicing an input shorter than the method ID. */
  datatype GasOutcome = Gas(amount: u64) | GasPanicked

  const MethodIDLength: nat := 4

  /**
   * `RequiredGas`: 0 for an unknown method ID (the call fails later, in
   * `Run`), otherwise the common required gas for the input, as a
   * transaction or not according to the method's name.
   */
  function RequiredGas(p: Precompile, input: Bytes): (r: GasOutcome)
    ensures r == GasPanicked <==> |input| < MethodIDLength
    ensures |input| >= MethodIDLength && p.methodById(input[..MethodIDLength]).None? ==> r == Gas(0)
    ensures |input| >= MethodIDLength && p.methodById(input[..MethodIDLength]).Some? ==>
      var name := p.methodById(input[..MethodIDLength]).value.name;
      r == Gas(p.baseRequiredGas(input, name == ExecuteMethod || name == InstantiateMethod))
  {
    if |input| < MethodIDLength then GasPanicked
    else match p.methodById(input[..MethodIDLength])
      case None => Gas(0)
      case Some(m) => Gas(p.baseRequiredGas(input, IsTransaction(m.name)))
  }

  // ---------------------------------------------------------------------
  // Gas conversions
  // ---------------------------------------------------------------------

  /**
   * The limit of the gas meter `RunAndCalculateGas` installs: the scaled
   * gas, capped at MaxUint64, then `big.Int.Uint64()`, which takes the low
   * 64 bits of the magnitude of a negative value.
   */
  function GasLimitFor(scaled: int): (r: u64)
    ensures 0 <= scaled <= MaxUint64 ==> r == scaled
    ensures scaled > MaxUint64 ==> r == MaxUint64
    ensures scaled < 0 ==> r == Low64(-scaled)
  {
    var capped := if scaled > MaxUint64 then MaxUint64 else scaled;
    if capped < 0 then Low64(-capped) else capped
  }

  /** A larger non-negative scaled gas never gives a lower limit. */
  lemma {:induction false} GasLimitMonotone(a: int, b: int)
    requires 0 <= a <= b
    ensures GasLimitFor(a) <= GasLimitFor(b)
  {
  }

  /**
   * `getRemainingGas`: the gas left on the context's meter, scaled back
   * down; `sdk.Int.Uint64()` panics (None) when that is not a uint64.
   */
  function RemainingGas(p: Precompile, ctx: Context): (r: Option<u64>)
    ensures var v := p.unscaleGas(ctx, Sub64(ctx.gasMeter.Limit(), ctx.gasMeter.GasConsumedToLimit()));
      (r.Some? <==> 0 <= v <= MaxUint64) && (r.Some? ==> r.value == v)
  {
    var seiGasRemaining := Sub64(ctx.gasMeter.Limit(), ctx.gasMeter.GasConsumedToLimit());
    var v := p.unscaleGas(ctx, seiGasRemaining);
    if 0 <= v <= MaxUint64 then Some(v) else None
  }

  /** On a basic meter the gas left is the limit minus what was consumed up to it, with no wrap-around. */
  lemma {:induction false} RemainingSeiGasOfBasicMeter(m: GasMeter)
    requires m.BasicGasMeter?
    ensures Sub64(m.Limit(), m.GasConsumedToLimit()) == m.Limit() - m.GasConsumedToLimit() <= m.limit
    ensures m.consumed >= m.limit ==> Sub64(m.Limit(), m.GasConsumedToLimit()) == 0
  {
  }

  /**
   * `getRemainingGas` on a basic meter: the unscaled difference of the limit
   * and the gas consumed, and the unscaled 0 once the meter is used up.
   */
  lemma {:induction false} RemainingGasOfBasicMeter(p: Precompile, ctx: Context)
    requires ctx.gasMeter.BasicGasMeter?
    ensures var v := p.unscaleGas(ctx, ctx.gasMeter.limit - ctx.gasMeter.GasConsumedToLimit());
      (RemainingGas(p, ctx).Some? <==> 0 <= v <= MaxUint64) && (RemainingGas(p, ctx).Some? ==> RemainingGas(p, ctx).value == v)
    ensures ctx.gasMeter.consumed >= ctx.gasMeter.limit ==>
      var z := p.unscaleGas(ctx, 0);
      RemainingGas(p, ctx) == if 0 <= z <= MaxUint64 then Some(z) else None
  {
    RemainingSeiGasOfBasicMeter(ctx.gasMeter);
  }

  // ---------------------------------------------------------------------
  // Results and panic recovery
  // ---------------------------------------------------------------------

  /** The named results `(ret, remainingGas, err)`. */
  datatype RunResult = RunResult(ret: Option<Bytes>, remainingGas: u64, err: Option<Error>)

  /** A call that failed: nil return data, no gas left and an error. */
  predicate Failed(r: RunResult)
  {
    r.ret.None? && r.remainingGas == 0 && r.err.Some?
  }

  /** What the deferred `recover` leaves after a panic with message `m`: a failure that reports `m`. */
  function Recovered(m: string): (r: RunResult)
    ensures Failed(r) && r.err.value.message == m
  {
    RunResult(None, 0, Some(Error(m)))
  }

  /** Every failure looks like a recovered panic with the failure's message. */
  lemma {:induction false} FailedIsRecoveredShape(r: RunResult)
    ensures Failed(r) <==> r.err.Some? && r == Recovered(r.err.value.message)
  {
  }

  /**
   * The panic of `pcommon.AssertArgsLength` or of a failed type assertion on
   * an argument. Its text comes from code that is not part of this model.
   */
  const ArgumentPanic: string := "invalid arguments"

  /** The panic of `sdk.Int.Uint64()` in `getRemainingGas`. */
  const RemainingGasPanic: string := "Uint64() out of bounds"

  /** The argument handling before the keeper call: a request, an early error return, or a panic. */
  datatype ArgsOutcome<T> = Ready(request: T) | Abort(error: Error) | ArgsPanicked

  /**
   * The Sei address a caller acts as: the address associated with it, or
   * else its own 20 bytes (`sdk.AccAddress(caller[:])`).
   */
  function CallerSeiAddress(p: Precompile, caller: EvmAddress): (a: SeiAddress)
    ensures p.getSeiAddress(caller).None? ==> a == caller
    ensures p.getSeiAddress(caller).Some? ==> a == p.getSeiAddress(caller).value
  {
    match p.getSeiAddress(caller)
    case None => caller
    case Some(associated) => associated
  }

  /**
   * The end of every call: pack the keeper's result, then compute the gas
   * left on the meter the keeper left; a packing error is returned with the
   * remaining gas.
   */
  function Finish(p: Precompile, ctx: Context, abiMethod: Method, outputs: seq<Arg>, meterAfter: GasMeter): (r: RunResult)
    ensures RemainingGas(p, ctx.WithGasMeter(meterAfter)).None? ==> r == Recovered(RemainingGasPanic)
    ensures RemainingGas(p, ctx.WithGasMeter(meterAfter)).Some? ==>
      r.remainingGas == RemainingGas(p, ctx.WithGasMeter(meterAfter)).value &&
      (r.err.None? <==> p.pack(abiMethod, outputs).Ok?) &&
      (r.err.Some? ==> r.err.value == p.pack(abiMethod, outputs).error) &&
      (r.ret.Some? <==> p.pack(abiMethod, outputs).Ok?) &&
      (r.ret.Some? ==> r.ret.value == p.pack(abiMethod, outputs).value)
  {
    var packed := p.pack(abiMethod, outputs);
    var ret := if packed.Ok? then Some(packed.value) else None;
    var rerr := if packed.Err? then Some(packed.error) else None;
    match RemainingGas(p, ctx.WithGasMeter(meterAfter))
    case None => Recovered(RemainingGasPanic)
    case Some(g) => RunResult(ret, g, rerr)
  }

  /** Running a keeper call: a panic is recovered, an error returned with nothing else, a result finished. */
  function AfterKeeper<T>(p: Precompile, ctx: Context, abiMethod: Method, outcome: KeeperOutcome<T>, outputs: T -> seq<Arg>)
    : (r: RunResult)
    ensures outcome.KeeperPanicked? ==> r == Recovered(outcome.message)
    ensures outcome.Returned? && outcome.result.Err? ==> r == RunResult(None, 0, Some(outcome.result.error))
    ensures outcome.Returned? && outcome.result.Ok? ==>
      r == Finish(p, ctx, abiMethod, outputs(outcome.result.value), outcome.meterAfter)
    ensures !(outcome.Returned? && outcome.result.Ok?) ==> Failed(r)
  {
    match outcome
    case KeeperPanicked(m) => Recovered(m)
    case Returned(Err(e), _) => RunResult(None, 0, Some(e))
    case Returned(Ok(v), meterAfter) => Finish(p, ctx, abiMethod, outputs(v), meterAfter)
  }

  /** The call's result, given the outcome of the argument handling. */
  function Dispatch<T, R>(p: Precompile, ctx: Context, abiMethod: Method, args: ArgsOutcome<T>,
                          keeper: (T, GasMeter) -> KeeperOutcome<R>, outputs: R -> seq<Arg>): (r: RunResult)
    ensures args.ArgsPanicked? ==> r == Recovered(ArgumentPanic)
    ensures args.Abort? ==> r == RunResult(None, 0, Some(args.error))
    ensures args.Ready? ==> r == AfterKeeper(p, ctx, abiMethod, keeper(args.request, ctx.gasMeter), outputs)
    ensures !args.Ready? ==> Failed(r)
  {
    match args
    case ArgsPanicked => Recovered(ArgumentPanic)
    case Abort(e) => RunResult(None, 0, Some(e))
    case Ready(req) => AfterKeeper(p, ctx, abiMethod, keeper(req, ctx.gasMeter), outputs)
  }

  // ---------------------------------------------------------------------
  // instantiate
  // ---------------------------------------------------------------------

  /** The five arguments of `instantiate` with the types its ABI method declares. */
  predicate InstantiateArgsTyped(args: seq<Arg>)
  {
    |args| == 5 && args[0].U64Arg? && args[1].StrArg? && args[2].BytesArg? && args[3].StrArg? && args[4].BytesArg?
  }

  /** The admin string leaves the admin unset (empty) or is a bech32 address that decodes. */
  predicate AdminDecodes(p: Precompile, admin: string)
  {
    admin == "" || p.accAddressFromBech32(admin).Ok?
  }

  /**
   * The argument handling of `instantiate`, in source order: five arguments
   * (a uint64 code ID, an admin string, a message, a label and the coins
   * JSON), the creator, and the admin, which an empty string leaves unset
   * and which otherwise must decode. A wrong count or type panics.
   */
  function InstantiateArgs(p: Precompile, caller: EvmAddress, args: seq<Arg>): (r: ArgsOutcome<InstantiateRequest>)
    ensures |args| != 5 ==> r == ArgsPanicked
    ensures r.Ready? <==>
      InstantiateArgsTyped(args) && AdminDecodes(p, args[1].s) && p.decodeCoins(args[4].b).Ok?
    ensures r.ArgsPanicked? <==>
      |args| != 5 || !args[0].U64Arg? || !args[1].StrArg? || (AdminDecodes(p, args[1].s) && !InstantiateArgsTyped(args))
    ensures InstantiateArgsTyped(args) && AdminDecodes(p, args[1].s) && p.decodeCoins(args[4].b).Err? ==>
      r == Abort(p.decodeCoins(args[4].b).error)
    ensures |args| == 5 && args[1].StrArg? && args[1].s == "" && r.Abort? ==>
      args[4].BytesArg? && r == Abort(p.decodeCoins(args[4].b).error)
    ensures r.Ready? ==>
      |args| == 5 && args[0].U64Arg? && args[1].StrArg? && args[2].BytesArg? && args[3].StrArg? && args[4].BytesArg?
    ensures r.Ready? ==>
      r.request.creator == CallerSeiAddress(p, caller) && r.request.codeID == args[0].u &&
      r.request.msg == args[2].b && r.request.contractLabel == args[3].s && p.decodeCoins(args[4].b) == Ok(r.request.coins)
    ensures r.Ready? ==> (r.request.admin.None? <==> args[1].s == "")
    ensures r.Ready? && args[1].s != "" ==> p.accAddressFromBech32(args[1].s) == Ok(r.request.admin.value)
    ensures (|args| == 5 && args[0].U64Arg? && args[1].StrArg? && args[1].s != "" &&
             p.accAddressFromBech32(args[1].s).Err?) ==>
      r == Abort(p.accAddressFromBech32(args[1].s).error)
  {
    if |args| != 5 || !args[0].U64Arg? then ArgsPanicked
    else
      var codeID := args[0].u;
      var creatorAddr := CallerSeiAddress(p, caller);
      if !args[1].StrArg? then ArgsPanicked
      else
        var adminAddrStr := args[1].s;
        var admin: Result<Option<SeiAddress>> :=
          if |adminAddrStr| > 0 then
            match p.accAddressFromBech32(adminAddrStr)
            case Err(e) => Err(e)
            case Ok(a) => Ok(Some(a))
          else Ok(None);
        if admin.Err? then Abort(admin.error)
        else if !args[2].BytesArg? || !args[3].StrArg? || !args[4].BytesArg? then ArgsPanicked
        else match p.decodeCoins(args[4].b)
          case Err(e) => Abort(e)
          case Ok(coins) => Ready(InstantiateRequest(codeID, creatorAddr, admin.value, args[2].b, args[3].s, coins))
  }

  /**
   * The values `instantiate` packs, in the order of its ABI outputs: the new
   * contract's address as a bech32 string, then the data it returned.
   */
  function InstantiateOutputs(p: Precompile): (f: ((SeiAddress, Bytes)) -> seq<Arg>)
  {
    (res: (SeiAddress, Bytes)) => [StrArg(p.addressString(res.0)), BytesArg(res.1)]
  }

  /**
   * `instantiate`: the wasm keeper's `Instantiate` with the request built
   * from the arguments, and its address and data packed. Every failure
   * before packing returns nil, no gas left and an error.
   */
  function Instantiate(p: Precompile, ctx: Context, abiMethod: Method, caller: EvmAddress, args: seq<Arg>): (r: RunResult)
    ensures |args| != 5 ==> r == Recovered(ArgumentPanic)
    ensures InstantiateArgs(p, caller, args).Ready? ==>
      r == AfterKeeper(p, ctx, abiMethod, p.instantiate(InstantiateArgs(p, caller, args).request, ctx.gasMeter), InstantiateOutputs(p))
    ensures !InstantiateArgs(p, caller, args).Ready? ==> Failed(r)
  {
    Dispatch(p, ctx, abiMethod, InstantiateArgs(p, caller, args), p.instantiate, InstantiateOutputs(p))
  }

  // ---------------------------------------------------------------------
  // execute
  // ---------------------------------------------------------------------

  /**
   * The argument handling of `execute`: three arguments (the contract's
   * bech32 address, which must decode, the message and the coins JSON), and
   * the sender.
   */
  function ExecuteArgs(p: Precompile, caller: EvmAddress, args: seq<Arg>): (r: ArgsOutcome<ExecuteRequest>)
    ensures |args| != 3 ==> r == ArgsPanicked
    ensures r.Ready? <==>
      |args| == 3 && args[0].StrArg? && args[1].BytesArg? && args[2].BytesArg? &&
      p.accAddressFromBech32(args[0].s).Ok? && p.decodeCoins(args[2].b).Ok?
    ensures r.ArgsPanicked? <==>
      |args| != 3 || !args[0].StrArg? ||
      (p.accAddressFromBech32(args[0].s).Ok? && !(args[1].BytesArg? && args[2].BytesArg?))
    ensures |args| == 3 && args[0].StrArg? && args[1].BytesArg? && args[2].BytesArg? &&
            p.accAddressFromBech32(args[0].s).Ok? && p.decodeCoins(args[2].b).Err? ==>
      r == Abort(p.decodeCoins(args[2].b).error)
    ensures r.Ready? ==> |args| == 3 && args[0].StrArg? && args[1].BytesArg? && args[2].BytesArg?
    ensures r.Ready? ==>
      r.request.sender == CallerSeiAddress(p, caller) && r.request.msg == args[1].b &&
      p.accAddressFromBech32(args[0].s) == Ok(r.request.contract) && p.decodeCoins(args[2].b) == Ok(r.request.coins)
    ensures |args| == 3 && args[0].StrArg? && p.accAddressFromBech32(args[0].s).Err? ==>
      r == Abort(p.accAddressFromBech32(args[0].s).error)
  {
    if |args| != 3 || !args[0].StrArg? then ArgsPanicked
    else match p.accAddressFromBech32(args[0].s)
      case Err(e) => Abort(e)
      case Ok(contractAddr) =>
        var senderAddr := CallerSeiAddress(p, caller);
        if !args[1].BytesArg? || !args[2].BytesArg? then ArgsPanicked
        else match p.decodeCoins(args[2].b)
          case Err(e) => Abort(e)
          case Ok(coins) => Ready(ExecuteRequest(contractAddr, senderAddr, args[1].b, coins))
  }

  /** The one value `execute` and `query` pack: the bytes the keeper returned. */
  function BytesOutput(res: Bytes): (r: seq<Arg>)
  {
    [BytesArg(res)]
  }

  /** `execute`: the wasm keeper's `Execute` with the request built from the arguments, its result packed. */
  function Execute(p: Precompile, ctx: Context, abiMethod: Method, caller: EvmAddress, args: seq<Arg>): (r: RunResult)
    ensures |args| != 3 ==> r == Recovered(ArgumentPanic)
    ensures ExecuteArgs(p, caller, args).Ready? ==>
      r == AfterKeeper(p, ctx, abiMethod, p.execute(ExecuteArgs(p, caller, args).request, ctx.gasMeter), BytesOutput)
    ensures !ExecuteArgs(p, caller, args).Ready? ==> Failed(r)
  {
    Dispatch(p, ctx, abiMethod, ExecuteArgs(p, caller, args), p.execute, BytesOutput)
  }

  // ---------------------------------------------------------------------
  // query
  // ---------------------------------------------------------------------

  /** The argument handling of `query`: the contract's bech32 address, which must decode, and the request. */
  function QueryArgs(p: Precompile, args: seq<Arg>): (r: ArgsOutcome<QueryRequest>)
    ensures |args| != 2 ==> r == ArgsPanicked
    ensures r.Ready? <==> |args| == 2 && args[0].StrArg? && args[1].BytesArg? && p.accAddressFromBech32(args[0].s).Ok?
    ensures r.ArgsPanicked? <==>
      |args| != 2 || !args[0].StrArg? || (p.accAddressFromBech32(args[0].s).Ok? && !args[1].BytesArg?)
    ensures r.Ready? ==>
      |args| == 2 && args[0].StrArg? && args[1].BytesArg? &&
      p.accAddressFromBech32(args[0].s) == Ok(r.request.contract) && r.request.req == args[1].b
    ensures |args| == 2 && args[0].StrArg? && p.accAddressFromBech32(args[0].s).Err? ==>
      r == Abort(p.accAddressFromBech32(args[0].s).error)
  {
    if |args| != 2 || !args[0].StrArg? then ArgsPanicked
    else match p.accAddressFromBech32(args[0].s)
      case Err(e) => Abort(e)
      case Ok(contractAddr) =>
        if !args[1].BytesArg? then ArgsPanicked
        else Ready(QueryRequest(contractAddr, args[1].b))
  }

  /** `query`: the wasm view keeper's `QuerySmart`, its result packed. */
  function Query(p: Precompile, ctx: Context, abiMethod: Method, args: seq<Arg>): (r: RunResult)
    ensures |args| != 2 ==> r == Recovered(ArgumentPanic)
    ensures QueryArgs(p, args).Ready? ==>
      r == AfterKeeper(p, ctx, abiMethod, p.querySmart(QueryArgs(p, args).request, ctx.gasMeter), BytesOutput)
    ensures !QueryArgs(p, args).Ready? ==> Failed(r)
  {
    Dispatch(p, ctx, abiMethod, QueryArgs(p, args), p.querySmart, BytesOutput)
  }

  // ---------------------------------------------------------------------
  // RunAndCalculateGas
  // ---------------------------------------------------------------------

  /**
   * The context a call runs in: the prepared context with a fresh basic gas
   * meter, nothing consumed on it, whose limit is the scaled supplied gas
   * when that is a uint64 and otherwise its clamped conversion.
   */
  function CallContext(p: Precompile, prepared: Prepared, suppliedGas: u64): (ctx: Context)
    ensures ctx.gasMeter.BasicGasMeter? && ctx.gasMeter.consumed == 0 && ctx.gasMeter.GasConsumedToLimit() == 0
    ensures ctx.gasMeter.Limit() == GasLimitFor(p.scaleGas(prepared.ctx, suppliedGas))
    ensures 0 <= p.scaleGas(prepared.ctx, suppliedGas) <= MaxUint64 ==>
      ctx.gasMeter.Limit() == p.scaleGas(prepared.ctx, suppliedGas)
    ensures ctx.blockHeight == prepared.ctx.blockHeight && ctx.blockTime == prepared.ctx.blockTime
    ensures ctx.headerHash == prepared.ctx.headerHash && ctx.blockGasMeter == prepared.ctx.blockGasMeter
  {
    prepared.ctx.WithGasMeter(NewGasMeter(GasLimitFor(p.scaleGas(prepared.ctx, suppliedGas))))
  }

  /**
   * When the normaliser's scaling is monotone, more supplied gas never gives
   * the call a lower gas limit.
   */
  lemma {:induction false} SuppliedGasMonotone(p: Precompile, prepared: Prepared, a: u64, b: u64)
    requires a <= b
    requires 0 <= p.scaleGas(prepared.ctx, a) <= p.scaleGas(prepared.ctx, b)
    ensures CallContext(p, prepared, a).gasMeter.Limit() <= CallContext(p, prepared, b).gasMeter.Limit()
  {
    GasLimitMonotone(p.scaleGas(prepared.ctx, a), p.scaleGas(prepared.ctx, b));
  }

  /**
   * A call whose keeper consumes no gas hands back all the gas supplied,
   * when the scaled gas is a uint64 and scaling it back down gives the
   * supplied amount.
   */
  lemma {:induction false} UnspentCallGasReturned(p: Precompile, prepared: Prepared, suppliedGas: u64)
    requires 0 <= p.scaleGas(prepared.ctx, suppliedGas) <= MaxUint64
    requires p.unscaleGas(CallContext(p, prepared, suppliedGas), p.scaleGas(prepared.ctx, suppliedGas)) == suppliedGas
    ensures RemainingGas(p, CallContext(p, prepared, suppliedGas)) == Some(suppliedGas)
  {
    RemainingGasOfBasicMeter(p, CallContext(p, prepared, suppliedGas));
  }

  /**
   * `RunAndCalculateGas`: a `Prepare` error is returned with nil and no gas;
   * otherwise the call runs under a gas meter limited to the clamped, scaled
   * supplied gas, dispatched on the method's name, and any other name
   * returns nil, no gas and no error.
   */
  method RunAndCalculateGas(p: Precompile, caller: EvmAddress, input: Bytes, suppliedGas: u64)
    returns (ret: Option<Bytes>, remainingGas: u64, err: Option<Error>)
    ensures p.prepare(input).Err? ==> ret.None? && remainingGas == 0 && err == Some(p.prepare(input).error)
    ensures p.prepare(input).Ok? ==>
      var pr := p.prepare(input).value;
      var ctx := CallContext(p, pr, suppliedGas);
      var r := RunResult(ret, remainingGas, err);
      (pr.abiMethod.name == InstantiateMethod ==> r == Instantiate(p, ctx, pr.abiMethod, caller, pr.args)) &&
      (pr.abiMethod.name == ExecuteMethod ==> r == Execute(p, ctx, pr.abiMethod, caller, pr.args)) &&
      (pr.abiMethod.name == QueryMethod ==> r == Query(p, ctx, pr.abiMethod, pr.args)) &&
      (pr.abiMethod.name !in {InstantiateMethod, ExecuteMethod, QueryMethod} ==> r == RunResult(None, 0, None))
  {
    var prepared := p.prepare(input);
    if prepared.Err? {
      return None, 0, Some(prepared.error);
    }
    var ctx := prepared.value.ctx;
    var abiMethod := prepared.value.abiMethod;
    var args := prepared.value.args;
    var gasLimit := GasLimitFor(p.scaleGas(ctx, suppliedGas));
    ctx := ctx.WithGasMeter(NewGasMeter(gasLimit));
    var r: RunResult;
    if abiMethod.name == InstantiateMethod {
      r := Instantiate(p, ctx, abiMethod, caller, args);
    } else if abiMethod.name == ExecuteMethod {
      r := Execute(p, ctx, abiMethod, caller, args);
    } else if abiMethod.name == QueryMethod {
      r := Query(p, ctx, abiMethod, args);
    } else {
      return None, 0, None;
    }
    return r.ret, r.remainingGas, r.err;
  }
}
