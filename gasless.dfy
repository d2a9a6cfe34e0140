/**
 * The gasless ante decorator (app/antedecorators/gasless.go). A transaction
 * is gasless when it has at least one message and every message is a dex
 * PlaceOrders, a dex CancelOrders whose signers are all whitelisted, an
 * oracle aggregate vote that is the validator's first in the window, or a
 * nitro RecordTransactionData whose signers the nitro keeper whitelists. A
 * gasless transaction skips the wrapped decorators and runs `next` with an
 * infinite gas meter; any other transaction runs every wrapped decorator in
 * turn and then `next`.
 */
module AnteDecorators {
  import opened Common

  type AccAddress = Bytes
  type ValAddress = Bytes

  /** The message kinds the classification distinguishes; `signers` is `GetSigners()`. */
  datatype Msg =
    | MsgPlaceOrders(creator: string)
    | MsgCancelOrders(signers: seq<AccAddress>)
    | MsgAggregateExchangeRateVote(feeder: string, validator: string)
    | MsgRecordTransactionData(signers: seq<AccAddress>)
    | OtherMsg(typeUrl: string)

  datatype Tx = Tx(msgs: seq<Msg>)

  /** The bech32 conversions of the sdk; None is a decoding error. */
  datatype AddressCodec = AddressCodec(
    accAddressFromBech32: string -> Option<AccAddress>,
    valAddressFromBech32: string -> Option<ValAddress>,
    accAddressString: AccAddress -> string)

  /**
   * The oracle keeper's answers: `ValidateFeeder` succeeds, and
   * `GetAggregateExchangeRateVote` finds a vote (it errs iff there is none).
   */
  datatype OracleKeeper = OracleKeeper(
    validateFeeder: (Context, AccAddress, ValAddress) -> bool,
    hasAggregateVote: (Context, ValAddress) -> bool)

  datatype NitroKeeper = NitroKeeper(isTxSenderWhitelisted: (Context, string) -> bool)

  /** Go's `WhitelistedGaslessCancellationAddrs`, empty by default. */
  const WhitelistedGaslessCancellationAddrs: seq<AccAddress> := []

  // ---------------------------------------------------------------------
  // The classification, as predicates
  // ---------------------------------------------------------------------

  predicate AllWhitelisted(signers: seq<AccAddress>, whitelist: seq<AccAddress>)
  {
    forall i :: 0 <= i < |signers| ==> signers[i] in whitelist
  }

  predicate AllNitroWhitelisted(signers: seq<AccAddress>, ctx: Context, codec: AddressCodec, nk: NitroKeeper)
  {
    forall i :: 0 <= i < |signers| ==> nk.isTxSenderWhitelisted(ctx, codec.accAddressString(signers[i]))
  }

  predicate MsgIsGasless(m: Msg, ctx: Context, codec: AddressCodec, ok: OracleKeeper, nk: NitroKeeper)
  {
    match m
    case MsgPlaceOrders(_) => DexPlaceOrdersIsGasless(m)
    case MsgCancelOrders(signers) => AllWhitelisted(signers, WhitelistedGaslessCancellationAddrs)
    case MsgAggregateExchangeRateVote(_, _) => OracleVoteIsGasless(m, ctx, codec, ok)
    case MsgRecordTransactionData(signers) => AllNitroWhitelisted(signers, ctx, codec, nk)
    case OtherMsg(_) => false
  }

  predicate TxIsGasless(tx: Tx, ctx: Context, codec: AddressCodec, ok: OracleKeeper, nk: NitroKeeper)
  {
    |tx.msgs| > 0 && forall i :: 0 <= i < |tx.msgs| ==> MsgIsGasless(tx.msgs[i], ctx, codec, ok, nk)
  }

  // ---------------------------------------------------------------------
  // The per-message predicates and the transaction loop
  // ---------------------------------------------------------------------

  /** `DexPlaceOrdersIsGasless`: every PlaceOrders message is gasless. */
  predicate DexPlaceOrdersIsGasless(msg: Msg): (r: bool)
    requires msg.MsgPlaceOrders?
    ensures r
  {
    true
  }

  /** `allSignersWhitelisted`: every signer is byte-equal to some whitelist entry. */
  method AllSignersWhitelisted(msg: Msg, whitelist: seq<AccAddress>) returns (ok: bool)
    requires msg.MsgCancelOrders?
    ensures ok <==> AllWhitelisted(msg.signers, whitelist)
    ensures msg.signers == [] ==> ok
    ensures whitelist == [] ==> (ok <==> msg.signers == [])
  {
    var signers := msg.signers;
    var i := 0;
    while i < |signers|
      invariant 0 <= i <= |signers|
      invariant forall k :: 0 <= k < i ==> signers[k] in whitelist
      invariant whitelist == [] ==> i == 0
    {
      var isWhitelisted := false;
      var j := 0;
      while j < |whitelist|
        invariant 0 <= j <= |whitelist|
        invariant !isWhitelisted
        invariant forall k :: 0 <= k < j ==> whitelist[k] != signers[i]
      {
        if signers[i] == whitelist[j] {
          isWhitelisted := true;
          break;
        }
        j := j + 1;
      }
      if !isWhitelisted {
        assert signers[i] !in whitelist;
        return false;
      }
      i := i + 1;
    }
    return true;
  }

  /** `DexCancelOrdersIsGasless`: with the default empty whitelist, only a message without signers passes. */
  method DexCancelOrdersIsGasless(msg: Msg) returns (ok: bool)
    requires msg.MsgCancelOrders?
    ensures ok <==> AllWhitelisted(msg.signers, WhitelistedGaslessCancellationAddrs)
    ensures ok <==> msg.signers == []
  {
    ok := AllSignersWhitelisted(msg, WhitelistedGaslessCancellationAddrs);
  }

  /**
   * `OracleVoteIsGasless`: the feeder and validator addresses decode, the
   * feeder is valid for the validator, and the validator has no vote yet.
   */
  predicate OracleVoteIsGasless(msg: Msg, ctx: Context, codec: AddressCodec, keeper: OracleKeeper): (r: bool)
    requires msg.MsgAggregateExchangeRateVote?
    ensures r <==>
      && codec.accAddressFromBech32(msg.feeder).Some?
      && codec.valAddressFromBech32(msg.validator).Some?
      && keeper.validateFeeder(ctx, codec.accAddressFromBech32(msg.feeder).value, codec.valAddressFromBech32(msg.validator).value)
      && !keeper.hasAggregateVote(ctx, codec.valAddressFromBech32(msg.validator).value)
  {
    match codec.accAddressFromBech32(msg.feeder)
    case None => false
    case Some(feederAddr) =>
      match codec.valAddressFromBech32(msg.validator)
      case None => false
      case Some(valAddr) =>
        if !keeper.validateFeeder(ctx, feederAddr, valAddr) then false
        else !keeper.hasAggregateVote(ctx, valAddr)
  }

  /** `NitroRecordTxDataGasless`: every signer's address string is whitelisted by the nitro keeper. */
  method NitroRecordTxDataGasless(msg: Msg, ctx: Context, codec: AddressCodec, keeper: NitroKeeper) returns (ok: bool)
    requires msg.MsgRecordTransactionData?
    ensures ok <==> AllNitroWhitelisted(msg.signers, ctx, codec, keeper)
  {
    var signers := msg.signers;
    var i := 0;
    while i < |signers|
      invariant 0 <= i <= |signers|
      invariant AllNitroWhitelisted(signers[..i], ctx, codec, keeper)
    {
      if !keeper.isTxSenderWhitelisted(ctx, codec.accAddressString(signers[i])) {
        return false;
      }
      i := i + 1;
    }
    assert signers[..i] == signers;
    return true;
  }

  /** `isTxGasless`: non-empty, and every message is of a gasless kind and passes its predicate. */
  method IsTxGasless(tx: Tx, ctx: Context, codec: AddressCodec, oracleKeeper: OracleKeeper, nitroKeeper: NitroKeeper)
    returns (gasless: bool)
    ensures gasless <==> TxIsGasless(tx, ctx, codec, oracleKeeper, nitroKeeper)
    ensures tx.msgs == [] ==> !gasless
    ensures (exists i :: 0 <= i < |tx.msgs| && tx.msgs[i].OtherMsg?) ==> !gasless
  {
    if |tx.msgs| == 0 {
      return false;
    }
    var i := 0;
    while i < |tx.msgs|
      invariant 0 <= i <= |tx.msgs|
      invariant forall k :: 0 <= k < i ==> MsgIsGasless(tx.msgs[k], ctx, codec, oracleKeeper, nitroKeeper)
    {
      var m := tx.msgs[i];
      match m {
        case MsgPlaceOrders(_) =>
          if !DexPlaceOrdersIsGasless(m) {
            return false;
          }
        case MsgCancelOrders(_) =>
          var ok := DexCancelOrdersIsGasless(m);
          if !ok {
            return false;
          }
        case MsgAggregateExchangeRateVote(_, _) =>
          if !OracleVoteIsGasless(m, ctx, codec, oracleKeeper) {
            return false;
          }
        case MsgRecordTransactionData(_) =>
          var ok := NitroRecordTxDataGasless(m, ctx, codec, nitroKeeper);
          if !ok {
            return false;
          }
        case OtherMsg(_) =>
          return false;
      }
      i := i + 1;
    }
    return true;
  }

  // ---------------------------------------------------------------------
  // AnteHandle
  // ---------------------------------------------------------------------

  datatype AnteResult = AnteResult(ctx: Context, err: Option<Error>)

  /** `sdk.AnteHandler`. */
  type AnteHandler = (Context, Tx, bool) -> AnteResult

  /** `sdk.AnteDecorator`: its `AnteHandle` receives the handler to continue with. */
  datatype AnteDecorator = AnteDecorator(anteHandle: (Context, Tx, bool, AnteHandler) -> AnteResult)

  datatype GaslessDecorator = GaslessDecorator(
    wrapped: seq<AnteDecorator>,
    oracleKeeper: OracleKeeper,
    nitroKeeper: NitroKeeper)

  /** The no-op `terminatorHandler` handed to each wrapped decorator: it returns its context and no error. */
  function Terminator(): (h: AnteHandler)
    ensures forall c, t, s :: h(c, t, s) == AnteResult(c, None)
  {
    (c: Context, t: Tx, s: bool) => AnteResult(c, None)
  }

  /**
   * The context after running `wrapped` in list order, each decorator getting
   * the context the previous one returned; their errors are dropped.
   */
  function RunWrapped(wrapped: seq<AnteDecorator>, ctx: Context, tx: Tx, simulate: bool): (r: Context)
    ensures wrapped == [] ==> r == ctx
    ensures |wrapped| == 1 ==> r == wrapped[0].anteHandle(ctx, tx, simulate, Terminator()).ctx
  {
    if wrapped == [] then ctx
    else
      var before := RunWrapped(wrapped[..|wrapped| - 1], ctx, tx, simulate);
      wrapped[|wrapped| - 1].anteHandle(before, tx, simulate, Terminator()).ctx
  }

  /** Running two lists of decorators one after the other is running their concatenation. */
  lemma {:induction false} RunWrappedAppend(a: seq<AnteDecorator>, b: seq<AnteDecorator>, ctx: Context, tx: Tx, simulate: bool)
    ensures RunWrapped(a + b, ctx, tx, simulate) == RunWrapped(b, RunWrapped(a, ctx, tx, simulate), tx, simulate)
  {
    if b == [] {
      assert a + b == a;
    } else {
      assert (a + b)[..|a + b| - 1] == a + b[..|b| - 1];
      RunWrappedAppend(a, b[..|b| - 1], ctx, tx, simulate);
    }
  }

  /** The first decorator runs on the original context, and the rest run on what it returned. */
  lemma {:induction false} RunWrappedFirst(wrapped: seq<AnteDecorator>, ctx: Context, tx: Tx, simulate: bool)
    requires wrapped != []
    ensures RunWrapped(wrapped, ctx, tx, simulate) ==
      RunWrapped(wrapped[1..], wrapped[0].anteHandle(ctx, tx, simulate, Terminator()).ctx, tx, simulate)
  {
    assert wrapped == [wrapped[0]] + wrapped[1..];
    RunWrappedAppend([wrapped[0]], wrapped[1..], ctx, tx, simulate);
  }

  /** A decorator that returns the context it was given, whatever its error, leaves the context as it was. */
  lemma {:induction false} RunWrappedPassThrough(wrapped: seq<AnteDecorator>, ctx: Context, tx: Tx, simulate: bool)
    requires forall i, c :: 0 <= i < |wrapped| ==> wrapped[i].anteHandle(c, tx, simulate, Terminator()).ctx == c
    ensures RunWrapped(wrapped, ctx, tx, simulate) == ctx
  {
    if wrapped != [] {
      RunWrappedPassThrough(wrapped[..|wrapped| - 1], ctx, tx, simulate);
    }
  }

  /**
   * `GaslessDecorator.AnteHandle`: a gasless transaction goes straight to
   * `next` with an infinite gas meter; any other runs the wrapped decorators
   * in order and then `next`, exactly once, with the context they produced.
   */
  method AnteHandle(gd: GaslessDecorator, codec: AddressCodec, ctx: Context, tx: Tx, simulate: bool, next: AnteHandler)
    returns (res: AnteResult)
    ensures TxIsGasless(tx, ctx, codec, gd.oracleKeeper, gd.nitroKeeper) ==>
      res == next(ctx.WithGasMeter(NewInfiniteGasMeter()), tx, simulate)
    ensures !TxIsGasless(tx, ctx, codec, gd.oracleKeeper, gd.nitroKeeper) ==>
      res == next(RunWrapped(gd.wrapped, ctx, tx, simulate), tx, simulate)
  {
    var gasless := IsTxGasless(tx, ctx, codec, gd.oracleKeeper, gd.nitroKeeper);
    if !gasless {
      var terminatorHandler := Terminator();
      var c := ctx;
      var i := 0;
      while i < |gd.wrapped|
        invariant 0 <= i <= |gd.wrapped|
        invariant c == RunWrapped(gd.wrapped[..i], ctx, tx, simulate)
      {
        assert gd.wrapped[..i + 1][..i] == gd.wrapped[..i];
        var r := gd.wrapped[i].anteHandle(c, tx, simulate, terminatorHandler);
        c := r.ctx;
        i := i + 1;
      }
      assert gd.wrapped[..i] == gd.wrapped;
      return next(c, tx, simulate);
    }
    var gaslessMeter := NewInfiniteGasMeter();
    return next(ctx.WithGasMeter(gaslessMeter), tx, simulate);
  }
}
