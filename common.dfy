/**
 * Value types shared by the modules of this model: bytes and fixed-width
 * integers, errors, big-endian integers, go-ethereum's fixed-size byte
 * conversions, cosmos-sdk gas meters, the parts of `sdk.Context` the keepers
 * read, and a key/value store.
 */
module Common {

  type byte = x: int | 0 <= x < 256
  type Bytes = seq<byte>

  const TwoTo64: int := 0x1_0000_0000_0000_0000
  const MaxUint64: int := 0xFFFF_FFFF_FFFF_FFFF
  const MaxInt64: int := 0x7FFF_FFFF_FFFF_FFFF

  /** Go's `uint64` and `int64`, as ranges of the unbounded integers. */
  type u64 = x: int | 0 <= x < 0x1_0000_0000_0000_0000
  type i64 = x: int | -0x8000_0000_0000_0000 <= x < 0x8000_0000_0000_0000

  datatype Option<T> = None | Some(value: T)

  /** A Go `error`: only its message is observable. */
  datatype Error = Error(message: string)

  datatype Result<T> = Ok(value: T) | Err(error: Error)

  /** Go's `a - b` on `uint64`, which wraps around modulo 2^64. */
  function Sub64(a: u64, b: u64): (r: u64)
    ensures b <= a ==> r == a - b
    ensures a < b ==> r == a - b + TwoTo64
  {
    (a - b) % TwoTo64
  }

  /** Go's conversion `uint64(x)` of an `int64`: a negative value wraps around modulo 2^64. */
  function Int64ToUint64(x: i64): (r: u64)
    ensures x >= 0 ==> r == x
    ensures x < 0 ==> r == x + TwoTo64
  {
    x % TwoTo64
  }

  /** Go's `(*big.Int).Uint64()` on a non-negative value: its low 64 bits. */
  function Low64(x: nat): (r: u64)
    ensures x <= MaxUint64 ==> r == x
  {
    x % TwoTo64
  }

  // ---------------------------------------------------------------------
  // Big-endian unsigned integers (encoding/binary and big.Int.SetBytes)
  // ---------------------------------------------------------------------

  function Pow256(n: nat): (r: nat)
    ensures r >= 1
  {
    if n == 0 then 1 else 256 * Pow256(n - 1)
  }

  /** The unsigned integer whose big-endian bytes are `s`; the empty sequence is 0. */
  function BigEndianValue(s: Bytes): (r: nat)
    ensures r < Pow256(|s|)
  {
    if |s| == 0 then 0 else BigEndianValue(s[..|s| - 1]) * 256 + s[|s| - 1]
  }

  /** The `n` low-order bytes of `v`, most significant first. */
  function BigEndianBytes(v: nat, n: nat): (r: Bytes)
    ensures |r| == n
  {
    if n == 0 then [] else BigEndianBytes(v / 256, n - 1) + [v % 256]
  }

  lemma {:induction false} BigEndianValueOfBytes(v: nat, n: nat)
    requires v < Pow256(n)
    ensures BigEndianValue(BigEndianBytes(v, n)) == v
  {
    if n > 0 {
      var s := BigEndianBytes(v, n);
      var q := v / 256;
      assert v == q * 256 + v % 256;
      assert q < Pow256(n - 1);
      assert s[..n - 1] == BigEndianBytes(q, n - 1);
      BigEndianValueOfBytes(q, n - 1);
      assert BigEndianValue(s) == BigEndianValue(s[..n - 1]) * 256 + s[n - 1];
    }
  }

  lemma {:induction false} BigEndianBytesOfValue(s: Bytes)
    ensures BigEndianBytes(BigEndianValue(s), |s|) == s
  {
    if |s| > 0 {
      var n := |s|;
      var v := BigEndianValue(s);
      assert v / 256 == BigEndianValue(s[..n - 1]);
      assert v % 256 == s[n - 1];
      BigEndianBytesOfValue(s[..n - 1]);
      assert s == s[..n - 1] + [s[n - 1]];
    }
  }

  /** Leading zero bytes do not change the value, as with `big.Int.SetBytes`. */
  lemma {:induction false} BigEndianValueLeadingZero(s: Bytes)
    ensures BigEndianValue([0] + s) == BigEndianValue(s)
  {
    if |s| > 0 {
      assert ([0] + s)[..|s|] == [0] + s[..|s| - 1];
      BigEndianValueLeadingZero(s[..|s| - 1]);
    }
  }

  // ---------------------------------------------------------------------
  // go-ethereum common: hashes and addresses
  // ---------------------------------------------------------------------

  const HashLength: nat := 32
  const AddressLength: nat := 20

  type Hash = s: Bytes | |s| == 32 witness seq(32, _ => 0)
  type EvmAddress = s: Bytes | |s| == 20 witness seq(20, _ => 0)

  const ZeroHash: Hash := seq(32, _ => 0)
  const ZeroAddress: EvmAddress := seq(20, _ => 0)

  /**
   * `SetBytes` of a fixed-size go-ethereum value: a longer input is cropped
   * from the left, a shorter one is padded with zero bytes on the left.
   */
  function FitBytes(b: Bytes, n: nat): (r: Bytes)
    ensures |r| == n
    ensures |b| >= n ==> r == b[|b| - n..]
    ensures |b| < n ==> r[n - |b|..] == b && forall i :: 0 <= i < n - |b| ==> r[i] == 0
  {
    if |b| >= n then b[|b| - n..] else seq(n - |b|, _ => 0) + b
  }

  function BytesToHash(b: Bytes): Hash
  {
    FitBytes(b, HashLength)
  }

  function BytesToAddress(b: Bytes): EvmAddress
  {
    FitBytes(b, AddressLength)
  }

  function HexDigitValue(c: char): Option<nat>
  {
    if '0' <= c <= '9' then Some(c as nat - '0' as nat)
    else if 'a' <= c <= 'f' then Some(c as nat - 'a' as nat + 10)
    else if 'A' <= c <= 'F' then Some(c as nat - 'A' as nat + 10)
    else None
  }

  predicate IsHexDigits(s: string)
  {
    forall i :: 0 <= i < |s| ==> HexDigitValue(s[i]).Some?
  }

  /** Characters `2k` and `2k+1` of `s` are both hex digits. */
  predicate IsHexPair(s: string, k: nat)
  {
    2 * k + 1 < |s| && HexDigitValue(s[2 * k]).Some? && HexDigitValue(s[2 * k + 1]).Some?
  }

  /** The byte the `k`-th digit pair spells, high digit first. */
  function PairByte(s: string, k: nat): byte
    requires IsHexPair(s, k)
  {
    HexDigitValue(s[2 * k]).value * 16 + HexDigitValue(s[2 * k + 1]).value
  }

  /** Dropping the first two characters shifts every digit pair down by one. */
  lemma HexPairsShifted(s: string)
    requires |s| >= 2
    ensures forall k: nat | k >= 1 :: IsHexPair(s[2..], k - 1) <==> IsHexPair(s, k)
    ensures forall k: nat | k >= 1 && IsHexPair(s, k) :: PairByte(s[2..], k - 1) == PairByte(s, k)
  {
    forall k: nat | k >= 1
      ensures IsHexPair(s[2..], k - 1) <==> IsHexPair(s, k)
      ensures IsHexPair(s, k) ==> PairByte(s[2..], k - 1) == PairByte(s, k)
    {
      if 2 * k + 1 < |s| {
        assert s[2..][2 * (k - 1)] == s[2 * k] && s[2..][2 * (k - 1) + 1] == s[2 * k + 1];
      }
    }
  }

  /**
   * `hex.DecodeString` with its error dropped: the bytes of the leading
   * well-formed digit pairs, up to the first invalid digit.
   */
  function DecodeHexPairs(s: string): (r: Bytes)
    ensures |r| <= |s| / 2
  {
    if |s| < 2 then []
    else match (HexDigitValue(s[0]), HexDigitValue(s[1]))
      case (Some(hi), Some(lo)) => [hi * 16 + lo] + DecodeHexPairs(s[2..])
      case _ => []
  }

  /**
   * The decoding is exactly the leading run of well-formed digit pairs: the
   * k-th byte is the k-th pair's value, and the pair after the last byte is
   * missing or holds a character that is not a hex digit.
   */
  lemma {:induction false} DecodeHexPairsStopsAtInvalid(s: string)
    ensures forall k :: 0 <= k < |DecodeHexPairs(s)| ==> IsHexPair(s, k) && DecodeHexPairs(s)[k] == PairByte(s, k)
    ensures !IsHexPair(s, |DecodeHexPairs(s)|)
  {
    if |s| >= 2 && HexDigitValue(s[0]).Some? && HexDigitValue(s[1]).Some? {
      var r := DecodeHexPairs(s);
      var rest := DecodeHexPairs(s[2..]);
      DecodeHexPairsStopsAtInvalid(s[2..]);
      HexPairsShifted(s);
      assert r == [PairByte(s, 0)] + rest;
      assert forall k | 1 <= k < |r| :: r[k] == rest[k - 1];
    }
  }

  /** A string of hex digits of even length decodes to one byte per pair. */
  lemma {:induction false} DecodeHexPairsComplete(s: string)
    requires IsHexDigits(s) && |s| % 2 == 0
    ensures |DecodeHexPairs(s)| == |s| / 2
  {
    if |s| >= 2 {
      assert HexDigitValue(s[0]).Some? && HexDigitValue(s[1]).Some?;
      assert forall i | 0 <= i < |s| - 2 :: s[2..][i] == s[i + 2];
      DecodeHexPairsComplete(s[2..]);
    }
  }

  /** go-ethereum's `common.FromHex`: an optional 0x prefix, an odd length padded with a leading 0. */
  function FromHex(s: string): Bytes
  {
    var t := if HasHexPrefix(s) then s[2..] else s;
    DecodeHexPairs(if |t| % 2 == 1 then "0" + t else t)
  }

  /**
   * `FromHex` gives at most one byte per two characters, rounded up, and a
   * string of hex digits after the optional prefix decodes to one byte per
   * two digits, rounded up.
   */
  lemma {:induction false} FromHexLength(s: string)
    ensures |FromHex(s)| <= (|s| + 1) / 2
    ensures HasHexPrefix(s) && IsHexDigits(s[2..]) ==> |FromHex(s)| == (|s| - 1) / 2
    ensures !HasHexPrefix(s) && IsHexDigits(s) ==> |FromHex(s)| == (|s| + 1) / 2
  {
    var t := if HasHexPrefix(s) then s[2..] else s;
    var u := if |t| % 2 == 1 then "0" + t else t;
    if IsHexDigits(t) {
      assert forall i | 0 <= i < |u| :: HexDigitValue(u[i]).Some? by {
        if |t| % 2 == 1 {
          assert u[0] == '0';
          assert forall i | 1 <= i < |u| :: u[i] == t[i - 1];
        }
      }
      DecodeHexPairsComplete(u);
    }
  }

  predicate HasHexPrefix(s: string)
  {
    |s| >= 2 && s[0] == '0' && (s[1] == 'x' || s[1] == 'X')
  }

  /** go-ethereum's `common.HexToAddress`. */
  function HexToAddress(s: string): EvmAddress
  {
    BytesToAddress(FromHex(s))
  }

  /** The address a hex string spells: its decoded bytes, cropped to their last 20 or padded on the left with zeros. */
  lemma {:induction false} HexToAddressBytes(s: string)
    ensures |FromHex(s)| <= AddressLength ==> HexToAddress(s)[AddressLength - |FromHex(s)|..] == FromHex(s)
    ensures |FromHex(s)| > AddressLength ==> HexToAddress(s) == FromHex(s)[|FromHex(s)| - AddressLength..]
  {
  }

  // ---------------------------------------------------------------------
  // cosmos-sdk gas meters and context
  // ---------------------------------------------------------------------

  /**
   * `sdk.NewGasMeter(limit)` and `sdk.NewInfiniteGasMeter()`. An infinite
   * meter reports a limit of 0, which is how callers recognise it.
   */
  datatype GasMeter = BasicGasMeter(limit: u64, consumed: u64) | InfiniteGasMeter(consumed: u64)
  {
    /** The limit of a basic meter; an infinite meter reports 0. */
    function Limit(): (r: u64)
      ensures BasicGasMeter? ==> r == limit
      ensures InfiniteGasMeter? ==> r == 0
    {
      if BasicGasMeter? then limit else 0
    }

    /** Gas consumed, capped at the limit for a basic meter. */
    function GasConsumedToLimit(): (r: u64)
      ensures BasicGasMeter? ==> r <= Limit()
      ensures r <= consumed
      ensures BasicGasMeter? ==> r == limit || r == consumed
      ensures !BasicGasMeter? ==> r == consumed
    {
      if BasicGasMeter? && consumed > limit then limit else consumed
    }
  }

  /** A fresh meter with the given limit: nothing consumed. */
  function NewGasMeter(limit: u64): (m: GasMeter)
    ensures m.BasicGasMeter? && m.Limit() == limit
    ensures m.consumed == 0 && m.GasConsumedToLimit() == 0
  {
    BasicGasMeter(limit, 0)
  }

  /** A fresh meter without a limit: it reports the limit 0 and nothing consumed. */
  function NewInfiniteGasMeter(): (m: GasMeter)
    ensures !m.BasicGasMeter? && m.Limit() == 0
    ensures m.consumed == 0 && m.GasConsumedToLimit() == 0
  {
    InfiniteGasMeter(0)
  }

  /** The fields of `sdk.Context` that the modelled code reads or replaces. */
  datatype Context = Context(
    blockHeight: i64,
    blockTime: i64,
    headerHash: Bytes,
    gasMeter: GasMeter,
    blockGasMeter: GasMeter)
  {
    function WithGasMeter(m: GasMeter): (c: Context)
      ensures c.gasMeter == m
      ensures c.blockHeight == blockHeight && c.blockTime == blockTime && c.headerHash == headerHash && c.blockGasMeter == blockGasMeter
    {
      this.(gasMeter := m)
    }
  }

  /** A key/value store bound to one store key: `Get` answers absent keys with None (Go's nil). */
  class KVStore {
    var data: map<Bytes, Bytes>

    constructor (initial: map<Bytes, Bytes>)
      ensures data == initial
    {
      data := initial;
    }

    function Get(key: Bytes): (v: Option<Bytes>)
      reads this
      ensures v.Some? <==> key in data
      ensures v.Some? ==> v.value == data[key]
    {
      if key in data then Some(data[key]) else None
    }

    method Set(key: Bytes, value: Bytes)
      modifies this
      ensures data == old(data)[key := value]
    {
      data := data[key := value];
    }
  }
}
