/**
 * The dex keeper's epoch marker (x/dex/keeper/epoch.go): the last epoch seen
 * is kept under the store key "epoch" as 8 big-endian bytes, and a block
 * starts a new epoch when the epoch keeper's current epoch is larger.
 */
module DexEpoch {
  import opened Common

  /** `EpochKey`, the bytes of the string "epoch". */
  const EpochKey: Bytes := [0x65, 0x70, 0x6f, 0x63, 0x68]

  /** `binary.BigEndian.Uint64` needs at least this many bytes. */
  const Uint64Size: nat := 8

  /** The bytes `binary.BigEndian.PutUint64` writes for `v`. */
  function EncodeUint64(v: u64): (r: Bytes)
    ensures |r| == Uint64Size
  {
    BigEndianBytes(v, Uint64Size)
  }

  /**
   * `binary.BigEndian.Uint64`: the big-endian value of the first 8 bytes.
   * Bytes past the eighth are ignored, and encoding the result gives back
   * the eight bytes read.
   */
  function DecodeUint64(b: Bytes): (r: u64)
    requires |b| >= Uint64Size
    ensures EncodeUint64(r) == b[..Uint64Size]
  {
    Pow256Of8();
    BigEndianBytesOfValue(b[..Uint64Size]);
    BigEndianValue(b[..Uint64Size])
  }

  lemma Pow256Of8()
    ensures Pow256(Uint64Size) == TwoTo64
  {
  }

  /** Decoding what `PutUint64` wrote gives back the epoch. */
  lemma {:induction false} EpochRoundTrip(e: u64)
    ensures DecodeUint64(EncodeUint64(e)) == e
  {
    Pow256Of8();
    BigEndianValueOfBytes(e, Uint64Size);
    assert EncodeUint64(e)[..Uint64Size] == EncodeUint64(e);
  }

  /** Two epochs are stored as the same bytes only if they are equal. */
  lemma {:induction false} EncodeUint64Injective(a: u64, b: u64)
    requires EncodeUint64(a) == EncodeUint64(b)
    ensures a == b
  {
    EpochRoundTrip(a);
    EpochRoundTrip(b);
  }

  /**
   * `binary.BigEndian.PutUint64` / `PutUint32` into a buffer: the `n` low-order
   * bytes of `v`, most significant first, into `bz[..n]`; nothing else changes.
   */
  method PutBigEndian(bz: array<byte>, v: nat, n: nat)
    requires n <= bz.Length
    modifies bz
    ensures bz[..n] == BigEndianBytes(v, n)
    ensures bz[n..] == old(bz[n..])
  {
    var x := v;
    var i := n;
    while i > 0
      invariant 0 <= i <= n
      invariant BigEndianBytes(v, n) == BigEndianBytes(x, i) + bz[i..n]
      invariant bz[n..] == old(bz[n..])
    {
      ghost var rest := bz[i..n];
      bz[i - 1] := x % 256;
      assert bz[i..n] == rest;
      assert bz[i - 1..n] == [x % 256] + rest;
      x := x / 256;
      i := i - 1;
    }
  }

  /**
   * `Keeper.SetEpoch`. `randNum` stands for `rand.Intn(10000)`; the
   * branch taken from block height 1000 on fills a local buffer only.
   */
  method SetEpoch(store: KVStore, blockHeight: i64, epoch: u64, randNum: nat)
    requires randNum < 10000
    modifies store
    ensures store.data == old(store.data)[EpochKey := EncodeUint64(epoch)]
  {
    var bz := new byte[Uint64Size];
    PutBigEndian(bz, epoch, Uint64Size);
    assert bz[..] == bz[..Uint64Size];
    store.Set(EpochKey, bz[..]);
    if blockHeight >= 1000 {
      var byteArray := new byte[4];
      PutBigEndian(byteArray, randNum % 0x1_0000_0000, 4);
    }
  }

  /** What `IsNewEpoch` returns, or a panic of `binary.BigEndian.Uint64`. */
  datatype EpochCheck = Checked(isNew: bool, current: u64) | Panicked

  /**
   * `Keeper.IsNewEpoch`, with `currentEpoch` the epoch keeper's current
   * epoch. A missing value reads as nil and, like one shorter than 8 bytes,
   * makes the decoding panic.
   */
  function IsNewEpoch(store: KVStore, currentEpoch: u64): (r: EpochCheck)
    reads store
    ensures r.Checked? <==> EpochKey in store.data && |store.data[EpochKey]| >= Uint64Size
    ensures r.Checked? ==> r.current == currentEpoch
    ensures r.Checked? ==> (r.isNew <==> DecodeUint64(store.data[EpochKey]) < currentEpoch)
  {
    var b := store.Get(EpochKey);
    if b.None? || |b.value| < Uint64Size then Panicked
    else
      var lastEpoch := DecodeUint64(b.value);
      Checked(currentEpoch > lastEpoch, currentEpoch)
  }

  /**
   * Once `SetEpoch(e)` has written the marker, `IsNewEpoch` reports a new
   * epoch exactly when the current epoch is past `e`; in particular not for `e` itself.
   */
  lemma {:induction false} IsNewEpochAfterSet(store: KVStore, e: u64, currentEpoch: u64)
    requires EpochKey in store.data && store.data[EpochKey] == EncodeUint64(e)
    ensures IsNewEpoch(store, currentEpoch) == Checked(currentEpoch > e, currentEpoch)
    ensures IsNewEpoch(store, e) == Checked(false, e)
  {
    EpochRoundTrip(e);
  }
}
