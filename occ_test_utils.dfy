/**
 * The oracle of the OCC tests (occ_tests/test_utils.go): the checks that the
 * responses and the stores left by parallel execution equal those of
 * sequential execution, and the helpers that build the message list. A store
 * is seen through its iterator, as its entries in iteration order; a store's
 * keys are distinct.
 */
module OccTestUtils {
  import opened Common

  // ---------------------------------------------------------------------
  // Stores as their iterators see them
  // ---------------------------------------------------------------------

  /** One key/value pair an iterator yields. */
  datatype Entry = Entry(key: Bytes, value: Bytes)

  predicate DistinctKeys(s: seq<Entry>)
  {
    forall i, j :: 0 <= i < j < |s| ==> s[i].key != s[j].key
  }

  /** The store's contents as a map, which is what `Get` reads. */
  function StoreMap(s: seq<Entry>): map<Bytes, Bytes>
  {
    if |s| == 0 then map[]
    else StoreMap(s[..|s| - 1])[s[|s| - 1].key := s[|s| - 1].value]
  }

  /** Every entry's key is in the map, and with distinct keys with the entry's value. */
  lemma {:induction false} StoreMapValue(s: seq<Entry>, i: nat)
    requires i < |s|
    ensures s[i].key in StoreMap(s)
    ensures DistinctKeys(s) ==> StoreMap(s)[s[i].key] == s[i].value
  {
    if i < |s| - 1 {
      StoreMapValue(s[..|s| - 1], i);
    }
  }

  /** Every key of the map is the key of some entry. */
  lemma {:induction false} StoreMapKey(s: seq<Entry>, k: Bytes) returns (i: nat)
    requires k in StoreMap(s)
    ensures i < |s| && s[i].key == k
  {
    if s[|s| - 1].key == k {
      i := |s| - 1;
    } else {
      i := StoreMapKey(s[..|s| - 1], k);
    }
  }

  /** With distinct keys a store has as many keys as entries. */
  lemma {:induction false} StoreMapSize(s: seq<Entry>)
    requires DistinctKeys(s)
    ensures |StoreMap(s).Keys| == |s|
  {
    if |s| > 0 {
      var front := s[..|s| - 1];
      StoreMapSize(front);
      var last := s[|s| - 1].key;
      if last in StoreMap(front) {
        var i := StoreMapKey(front, last);
        assert false;
      }
      assert StoreMap(s).Keys == StoreMap(front).Keys + {last};
    }
  }

  /** A subset of S is no larger than S, and is S when it is as large. */
  lemma SubsetSize<T>(a: set<T>, b: set<T>)
    requires a <= b
    ensures |a| <= |b|
    ensures |a| == |b| ==> a == b
  {
    assert a + b == b;
    assert a * b == a;
    assert a - b == {};
    if |a| == |b| {
      assert |b - a| == 0;
    }
  }

  /** Entries of `e` that all occur in `a` are at most as many as `a`'s. */
  lemma IncludedEntriesBound(e: seq<Entry>, a: seq<Entry>)
    requires DistinctKeys(e) && DistinctKeys(a)
    requires forall j :: 0 <= j < |e| ==> e[j].key in StoreMap(a)
    ensures |e| <= |a|
  {
    StoreMapSize(e);
    StoreMapSize(a);
    forall k | k in StoreMap(e)
      ensures k in StoreMap(a)
    {
      var j := StoreMapKey(e, k);
    }
    SubsetSize(StoreMap(e).Keys, StoreMap(a).Keys);
  }

  /**
   * Two stores are equal exactly when each entry of the first is in the
   * second with the same value and they have as many entries.
   */
  lemma {:induction false} StoreMapEqual(e: seq<Entry>, a: seq<Entry>)
    requires DistinctKeys(e) && DistinctKeys(a)
    ensures StoreMap(e) == StoreMap(a) <==>
      |e| == |a| && forall j :: 0 <= j < |e| ==> e[j].key in StoreMap(a) && StoreMap(a)[e[j].key] == e[j].value
  {
    StoreMapSize(e);
    StoreMapSize(a);
    forall j | 0 <= j < |e| {
      StoreMapValue(e, j);
    }
    if |e| == |a| && forall j :: 0 <= j < |e| ==> e[j].key in StoreMap(a) && StoreMap(a)[e[j].key] == e[j].value {
      forall k | k in StoreMap(e)
        ensures k in StoreMap(a) && StoreMap(e)[k] == StoreMap(a)[k]
      {
        var j := StoreMapKey(e, k);
      }
      SubsetSize(StoreMap(e).Keys, StoreMap(a).Keys);
    }
  }

  // ---------------------------------------------------------------------
  // compareStores and assertEqualStores
  // ---------------------------------------------------------------------

  /** `ignoredStoreKeys`: the stores whose contents may differ between the runs. */
  const IgnoredStoreKeys: set<string> := {"mem_capability", "epoch", "deferredcache"}

  /** What `compareStores` accepts. */
  predicate StoresAgree(name: string, expected: seq<Entry>, actual: seq<Entry>)
  {
    name in IgnoredStoreKeys || StoreMap(expected) == StoreMap(actual)
  }

  /**
   * `compareStores`: walk the expected store, look every key up in the
   * actual store and compare the values, advancing the actual iterator in
   * step; at the end the actual iterator must be exhausted. `ok` is false
   * where a `require` would fail the test.
   */
  method CompareStores(name: string, expected: seq<Entry>, actual: seq<Entry>) returns (ok: bool)
    requires DistinctKeys(expected) && DistinctKeys(actual)
    ensures ok <==> StoresAgree(name, expected, actual)
  {
    StoreMapEqual(expected, actual);
    if name in IgnoredStoreKeys {
      return true;
    }
    var am := StoreMap(actual);
    var ie := 0;
    var ia := 0;
    while ie < |expected|
      invariant 0 <= ie <= |expected| && ia == ie
      invariant forall j :: 0 <= j < ie ==> expected[j].key in am && am[expected[j].key] == expected[j].value
    {
      var key := expected[ie].key;
      var expectedValue := expected[ie].value;
      if key !in am {
        return false;
      }
      var actualValue := am[key];
      if expectedValue != actualValue {
        return false;
      }
      // the actual iterator is still valid: `actual` has a key for each of expected[..ie + 1]
      IncludedEntriesBound(expected[..ie + 1], actual);
      assert ia < |actual|;
      ia := ia + 1;
      ie := ie + 1;
    }
    ok := ia >= |actual|;
    IncludedEntriesBound(expected, actual);
  }

  /** A store of a multistore, found through its store key's name. */
  datatype NamedStore = NamedStore(name: string, entries: seq<Entry>)

  predicate WellFormedStores(ms: seq<NamedStore>)
  {
    forall i :: 0 <= i < |ms| ==> DistinctKeys(ms[i].entries)
  }

  /**
   * What `assertEqualStores` accepts: as many stores on both sides, and
   * every pair of stores with the same name, not ignored, equal.
   */
  predicate MultiStoresAgree(expected: seq<NamedStore>, actual: seq<NamedStore>)
  {
    |expected| == |actual| &&
    forall i, j :: 0 <= i < |expected| && 0 <= j < |actual| && expected[i].name == actual[j].name ==>
      StoresAgree(expected[i].name, expected[i].entries, actual[j].entries)
  }

  /**
   * `assertEqualStores`: compare the numbers of store keys, then every pair
   * of stores whose names match. A store of `expected` without
   * a namesake in `actual` is not compared.
   */
  method AssertEqualStores(expected: seq<NamedStore>, actual: seq<NamedStore>) returns (ok: bool)
    requires WellFormedStores(expected) && WellFormedStores(actual)
    ensures ok <==> MultiStoresAgree(expected, actual)
  {
    if |expected| != |actual| {
      return false;
    }
    var i := 0;
    while i < |expected|
      invariant 0 <= i <= |expected|
      invariant forall i', j :: 0 <= i' < i && 0 <= j < |actual| && expected[i'].name == actual[j].name ==>
        StoresAgree(expected[i'].name, expected[i'].entries, actual[j].entries)
    {
      var esk := expected[i];
      var j := 0;
      while j < |actual|
        invariant 0 <= j <= |actual|
        invariant forall j' :: 0 <= j' < j && esk.name == actual[j'].name ==>
          StoresAgree(esk.name, esk.entries, actual[j'].entries)
      {
        var ask := actual[j];
        var ignored := esk.name in IgnoredStoreKeys;
        if !ignored && esk.name == ask.name {
          var same := CompareStores(esk.name, esk.entries, ask.entries);
          if !same {
            return false;
          }
        }
        j := j + 1;
      }
      i := i + 1;
    }
    return true;
  }

  /** A multistore whose stores have distinct names agrees with itself. */
  lemma {:induction false} MultiStoresAgreeReflexive(ms: seq<NamedStore>)
    requires forall i, j :: 0 <= i < j < |ms| ==> ms[i].name != ms[j].name
    ensures MultiStoresAgree(ms, ms)
  {
    forall i, j | 0 <= i < |ms| && 0 <= j < |ms| && ms[i].name == ms[j].name
      ensures StoresAgree(ms[i].name, ms[i].entries, ms[j].entries)
    {
      assert i == j;
    }
  }

  /** Stores with different contents are accepted when their names never match and their numbers agree. */
  lemma UnmatchedStoresAgree(e: seq<NamedStore>, a: seq<NamedStore>)
    requires |e| == |a|
    requires forall i, j :: 0 <= i < |e| && 0 <= j < |a| ==> e[i].name != a[j].name
    ensures MultiStoresAgree(e, a)
  {
  }

  // ---------------------------------------------------------------------
  // assertEqualResponses
  // ---------------------------------------------------------------------

  /** The fields of a `DeliverTx` response that the test compares. */
  datatype ResponseDeliverTx = ResponseDeliverTx(code: nat, log: string, info: string)

  /** What `assertEqualResponses` accepts: same length, and at each index successful responses with equal code, log and info. */
  predicate ResponsesAgree(expected: seq<ResponseDeliverTx>, actual: seq<ResponseDeliverTx>)
  {
    |expected| == |actual| &&
    forall i :: 0 <= i < |expected| ==>
      expected[i].code == actual[i].code && actual[i].code == 0 &&
      expected[i].log == actual[i].log && expected[i].info == actual[i].info
  }

  /** `assertEqualResponses`: the checks in order, stopping at the first that fails. */
  method AssertEqualResponses(expected: seq<ResponseDeliverTx>, actual: seq<ResponseDeliverTx>) returns (ok: bool)
    ensures ok <==> ResponsesAgree(expected, actual)
  {
    if |expected| != |actual| {
      return false;
    }
    var i := 0;
    while i < |expected|
      invariant 0 <= i <= |expected|
      invariant forall i' :: 0 <= i' < i ==>
        expected[i'].code == actual[i'].code && actual[i'].code == 0 &&
        expected[i'].log == actual[i'].log && expected[i'].info == actual[i'].info
    {
      var r := expected[i];
      if r.code != actual[i].code {
        return false;
      }
      if 0 != actual[i].code {
        return false;
      }
      if r.log != actual[i].log {
        return false;
      }
      if r.info != actual[i].info {
        return false;
      }
      i := i + 1;
    }
    return true;
  }

  /** The sequential responses agree with themselves exactly when every transaction succeeded. */
  lemma {:induction false} ResponsesAgreeWithThemselves(rs: seq<ResponseDeliverTx>)
    ensures ResponsesAgree(rs, rs) <==> forall i :: 0 <= i < |rs| ==> rs[i].code == 0
  {
  }

  // ---------------------------------------------------------------------
  // joinMsgs and shuffle
  // ---------------------------------------------------------------------

  /** The lists one after the other. */
  function Flatten<M>(lists: seq<seq<M>>): (r: seq<M>)
  {
    if |lists| == 0 then [] else Flatten(lists[..|lists| - 1]) + lists[|lists| - 1]
  }

  lemma {:induction false} FlattenAppend<M>(a: seq<seq<M>>, b: seq<seq<M>>)
    ensures Flatten(a + b) == Flatten(a) + Flatten(b)
  {
    if |b| > 0 {
      assert (a + b)[..|a + b| - 1] == a + b[..|b| - 1];
      FlattenAppend(a, b[..|b| - 1]);
    } else {
      assert a + b == a;
    }
  }

  /** `joinMsgs`: append every list to the result in order. */
  method JoinMsgs<M>(msgsList: seq<seq<M>>) returns (result: seq<M>)
    ensures result == Flatten(msgsList)
  {
    result := [];
    var i := 0;
    while i < |msgsList|
      invariant 0 <= i <= |msgsList|
      invariant result == Flatten(msgsList[..i])
    {
      assert msgsList[..i + 1][..i] == msgsList[..i];
      result := result + msgsList[i];
      i := i + 1;
    }
    assert msgsList[..i] == msgsList;
  }

  /** Every index of `idx` is a position of a sequence of length `n`. */
  predicate IndicesBelow(idx: seq<nat>, n: nat)
  {
    forall k :: 0 <= k < |idx| ==> idx[k] < n
  }

  /** The elements of `msgs` at the positions `idx`, in order. */
  function Pick<M>(msgs: seq<M>, idx: seq<nat>): (r: seq<M>)
    requires IndicesBelow(idx, |msgs|)
    ensures |r| == |idx|
  {
    if |idx| == 0 then [] else [msgs[idx[0]]] + Pick(msgs, idx[1..])
  }

  lemma {:induction false} PickAt<M>(msgs: seq<M>, idx: seq<nat>, k: nat)
    requires IndicesBelow(idx, |msgs|) && k < |idx|
    ensures Pick(msgs, idx)[k] == msgs[idx[k]]
  {
    if k > 0 {
      PickAt(msgs, idx[1..], k - 1);
    }
  }

  lemma {:induction false} PickAppend<M>(msgs: seq<M>, a: seq<nat>, b: seq<nat>)
    requires IndicesBelow(a, |msgs|) && IndicesBelow(b, |msgs|)
    ensures IndicesBelow(a + b, |msgs|)
    ensures Pick(msgs, a + b) == Pick(msgs, a) + Pick(msgs, b)
  {
    if |a| > 0 {
      assert (a + b)[1..] == a[1..] + b;
      PickAppend(msgs, a[1..], b);
    } else {
      assert a + b == b;
    }
  }

  /** The result of `rand.Perm(n)`: every position below n once. */
  function Range(n: nat): (r: seq<nat>)
    ensures |r| == n && forall k :: 0 <= k < n ==> r[k] == k
  {
    if n == 0 then [] else Range(n - 1) + [n - 1]
  }

  predicate IsPermutation(perm: seq<nat>, n: nat)
  {
    multiset(perm) == multiset(Range(n))
  }

  lemma PermutationInRange(perm: seq<nat>, n: nat)
    requires IsPermutation(perm, n)
    ensures |perm| == n && IndicesBelow(perm, n)
  {
    assert |perm| == |multiset(perm)| == |multiset(Range(n))| == n;
    forall k | 0 <= k < |perm|
      ensures perm[k] < n
    {
      assert perm[k] in multiset(perm);
      assert perm[k] in multiset(Range(n));
      assert perm[k] in Range(n);
    }
  }

  /** Picking every position in order gives the sequence back. */
  lemma PickRange<M>(msgs: seq<M>)
    ensures IndicesBelow(Range(|msgs|), |msgs|)
    ensures Pick(msgs, Range(|msgs|)) == msgs
  {
    var r := Range(|msgs|);
    forall k | 0 <= k < |msgs|
      ensures Pick(msgs, r)[k] == msgs[k]
    {
      PickAt(msgs, r, k);
    }
  }

  /** An element of a multiset of a sequence is at some index of it. */
  lemma {:induction false} IndexOf<T>(b: seq<T>, x: T) returns (j: nat)
    requires x in multiset(b)
    ensures j < |b| && b[j] == x
  {
    if b[0] == x {
      j := 0;
    } else {
      assert b == [b[0]] + b[1..];
      j := IndexOf(b[1..], x);
      j := j + 1;
    }
  }

  /** Taking the element at `j` out of `b` takes one occurrence out of its multiset. */
  lemma RemoveAt<T>(b: seq<T>, j: nat)
    requires j < |b|
    ensures b == b[..j] + [b[j]] + b[j + 1..]
    ensures multiset(b[..j] + b[j + 1..]) == multiset(b) - multiset{b[j]}
  {
    assert b == b[..j] + [b[j]] + b[j + 1..];
  }

  lemma PickAround<M>(msgs: seq<M>, front: seq<nat>, x: nat, back: seq<nat>)
    requires IndicesBelow(front, |msgs|) && x < |msgs| && IndicesBelow(back, |msgs|)
    ensures IndicesBelow(front + [x] + back, |msgs|)
    ensures Pick(msgs, front + [x] + back) == Pick(msgs, front) + [msgs[x]] + Pick(msgs, back)
  {
    assert [x][1..] == [];
    assert Pick(msgs, [x]) == [msgs[x]];
    PickAppend(msgs, front, [x]);
    PickAppend(msgs, front + [x], back);
  }

  /** Taking position `j` out of the index list takes its element out of what is picked. */
  lemma PickRemoveAt<M>(msgs: seq<M>, b: seq<nat>, j: nat)
    requires IndicesBelow(b, |msgs|) && j < |b|
    ensures IndicesBelow(b[..j] + b[j + 1..], |msgs|)
    ensures multiset(b[..j] + b[j + 1..]) == multiset(b) - multiset{b[j]}
    ensures multiset(Pick(msgs, b)) == multiset(Pick(msgs, b[..j] + b[j + 1..])) + multiset{msgs[b[j]]}
  {
    RemoveAt(b, j);
    var front, back := b[..j], b[j + 1..];
    assert IndicesBelow(front, |msgs|) && IndicesBelow(back, |msgs|);
    var pf, pb := Pick(msgs, front), Pick(msgs, back);
    assert Pick(msgs, b) == pf + [msgs[b[j]]] + pb by {
      PickAround(msgs, front, b[j], back);
    }
    assert Pick(msgs, front + back) == pf + pb by {
      PickAppend(msgs, front, back);
    }
    MultisetAround(pf, msgs[b[j]], pb);
  }

  lemma MultisetAround<M>(p: seq<M>, y: M, q: seq<M>)
    ensures multiset(p + [y] + q) == multiset(p + q) + multiset{y}
  {
  }

  /** Picking by two index lists that are permutations of each other picks the same elements. */
  lemma {:induction false} PickPermuted<M>(msgs: seq<M>, a: seq<nat>, b: seq<nat>)
    requires IndicesBelow(a, |msgs|) && IndicesBelow(b, |msgs|)
    requires multiset(a) == multiset(b)
    ensures multiset(Pick(msgs, a)) == multiset(Pick(msgs, b))
    decreases |a|
  {
    if |a| == 0 {
      assert |b| == 0 by {
        assert |multiset(b)| == 0;
      }
    } else {
      var x := a[0];
      assert x in multiset(b) by {
        assert x in multiset(a);
      }
      var j := IndexOf(b, x);
      var a', b' := a[1..], b[..j] + b[j + 1..];
      assert IndicesBelow(a', |msgs|);
      assert IndicesBelow(b', |msgs|);
      assert multiset(a') == multiset(b') by {
        RemoveAt(a, 0);
        RemoveAt(b, j);
        assert a[..0] + a[1..] == a';
      }
      PickPermuted(msgs, a', b');
      assert multiset(Pick(msgs, a)) == multiset(Pick(msgs, a')) + multiset{msgs[x]} by {
        PickRemoveAt(msgs, a, 0);
        assert a[..0] + a[1..] == a';
      }
      assert multiset(Pick(msgs, b)) == multiset(Pick(msgs, b')) + multiset{msgs[x]} by {
        PickRemoveAt(msgs, b, j);
      }
    }
  }



  /** `shuffle`, with `perm` the result of `rand.Perm(len(msgs))`. */
  method Shuffle<M>(msgs: seq<M>, perm: seq<nat>) returns (result: seq<M>)
    requires IsPermutation(perm, |msgs|)
    ensures |result| == |perm| == |msgs|
    ensures forall k :: 0 <= k < |perm| ==> perm[k] < |msgs| && result[k] == msgs[perm[k]]
    ensures multiset(result) == multiset(msgs)
  {
    PermutationInRange(perm, |msgs|);
    result := [];
    var i := 0;
    while i < |perm|
      invariant 0 <= i <= |perm|
      invariant |result| == i
      invariant forall k :: 0 <= k < i ==> result[k] == msgs[perm[k]]
    {
      result := result + [msgs[perm[i]]];
      i := i + 1;
    }
    forall k | 0 <= k < |perm|
      ensures Pick(msgs, perm)[k] == result[k]
    {
      PickAt(msgs, perm, k);
    }
    assert result == Pick(msgs, perm);
    PickRange(msgs);
    PickPermuted(msgs, perm, Range(|msgs|));
  }
}
