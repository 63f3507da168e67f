/** One growing dictionary (`TypedDict` in fff-poc/src/dict.rs): the values in
    order of first appearance, and a hash map from each value's key to its slot. */
module TypedDicts {
  import opened Prelude
  import opened DictValues

  /** `T::dict_hash`: the hash-map key of a value. */
  function KeyOf<T, U>(key: T -> U, v: T): U {
    key(v)
  }

  ghost predicate Injective<T(!new), U>(key: T -> U) {
    forall x, y :: KeyOf(key, x) == KeyOf(key, y) ==> x == y
  }

  /** `m` is the exact inverse of `d` under `key`. */
  ghost predicate KeyMapOf<T, U(!new)>(key: T -> U, d: seq<T>, m: map<U, nat>) {
    && (forall i :: 0 <= i < |d| ==> KeyOf(key, d[i]) in m && m[KeyOf(key, d[i])] == i)
    && (forall u :: u in m ==> m[u] < |d| && KeyOf(key, d[m[u]]) == u)
  }

  lemma {:induction false} KeyMapNoDup<T, U(!new)>(key: T -> U, d: seq<T>, m: map<U, nat>)
    requires KeyMapOf(key, d, m)
    ensures NoDup(d)
  {
    forall i, j | 0 <= i < j < |d| ensures d[i] != d[j] {
      assert m[KeyOf(key, d[i])] == i && m[KeyOf(key, d[j])] == j;
    }
  }

  lemma {:induction false} KeyMapFinds<T(!new), U(!new)>(key: T -> U, d: seq<T>, m: map<U, nat>, v: T)
    requires Injective(key) && KeyMapOf(key, d, m)
    ensures KeyOf(key, v) in m <==> v in d
    ensures KeyOf(key, v) in m ==> d[m[KeyOf(key, v)]] == v
  {
    if v in d {
      var i :| 0 <= i < |d| && d[i] == v;
      assert KeyOf(key, d[i]) in m;
    }
  }

  class TypedDict<T(==, !new), U(==, !new)> {
    const key: T -> U
    var dictionary: seq<T>
    var indices: seq<Option<nat>>
    var keyToInd: map<U, nat>

    ghost predicate Valid()
      reads this
    {
      Injective(key) && KeyMapOf(key, dictionary, keyToInd)
    }

    constructor (key: T -> U)
      requires Injective(key)
      ensures Valid() && dictionary == [] && indices == [] && this.key == key
    {
      this.key := key;
      dictionary, indices, keyToInd := [], [], map[];
    }

    /** Looks every value up, adding the new ones; the returned slots name the
        values of `arr` in the grown dictionary. */
    method Extend(arr: seq<Option<T>>) returns (r: seq<Option<nat>>)
      requires Valid()
      modifies this`dictionary, this`indices, this`keyToInd
      ensures Valid()
      ensures dictionary == Submit(old(dictionary), Present(arr))
      ensures Names(dictionary, r, arr)
      ensures indices == old(indices) + r
    {
      var begin := |indices|;
      var i := 0;
      while i < |arr|
        invariant 0 <= i <= |arr| && Valid()
        invariant dictionary == Submit(old(dictionary), Present(arr[..i]))
        invariant |indices| == begin + i && indices[..begin] == old(indices)
        invariant Names(dictionary, indices[begin..], arr[..i])
      {
        StepPresent(arr, i);
        if arr[i].Some? {
          var val := arr[i].value;
          KeyMapFinds(key, dictionary, keyToInd, val);
          SubmitSnoc(old(dictionary), Present(arr[..i]), val);
          if KeyOf(key, val) in keyToInd {
            indices := indices + [Some(keyToInd[KeyOf(key, val)])];
          } else {
            var ind := |dictionary|;
            keyToInd := keyToInd[KeyOf(key, val) := ind];
            indices := indices + [Some(ind)];
            dictionary := dictionary + [val];
          }
        } else {
          indices := indices + [None];
        }
        i := i + 1;
      }
      assert arr[..i] == arr;
      r := indices[begin..];
    }

    method SubmitValues(arr: seq<Option<T>>)
      requires Valid()
      modifies this`dictionary, this`keyToInd
      ensures Valid() && dictionary == Submit(old(dictionary), Present(arr))
    {
      var i := 0;
      while i < |arr|
        invariant 0 <= i <= |arr| && Valid()
        invariant dictionary == Submit(old(dictionary), Present(arr[..i]))
      {
        StepPresent(arr, i);
        if arr[i].Some? {
          SubmitSnoc(old(dictionary), Present(arr[..i]), arr[i].value);
          SubmitOne(arr[i].value);
        }
        i := i + 1;
      }
      assert arr[..i] == arr;
    }

    method SubmitValuesNoNull(vals: seq<T>)
      requires Valid()
      modifies this`dictionary, this`keyToInd
      ensures Valid() && dictionary == Submit(old(dictionary), vals)
    {
      var i := 0;
      while i < |vals|
        invariant 0 <= i <= |vals| && Valid()
        invariant dictionary == Submit(old(dictionary), vals[..i])
      {
        assert vals[..i + 1] == vals[..i] + [vals[i]];
        SubmitSnoc(old(dictionary), vals[..i], vals[i]);
        SubmitOne(vals[i]);
        i := i + 1;
      }
      assert vals[..i] == vals;
    }

    /** The body both submit loops share: insert the key if its entry is vacant. */
    method SubmitOne(val: T)
      requires Valid()
      modifies this`dictionary, this`keyToInd
      ensures Valid()
      ensures dictionary
              == if val in old(dictionary) then old(dictionary) else old(dictionary) + [val]
    {
      KeyMapFinds(key, dictionary, keyToInd, val);
      if KeyOf(key, val) !in keyToInd {
        keyToInd := keyToInd[KeyOf(key, val) := |dictionary|];
        dictionary := dictionary + [val];
      }
    }

    /** Reorders both dictionaries so that their common values come first, and
        returns how many there are; without overlap neither changes. */
    method MergeWith(other: TypedDict<T, U>) returns (n: nat)
      requires Valid() && other.Valid() && this != other && key == other.key
      modifies this`dictionary, this`keyToInd, other`dictionary, other`keyToInd
      ensures Valid() && other.Valid()
      ensures n == |Common(old(dictionary), old(other.dictionary))|
      ensures dictionary == MergedSelf(old(dictionary), old(other.dictionary))
      ensures other.dictionary == MergedOther(old(dictionary), old(other.dictionary))
    {
      var common: seq<T> := [];
      var i := 0;
      while i < |other.dictionary|
        invariant 0 <= i <= |other.dictionary| && Valid() && other.Valid()
        invariant dictionary == old(dictionary) && other.dictionary == old(other.dictionary)
        invariant common == Common(dictionary, other.dictionary[..i])
      {
        var val := other.dictionary[i];
        KeyMapFinds(key, dictionary, keyToInd, val);
        assert other.dictionary[..i + 1] == other.dictionary[..i] + [val];
        CommonConcat(dictionary, other.dictionary[..i], [val]);
        assert Common(dictionary, [val]) == (if val in dictionary then [val] else []) + Common(dictionary, []);
        if KeyOf(key, val) in keyToInd {
          common := common + [val];
        }
        i := i + 1;
      }
      assert other.dictionary[..i] == other.dictionary;
      if common == [] {
        return 0;
      }
      KeyMapNoDup(other.key, other.dictionary, other.keyToInd);
      CommonProperties(dictionary, other.dictionary);
      SubmitFresh([], common);
      assert [] + common == common;
      var selfDict, otherDict := dictionary, other.dictionary;
      dictionary, other.dictionary := [], [];
      keyToInd, other.keyToInd := map[], map[];
      SubmitValuesNoNull(common);
      SubmitValuesNoNull(selfDict);
      other.SubmitValuesNoNull(common);
      other.SubmitValuesNoNull(otherDict);
      n := |common|;
    }
  }

  lemma {:induction false} StepPresent<T>(arr: seq<Option<T>>, i: nat)
    requires i < |arr|
    ensures arr[..i + 1] == arr[..i] + [arr[i]]
    ensures arr[i].Some? ==> Present(arr[..i + 1]) == Present(arr[..i]) + [arr[i].value]
    ensures arr[i].None? ==> Present(arr[..i + 1]) == Present(arr[..i])
  {
    assert arr[..i + 1] == arr[..i] + [arr[i]];
    PresentConcat(arr[..i], [arr[i]]);
    assert Present([arr[i]]) == (if arr[i].Some? then [arr[i].value] else []) + Present([]);
  }
}
