/**
 * Reading a list of keys out of a dictionary in order, as a run of
 * `d[k]` subscripts does: the first absent key is the one that raises
 * `KeyError`.
 */
module Lookup {
  import opened Wrappers

  /** Every key of `keys` is in `m`. */
  ghost predicate AllPresent<V>(keys: seq<string>, m: map<string, V>)
  {
    forall i :: 0 <= i < |keys| ==> keys[i] in m
  }

  /** `keys[i]` is absent from `m`, and every key before it is present. */
  ghost predicate FirstAbsentAt<V>(keys: seq<string>, m: map<string, V>, i: int)
  {
    0 <= i < |keys| && keys[i] !in m && forall j :: 0 <= j < i ==> keys[j] in m
  }

  /** The first of `keys`, in order, that `m` lacks. */
  function FirstMissing<V>(keys: seq<string>, m: map<string, V>): (r: Option<string>)
    ensures r.None? <==> AllPresent(keys, m)
    ensures r.Some? ==> exists i :: FirstAbsentAt(keys, m, i) && keys[i] == r.value
    decreases |keys|
  {
    if |keys| == 0 then None
    else if keys[0] !in m then
      assert FirstAbsentAt(keys, m, 0);
      Some(keys[0])
    else
      ShiftPresent(keys, m);
      FirstMissing(keys[1..], m)
  }

  /** With the first key present, what holds of `keys[1..]` holds of `keys` one place later. */
  lemma ShiftPresent<V>(keys: seq<string>, m: map<string, V>)
    requires |keys| > 0 && keys[0] in m
    ensures AllPresent(keys[1..], m) ==> AllPresent(keys, m)
    ensures forall i :: FirstAbsentAt(keys[1..], m, i) ==>
              FirstAbsentAt(keys, m, i + 1) && keys[i + 1] == keys[1..][i]
  {
    if AllPresent(keys[1..], m) {
      forall j | 0 <= j < |keys| ensures keys[j] in m {
        if j > 0 { assert keys[j] == keys[1..][j - 1]; }
      }
    }
    forall i | FirstAbsentAt(keys[1..], m, i)
      ensures FirstAbsentAt(keys, m, i + 1) && keys[i + 1] == keys[1..][i]
    {
      forall j | 0 <= j < i + 1 ensures keys[j] in m {
        if j > 0 { assert keys[j] == keys[1..][j - 1]; }
      }
    }
  }

  /** The first absent key is unique, so `FirstMissing` names exactly that key. */
  lemma FirstMissingAt<V>(keys: seq<string>, m: map<string, V>, i: int)
    requires FirstAbsentAt(keys, m, i)
    ensures FirstMissing(keys, m) == Some(keys[i])
  {
  }
}
