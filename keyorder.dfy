/**
 * The `for…in` order of an object used as a dictionary: its own string keys in insertion order,
 * each once. `delete` takes a key out and leaves the others in order; assigning to a key that is
 * already present keeps its place.
 */
module KeyOrder {
  predicate Distinct(keys: seq<string>)
  {
    forall i, j :: 0 <= i < j < |keys| ==> keys[i] != keys[j]
  }

  /** `delete` of a property: the other keys keep their order. */
  function Without(keys: seq<string>, k: string): (r: seq<string>)
    ensures forall x :: x in r <==> x in keys && x != k
    ensures Distinct(keys) ==> Distinct(r)
    ensures |r| <= |keys|
  {
    if keys == [] then []
    else if keys[0] == k then Without(keys[1..], k)
    else
      var rest := Without(keys[1..], k);
      assert Distinct(keys) ==> keys[0] !in keys[1..] && Distinct(keys[1..]);
      DistinctCons(keys[0], rest);
      [keys[0]] + rest
  }

  lemma DistinctCons(x: string, rest: seq<string>)
    ensures x !in rest && Distinct(rest) ==> Distinct([x] + rest)
  {
    if x !in rest && Distinct(rest) {
      forall i, j | 0 <= i < j < |[x] + rest|
        ensures ([x] + rest)[i] != ([x] + rest)[j]
      {
        assert ([x] + rest)[j] == rest[j - 1];
        if i > 0 {
          assert ([x] + rest)[i] == rest[i - 1];
        }
      }
    }
  }

  /** A walk over the order meets each key for the first time. */
  lemma DistinctPrefix(keys: seq<string>, i: nat)
    requires Distinct(keys) && i < |keys|
    ensures keys[i] !in keys[..i] && keys[..i + 1] == keys[..i] + [keys[i]]
  {
    assert keys[..i + 1] == keys[..i] + [keys[i]];
  }

  /** Removing a key that occurs once cuts exactly that slot out. */
  lemma {:induction false} WithoutAt(keys: seq<string>, i: nat)
    requires Distinct(keys) && i < |keys|
    ensures Without(keys, keys[i]) == keys[..i] + keys[i + 1..]
  {
    if i == 0 {
      assert keys[0] !in keys[1..];
      WithoutAbsent(keys[1..], keys[0]);
    } else {
      assert keys[1..][i - 1] == keys[i];
      WithoutAt(keys[1..], i - 1);
      assert keys[1..][..i - 1] + keys[1..][i..] == keys[1..i] + keys[i + 1..];
      assert keys[..i] + keys[i + 1..] == [keys[0]] + (keys[1..i] + keys[i + 1..]);
    }
  }

  /** Removing the first key of the rest of the order from `i` on leaves the rest from `i + 1` on. */
  lemma WithoutFirst(keys: seq<string>, i: nat)
    requires i < |keys| && Distinct(keys[i..])
    ensures Without(keys[i..], keys[i]) == keys[i + 1..]
  {
    WithoutAt(keys[i..], 0);
    assert keys[i..][1..] == keys[i + 1..];
  }

  /** Removing a key that does not occur changes nothing. */
  lemma {:induction false} WithoutAbsent(keys: seq<string>, k: string)
    requires k !in keys
    ensures Without(keys, k) == keys
  {
    if keys != [] {
      assert keys[1..] + [] == keys[1..];
      WithoutAbsent(keys[1..], k);
      assert [keys[0]] + keys[1..] == keys;
    }
  }
}
