/**
 * The parameter merge shared by every `SetParameters` of the library (matching, detection,
 * image filter, training and the marker tracker): a `for…in` loop over the given object that
 * overwrites only the names the component already defines.
 */
module Params {
  import opened Js

  /** A component's `_params` object. */
  type Params = map<string, Value>

  /** The properties of the argument object, in `for…in` order. */
  type Update = seq<(string, Value)>

  /** An object has each property once. */
  predicate DistinctNames(u: Update)
  {
    forall i, j :: 0 <= i < j < |u| ==> u[i].0 != u[j].0
  }

  /** `typeof _params[name] !== 'undefined'`. */
  predicate Known(p: Params, name: string)
  {
    name in p && p[name] != Undefined
  }

  /** One turn of the loop. */
  function Apply(p: Params, entry: (string, Value)): Params
  {
    if Known(p, entry.0) then p[entry.0 := entry.1] else p
  }

  /** The whole loop, property by property in order. */
  function Merged(p: Params, u: Update): Params
    decreases |u|
  {
    if u == [] then p else Merged(Apply(p, u[0]), u[1..])
  }

  /** `for (var name in params) if (typeof _params[name] !== 'undefined') _params[name] = params[name];` */
  method MergeParameters(p: Params, u: Update) returns (r: Params)
    ensures r == Merged(p, u)
  {
    r := p;
    var i := 0;
    while i < |u|
      invariant 0 <= i <= |u|
      invariant Merged(r, u[i..]) == Merged(p, u)
    {
      assert u[i..][1..] == u[i + 1..];
      if Known(r, u[i].0) {
        r := r[u[i].0 := u[i].1];
      }
      i := i + 1;
    }
  }

  /** The merge never adds or removes a name. */
  lemma {:induction false} MergedKeys(p: Params, u: Update)
    ensures Merged(p, u).Keys == p.Keys
    decreases |u|
  {
    if u != [] {
      MergedKeys(Apply(p, u[0]), u[1..]);
    }
  }

  /** A name absent from the update keeps its value. */
  lemma {:induction false} MergedUntouched(p: Params, u: Update, name: string)
    requires name in p
    requires forall i :: 0 <= i < |u| ==> u[i].0 != name
    ensures name in Merged(p, u) && Merged(p, u)[name] == p[name]
    decreases |u|
  {
    if u != [] {
      MergedKeys(Apply(p, u[0]), u[1..]);
      MergedUntouched(Apply(p, u[0]), u[1..], name);
    }
  }

  /** A name that is not known to the component is ignored, whatever the update says. */
  lemma {:induction false} MergedUnknown(p: Params, u: Update, name: string)
    requires name in p && p[name] == Undefined
    ensures name in Merged(p, u) && Merged(p, u)[name] == Undefined
    decreases |u|
  {
    if u != [] {
      MergedUnknown(Apply(p, u[0]), u[1..], name);
    }
  }

  /** A known name given in the update takes the given value. */
  lemma {:induction false} MergedOverwrites(p: Params, u: Update, k: nat)
    requires DistinctNames(u)
    requires k < |u| && Known(p, u[k].0)
    ensures u[k].0 in Merged(p, u) && Merged(p, u)[u[k].0] == u[k].1
    decreases |u|
  {
    var name := u[k].0;
    var p1 := Apply(p, u[0]);
    if k == 0 {
      assert p1[name] == u[0].1;
      MergedKeys(p1, u[1..]);
      MergedUntouched(p1, u[1..], name);
    } else {
      assert u[0].0 != name;
      assert Known(p1, name);
      MergedOverwrites(p1, u[1..], k - 1);
    }
  }
}
