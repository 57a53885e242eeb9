/**
 * `AMTHREE.TrackedObjManager.prototype.Holder`: the tracked objects by uuid, each enabled while it
 * is being tracked and disabled once it has gone untracked for longer than a timeout. The objects
 * and the enable/disable callbacks are foreign values: the methods report the calls they make, in
 * order, instead of making them. Elapsed times are in seconds, as the caller's clock gives them.
 */
module Tracked {
  import opened Js
  import opened KeyOrder

  /** One held object: `object`, `elapsed`, `on_enable`, `on_disable` and `enabled`. */
  datatype Entry<O, F> = Entry(obj: O, elapsed: real, onEnable: Option<F>, onDisable: Option<F>, enabled: bool)

  /** A callback called with an object. */
  datatype Call<O, F> = Call(callback: F, arg: O)

  /** What disabling `e` calls: its `on_disable`, when it has one and was enabled. */
  function DisableCall<O, F>(e: Entry<O, F>): seq<Call<O, F>>
  {
    if e.enabled && e.onDisable.Some? then [Call(e.onDisable.value, e.obj)] else []
  }

  /** The disable calls for the entries `keys` name, in that order. */
  function DisableCalls<O, F>(keys: seq<string>, objects: map<string, Entry<O, F>>): seq<Call<O, F>>
    requires forall k :: k in keys ==> k in objects
  {
    if keys == [] then [] else DisableCall(objects[keys[0]]) + DisableCalls(keys[1..], objects)
  }

  /** An entry after a timeout check: disabled when it was enabled and went untracked too long. */
  function TimedOut<O, F>(e: Entry<O, F>, timeout: real): (r: Entry<O, F>)
    ensures r.enabled <==> e.enabled && e.elapsed <= timeout
    ensures r == e.(enabled := r.enabled)
  {
    if e.enabled && e.elapsed > timeout then e.(enabled := false) else e
  }

  /** What a timeout check calls for `e`: its disable call, when it went untracked too long. */
  function TimeoutCall<O, F>(e: Entry<O, F>, timeout: real): seq<Call<O, F>>
  {
    if e.enabled && e.elapsed > timeout then DisableCall(e) else []
  }

  /** The calls of a timeout check over the entries `keys` name, in that order. */
  function TimeoutCalls<O, F>(keys: seq<string>, objects: map<string, Entry<O, F>>, timeout: real)
    : seq<Call<O, F>>
    requires forall k :: k in keys ==> k in objects
  {
    if keys == [] then [] else TimeoutCall(objects[keys[0]], timeout) + TimeoutCalls(keys[1..], objects, timeout)
  }

  /** Checking one more entry at the end adds its call at the end. */
  lemma {:induction false} TimeoutCallsSnoc<O, F>(keys: seq<string>, k: string, objects: map<string, Entry<O, F>>,
                                                  timeout: real)
    requires (forall k' :: k' in keys ==> k' in objects) && k in objects
    ensures TimeoutCalls(keys + [k], objects, timeout)
         == TimeoutCalls(keys, objects, timeout) + TimeoutCall(objects[k], timeout)
  {
    if keys != [] {
      assert (keys + [k])[1..] == keys[1..] + [k];
      TimeoutCallsSnoc(keys[1..], k, objects, timeout);
      var head, last := TimeoutCall(objects[keys[0]], timeout), TimeoutCall(objects[k], timeout);
      assert head + (TimeoutCalls(keys[1..], objects, timeout) + last)
          == head + TimeoutCalls(keys[1..], objects, timeout) + last;
    }
  }

  /** Disabling one more entry at the end adds its call at the end. */
  lemma {:induction false} DisableCallsSnoc<O, F>(keys: seq<string>, k: string, objects: map<string, Entry<O, F>>)
    requires (forall k' :: k' in keys ==> k' in objects) && k in objects
    ensures DisableCalls(keys + [k], objects) == DisableCalls(keys, objects) + DisableCall(objects[k])
  {
    if keys != [] {
      assert (keys + [k])[1..] == keys[1..] + [k];
      DisableCallsSnoc(keys[1..], k, objects);
      var head, last := DisableCall(objects[keys[0]]), DisableCall(objects[k]);
      assert head + (DisableCalls(keys[1..], objects) + last) == head + DisableCalls(keys[1..], objects) + last;
    }
  }

  /** The disable calls for the first `i + 1` keys are those for the first `i`, then key `i`'s. */
  lemma DisableCallsPrefix<O, F>(keys: seq<string>, i: nat, objects: map<string, Entry<O, F>>)
    requires i < |keys| && forall k :: k in keys ==> k in objects
    ensures DisableCalls(keys[..i + 1], objects) == DisableCalls(keys[..i], objects) + DisableCall(objects[keys[i]])
  {
    assert keys[..i + 1] == keys[..i] + [keys[i]];
    DisableCallsSnoc(keys[..i], keys[i], objects);
  }

  /** The calls for the first `i + 1` keys are those for the first `i`, then key `i`'s. */
  lemma TimeoutCallsPrefix<O, F>(keys: seq<string>, i: nat, objects: map<string, Entry<O, F>>, timeout: real)
    requires i < |keys| && forall k :: k in keys ==> k in objects
    ensures TimeoutCalls(keys[..i + 1], objects, timeout)
         == TimeoutCalls(keys[..i], objects, timeout) + TimeoutCall(objects[keys[i]], timeout)
  {
    assert keys[..i + 1] == keys[..i] + [keys[i]];
    TimeoutCallsSnoc(keys[..i], keys[i], objects, timeout);
  }

  /** Every entry after a timeout check. */
  function AllTimedOut<O, F>(objects: map<string, Entry<O, F>>, timeout: real): (r: map<string, Entry<O, F>>)
    ensures r.Keys == objects.Keys
    ensures forall k :: k in r ==> r[k] == TimedOut(objects[k], timeout)
  {
    map k | k in objects :: TimedOut(objects[k], timeout)
  }

  /** One turn of `CheckTimeout`'s loop: the entry's disable call, if any, and the entry after. */
  method CheckEntry<O, F>(e: Entry<O, F>, timeout: real) returns (calls: seq<Call<O, F>>, e': Entry<O, F>)
    ensures calls == TimeoutCall(e, timeout)
    ensures e' == TimedOut(e, timeout)
  {
    calls, e' := [], e;
    if e.enabled && e.elapsed > timeout {
      calls := DisableCall(e);
      e' := e.(enabled := false);
    }
  }

  /**
   * The loop of `CheckTimeout` over the `for…in` order `ks` of `orig`: the entries are updated one
   * at a time into a copy that is stored back when the loop ends.
   */
  method TimeoutLoop<O, F>(ks: seq<string>, orig: map<string, Entry<O, F>>, timeout: real)
    returns (objs: map<string, Entry<O, F>>, calls: seq<Call<O, F>>)
    requires Distinct(ks) && forall k :: k in orig <==> k in ks
    ensures objs == AllTimedOut(orig, timeout)
    ensures calls == TimeoutCalls(ks, orig, timeout)
  {
    objs, calls := orig, [];
    var i := 0;
    while i < |ks|
      invariant 0 <= i <= |ks| && objs.Keys == orig.Keys
      invariant forall k :: k in objs ==> objs[k] == if k in ks[..i] then TimedOut(orig[k], timeout) else orig[k]
      invariant calls == TimeoutCalls(ks[..i], orig, timeout)
    {
      DistinctPrefix(ks, i);
      var c, e := CheckEntry(objs[ks[i]], timeout);
      TimeoutCallsPrefix(ks, i, orig, timeout);
      calls := calls + c;
      objs := objs[ks[i] := e];
      i := i + 1;
    }
    assert ks[..i] == ks;
  }

  /**
   * A second timeout check with the same timeout, with no time elapsed in between, calls nothing:
   * every object is disabled at most once per timeout.
   */
  lemma {:induction false} CheckTimeoutOnce<O, F>(keys: seq<string>, objects: map<string, Entry<O, F>>, timeout: real)
    requires forall k :: k in keys ==> k in objects
    ensures TimeoutCalls(keys, AllTimedOut(objects, timeout), timeout) == []
  {
    if keys != [] {
      CheckTimeoutOnce(keys[1..], objects, timeout);
    }
  }

  /** `Holder`. */
  class Holder<O, F> {
    /** The `for…in` order of `_objects`. */
    var keys: seq<string>
    /** `_objects`. */
    var objects: map<string, Entry<O, F>>

    /** `keys` lists each property of `_objects` once. */
    ghost predicate Valid()
      reads this
    {
      Distinct(keys) && forall k :: k in objects <==> k in keys
    }

    constructor ()
      ensures Valid() && keys == [] && objects == map[]
    {
      keys := [];
      objects := map[];
    }

    /**
     * `Add`: holds `obj` under `uuid`, disabled and with nothing elapsed. An entry already under
     * `uuid` is replaced without being disabled first.
     */
    method Add(obj: O, uuid: string, onEnable: Option<F>, onDisable: Option<F>)
      requires Valid()
      modifies this
      ensures Valid()
      ensures objects == old(objects)[uuid := Entry(obj, 0.0, onEnable, onDisable, false)]
      ensures keys == if uuid in old(objects) then old(keys) else old(keys) + [uuid]
    {
      if uuid !in objects {
        assert Distinct(keys + [uuid]) by {
          forall i, j | 0 <= i < j < |keys + [uuid]| ensures (keys + [uuid])[i] != (keys + [uuid])[j] {
            assert (keys + [uuid])[i] == keys[i];
          }
        }
        keys := keys + [uuid];
      }
      objects := objects[uuid := Entry(obj, 0.0, onEnable, onDisable, false)];
    }

    /**
     * `Remove`: forgets `uuid`'s entry, calling its `on_disable` if it was enabled. An unknown uuid
     * reads `enabled` of `undefined`.
     */
    method Remove(uuid: string) returns (o: Outcome<seq<Call<O, F>>>)
      requires Valid()
      modifies this
      ensures Valid()
      ensures uuid !in old(objects) ==> o == Throws(TypeError) && objects == old(objects) && keys == old(keys)
      ensures uuid in old(objects) ==>
        o == Ok(DisableCall(old(objects)[uuid])) && objects == old(objects) - {uuid}
        && keys == Without(old(keys), uuid)
    {
      if uuid !in objects {
        return Throws(TypeError);
      }
      var calls := DisableCall(objects[uuid]);
      objects := objects - {uuid};
      keys := Without(keys, uuid);
      o := Ok(calls);
    }

    /** `Clear`: removes every entry in `for…in` order; the enabled ones are disabled as they go. */
    method Clear() returns (calls: seq<Call<O, F>>)
      requires Valid()
      modifies this
      ensures Valid() && keys == [] && objects == map[]
      ensures calls == DisableCalls(old(keys), old(objects))
    {
      ghost var all := objects;
      var ks := keys;
      calls := [];
      var i := 0;
      while i < |ks|
        invariant 0 <= i <= |ks| && Valid() && keys == ks[i..]
        invariant forall k :: k in objects ==> objects[k] == all[k]
        invariant calls == DisableCalls(ks[..i], all)
      {
        WithoutFirst(ks, i);
        DisableCallsPrefix(ks, i, all);
        var r := Remove(ks[i]);
        calls := calls + r.value;
        i := i + 1;
      }
      assert ks[..i] == ks;
    }

    /**
     * `Track`: `uuid` is seen again: nothing has elapsed, and a disabled entry is enabled, with a
     * call to its `on_enable`. An unknown uuid reads `elapsed` of `undefined`.
     */
    method Track(uuid: string) returns (o: Outcome<seq<Call<O, F>>>)
      requires Valid()
      modifies this`objects
      ensures Valid()
      ensures uuid !in old(objects) ==> o == Throws(TypeError) && objects == old(objects)
      ensures uuid in old(objects) ==>
        var e := old(objects)[uuid];
        && objects == old(objects)[uuid := e.(elapsed := 0.0, enabled := true)]
        && o == Ok(if !e.enabled && e.onEnable.Some? then [Call(e.onEnable.value, e.obj)] else [])
    {
      if uuid !in objects {
        return Throws(TypeError);
      }
      var e := objects[uuid];
      var calls := if !e.enabled && e.onEnable.Some? then [Call(e.onEnable.value, e.obj)] else [];
      objects := objects[uuid := e.(elapsed := 0.0, enabled := true)];
      o := Ok(calls);
    }

    /** `UpdateElapsed`: `elapsed` more seconds have passed for every entry. */
    method UpdateElapsed(elapsed: real)
      requires Valid()
      modifies this`objects
      ensures Valid() && objects.Keys == old(objects).Keys
      ensures forall k :: k in objects ==> objects[k] == old(objects)[k].(elapsed := old(objects)[k].elapsed + elapsed)
    {
      // The entries are updated one at a time; the map is stored back when the loop ends.
      var ks, objs := keys, objects;
      var i := 0;
      while i < |ks|
        invariant 0 <= i <= |ks| && ks == keys && objs.Keys == objects.Keys
        invariant forall j :: 0 <= j < i ==> objs[ks[j]] == objects[ks[j]].(elapsed := objects[ks[j]].elapsed + elapsed)
        invariant forall j :: i <= j < |ks| ==> objs[ks[j]] == objects[ks[j]]
      {
        var e := objs[ks[i]];
        objs := objs[ks[i] := e.(elapsed := e.elapsed + elapsed)];
        i := i + 1;
      }
      objects := objs;
    }

    /**
     * `CheckTimeout`: every enabled entry that went untracked for more than `timeout` seconds is
     * disabled, in `for…in` order, with a call to its `on_disable`.
     */
    method CheckTimeout(timeout: real) returns (calls: seq<Call<O, F>>)
      requires Valid()
      modifies this`objects
      ensures Valid() && objects == AllTimedOut(old(objects), timeout)
      ensures calls == TimeoutCalls(keys, old(objects), timeout)
    {
      var objs;
      objs, calls := TimeoutLoop(keys, objects, timeout);
      objects := objs;
    }

    /** `ForEach`: visits every entry in `for…in` order. */
    method ForEach() returns (visited: seq<Entry<O, F>>)
      requires Valid()
      ensures |visited| == |keys| && forall j :: 0 <= j < |keys| ==> visited[j] == objects[keys[j]]
    {
      visited := [];
      var i := 0;
      while i < |keys|
        invariant 0 <= i <= |keys| && |visited| == i
        invariant forall j :: 0 <= j < i ==> visited[j] == objects[keys[j]]
      {
        visited := visited + [objects[keys[i]]];
        i := i + 1;
      }
    }

    /** `Get`: the entry under `uuid`, or `undefined`. */
    function Get(uuid: string): (r: Option<Entry<O, F>>)
      reads this
      ensures r.Some? <==> uuid in objects
      ensures r.Some? ==> r.value == objects[uuid]
    {
      if uuid in objects then Some(objects[uuid]) else None
    }
  }

  /** The part of `AMTHREE.TrackedObjManager` that reads its holder back. */
  class TrackedObjManager<O, F> {
    /** `_holder`. */
    const holder: Holder<O, F>

    constructor ()
      ensures fresh(holder) && holder.Valid() && holder.objects == map[]
    {
      holder := new Holder();
    }

    /** `GetObject` as written: it calls `_holder.get`, which the holder does not have. */
    method GetObjectAsWritten(uuid: string) returns (r: Outcome<Option<O>>)
      ensures r == Throws(TypeError)
    {
      r := Throws(TypeError);
    }

    /** `GetObject` through the holder's `Get`: the object held under `uuid`, or `undefined`. */
    method GetObject(uuid: string) returns (r: Outcome<Option<O>>)
      ensures r.Ok?
      ensures r.value.Some? <==> uuid in holder.objects
      ensures r.value.Some? ==> r.value.value == holder.objects[uuid].obj
    {
      var elem := holder.Get(uuid);
      if elem.Some? {
        return Ok(Some(elem.value.obj));
      }
      return Ok(None);
    }
  }
}
