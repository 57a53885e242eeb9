/**
 * `AM.LoadingManager`: a counter of assets still loading, with the callbacks to run on progress
 * and when everything has loaded. Callbacks are foreign code: the methods report the calls they
 * make, in order, instead of making them.
 */
module Loading {
  import opened Js

  /** `nbr || 1` for a count that may be omitted: a missing or zero count counts as one. */
  function Count(nbr: Option<int>): (n: int)
    ensures n != 0
    ensures nbr.Some? && nbr.value != 0 ==> n == nbr.value
    ensures nbr.None? || nbr.value == 0 ==> n == 1
  {
    if nbr.Some? && nbr.value != 0 then nbr.value else 1
  }

  /** `DoCallbacks`: calls every callback of the list, in order. */
  method DoCallbacks<C>(callbacks: seq<C>) returns (calls: seq<C>)
    ensures calls == callbacks
  {
    calls := [];
    var i := 0;
    while i < |callbacks|
      invariant 0 <= i <= |callbacks| && calls == callbacks[..i]
    {
      calls := calls + [callbacks[i]];
      i := i + 1;
    }
    assert callbacks[..|callbacks|] == callbacks;
  }

  /** `AM.LoadingManager`. */
  class LoadingManager<C> {
    /** `_end_callbacks`. */
    var endCallbacks: seq<C>
    /** `_progress_callbacks`. */
    var progressCallbacks: seq<C>
    /** `_loading`. */
    var loading: int

    constructor ()
      ensures endCallbacks == [] && progressCallbacks == [] && loading == 0
    {
      endCallbacks := [];
      progressCallbacks := [];
      loading := 0;
    }

    /** `Start(nbr)`: `nbr || 1` more assets are loading; the progress callbacks run. */
    method Start(nbr: Option<int>) returns (calls: seq<C>)
      modifies this`loading
      ensures loading == old(loading) + Count(nbr)
      ensures calls == progressCallbacks
    {
      loading := loading + Count(nbr);
      calls := DoCallbacks(progressCallbacks);
    }

    /**
     * `End(nbr)`: `nbr || 1` assets finished, if any were loading, and the progress callbacks run.
     * Once nothing is left the counter is clamped to 0, the end callbacks run, and both lists are
     * emptied.
     */
    method End(nbr: Option<int>) returns (calls: seq<C>)
      modifies this`loading, this`endCallbacks, this`progressCallbacks
      ensures loading >= 0 && (loading == 0 ==> endCallbacks == [] && progressCallbacks == [])
      ensures var left := if old(loading) > 0 then old(loading) - Count(nbr) else old(loading);
        && (left > 0 ==> loading == left && endCallbacks == old(endCallbacks) && progressCallbacks == old(progressCallbacks))
        && (left <= 0 ==> loading == 0)
        && calls ==
           (if old(loading) > 0 then old(progressCallbacks) else []) + (if left <= 0 then old(endCallbacks) else [])
    {
      calls := [];
      if loading > 0 {
        loading := loading - Count(nbr);
        calls := DoCallbacks(progressCallbacks);
      }
      if loading <= 0 {
        loading := 0;
        var ends := DoCallbacks(endCallbacks);
        calls := calls + ends;
        endCallbacks := [];
        progressCallbacks := [];
      }
    }

    /** `OnEnd`: while loading, keep `callback` for the end; otherwise call it now. */
    method OnEnd(callback: C) returns (calls: seq<C>)
      modifies this`endCallbacks
      ensures loading > 0 ==> endCallbacks == old(endCallbacks) + [callback] && calls == []
      ensures loading <= 0 ==> endCallbacks == old(endCallbacks) && calls == [callback]
    {
      if loading > 0 {
        endCallbacks := endCallbacks + [callback];
        calls := [];
      } else {
        calls := [callback];
      }
    }

    /** `OnProgress`: while loading, keep `callback` for each progress; otherwise call it now. */
    method OnProgress(callback: C) returns (calls: seq<C>)
      modifies this`progressCallbacks
      ensures loading > 0 ==> progressCallbacks == old(progressCallbacks) + [callback] && calls == []
      ensures loading <= 0 ==> progressCallbacks == old(progressCallbacks) && calls == [callback]
    {
      if loading > 0 {
        progressCallbacks := progressCallbacks + [callback];
        calls := [];
      } else {
        calls := [callback];
      }
    }

    /** `IsLoading`. */
    predicate IsLoading()
      reads this
    {
      loading > 0
    }

    /** `GetRemaining`. */
    function GetRemaining(): int
      reads this
    {
      loading
    }
  }

  /**
   * Starting `k` loads and ending them one by one: the end callbacks registered meanwhile run
   * exactly at the last `End`, and not before.
   */
  method StartThenEnd<C>(k: nat, cb: C) returns (early: seq<C>, last: seq<C>)
    requires k > 0
    ensures cb !in early && last == [cb]
  {
    var m := new LoadingManager<C>();
    var _ := m.Start(Some(k));
    var calls := m.OnEnd(cb);
    early := calls;
    var i := 1;
    while i < k
      invariant 1 <= i <= k && m.loading == k - i + 1 > 0
      invariant m.endCallbacks == [cb] && m.progressCallbacks == [] && cb !in early
    {
      calls := m.End(None);
      early := early + calls;
      i := i + 1;
    }
    last := m.End(None);
  }
}
