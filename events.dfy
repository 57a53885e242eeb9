/**
 * `AM.EventManager`: for each event name, the listeners bound to it in the order they were added.
 * A listener is any value compared by identity (`===`); calling one is foreign code, so `Fire`
 * reports the calls it makes, in order, instead of making them.
 */
module Events {
  import opened Js

  predicate NoDuplicates<L(==)>(s: seq<L>)
  {
    forall i, j :: 0 <= i < j < |s| ==> s[i] != s[j]
  }

  /** `s` with its first occurrence of `x` removed. */
  function RemoveFirst<L(==)>(s: seq<L>, x: L): seq<L>
  {
    if s == [] then []
    else if s[0] == x then s[1..]
    else [s[0]] + RemoveFirst(s[1..], x)
  }

  /** `splice(i, 1)` at the first occurrence of `x` is `RemoveFirst`. */
  lemma {:induction false} SpliceIsRemoveFirst<L>(s: seq<L>, x: L, i: nat)
    requires i < |s| && s[i] == x && forall j :: 0 <= j < i ==> s[j] != x
    ensures s[..i] + s[i + 1..] == RemoveFirst(s, x)
  {
    if i > 0 {
      SpliceIsRemoveFirst(s[1..], x, i - 1);
      assert s[1..][..i - 1] + s[1..][i..] == s[1..i] + s[i + 1..];
      assert s[..i] + s[i + 1..] == [s[0]] + (s[1..i] + s[i + 1..]);
    }
  }

  /** Removing the first occurrence of a present value takes exactly one copy of it out. */
  lemma {:induction false} RemoveFirstMultiset<L>(s: seq<L>, x: L)
    requires x in s
    ensures multiset(RemoveFirst(s, x)) == multiset(s) - multiset{x}
  {
    assert s == [s[0]] + s[1..];
    if s[0] != x {
      RemoveFirstMultiset(s[1..], x);
    }
  }

  lemma NoDuplicatesTail<L>(s: seq<L>)
    requires NoDuplicates(s) && s != []
    ensures NoDuplicates(s[1..]) && s[0] !in s[1..]
  {
    forall i, j | 0 <= i < j < |s[1..]| ensures s[1..][i] != s[1..][j] {
      assert s[1..][i] == s[i + 1] && s[1..][j] == s[j + 1];
    }
  }

  lemma NoDuplicatesCons<L>(x: L, r: seq<L>)
    requires x !in r && NoDuplicates(r)
    ensures NoDuplicates([x] + r)
  {
    forall i, j | 0 <= i < j < |[x] + r| ensures ([x] + r)[i] != ([x] + r)[j] {
      assert ([x] + r)[j] == r[j - 1];
      if i > 0 {
        assert ([x] + r)[i] == r[i - 1];
      }
    }
  }

  lemma NoDuplicatesSnoc<L>(r: seq<L>, x: L)
    requires x !in r && NoDuplicates(r)
    ensures NoDuplicates(r + [x])
  {
    forall i, j | 0 <= i < j < |r + [x]| ensures (r + [x])[i] != (r + [x])[j] {
      assert (r + [x])[i] == r[i];
    }
  }

  /**
   * Removing a listener from a list without duplicates takes out exactly that one listener: the
   * others stay, and the list is still without duplicates.
   */
  lemma {:induction false} RemoveFirstSpec<L>(s: seq<L>, x: L)
    requires NoDuplicates(s) && x in s
    ensures var r := RemoveFirst(s, x);
      && multiset(r) == multiset(s) - multiset{x} && x !in r && NoDuplicates(r) && |r| == |s| - 1
  {
    RemoveFirstMultiset(s, x);
    NoDuplicatesTail(s);
    if s[0] != x {
      RemoveFirstSpec(s[1..], x);
      var rest := RemoveFirst(s[1..], x);
      assert s[0] !in rest by {
        assert s[0] !in multiset(s[1..]);
      }
      NoDuplicatesCons(s[0], rest);
    }
  }

  /** `AM.EventManager`. */
  class EventManager<L(==)> {
    /** `_listeners`: the properties present, each with its listeners. */
    var listeners: map<string, seq<L>>

    /** No stored list is empty or binds the same listener twice. */
    ghost predicate Valid()
      reads this
    {
      forall n :: n in listeners ==> listeners[n] != [] && NoDuplicates(listeners[n])
    }

    constructor ()
      ensures Valid() && listeners == map[]
    {
      listeners := map[];
    }

    /**
     * `AddListener`: binds `fun` at the end of `name`'s list; refused when `name` is not a string or
     * `fun` is already bound to it.
     */
    method AddListener(name: Value, fun: L) returns (added: bool)
      requires Valid()
      modifies this
      ensures Valid()
      ensures added <==> name.Str? && !(name.s in old(listeners) && fun in old(listeners)[name.s])
      ensures added ==>
        listeners == old(listeners)[name.s := (if name.s in old(listeners) then old(listeners)[name.s] else []) + [fun]]
      ensures !added ==> listeners == old(listeners)
    {
      if !name.Str? {
        return false;
      }
      var tab := if name.s in listeners then listeners[name.s] else [];
      var index := IndexOf(tab, fun);
      if index == -1 {
        NoDuplicatesSnoc(tab, fun);
        listeners := listeners[name.s := tab + [fun]];
        return true;
      }
      return false;
    }

    /**
     * `RemoveListener`: unbinds `fun` from `name`; the name itself goes when it loses its last
     * listener. Refused when `name` is not a string or `fun` is not bound to it.
     */
    method RemoveListener(name: Value, fun: L) returns (removed: bool)
      requires Valid()
      modifies this
      ensures Valid()
      ensures removed <==> name.Str? && name.s in old(listeners) && fun in old(listeners)[name.s]
      ensures removed && |old(listeners)[name.s]| == 1 ==> listeners == old(listeners) - {name.s}
      ensures removed && |old(listeners)[name.s]| != 1 ==>
        listeners == old(listeners)[name.s := RemoveFirst(old(listeners)[name.s], fun)]
      ensures !removed ==> listeners == old(listeners)
    {
      if !name.Str? || name.s !in listeners {
        return false;
      }
      var tab := listeners[name.s];
      var index := IndexOf(tab, fun);
      if index == -1 {
        return false;
      }
      if |tab| != 1 {
        SpliceIsRemoveFirst(tab, fun, index);
        RemoveFirstSpec(tab, fun);
        listeners := listeners[name.s := tab[..index] + tab[index + 1..]];
      } else {
        listeners := listeners - {name.s};
      }
      return true;
    }

    /**
     * `Fire`: calls every listener of `name` in the order they were bound, and answers whether the
     * name has any.
     */
    method Fire(name: Value) returns (fired: bool, calls: seq<L>)
      requires Valid()
      ensures fired <==> name.Str? && name.s in listeners
      ensures calls == if fired then listeners[name.s] else []
      ensures fired ==> calls != []
    {
      calls := [];
      if !name.Str? || name.s !in listeners {
        return false, calls;
      }
      var tab := listeners[name.s];
      var i := 0;
      while i < |tab|
        invariant 0 <= i <= |tab| && calls == tab[..i]
      {
        calls := calls + [tab[i]];
        i := i + 1;
      }
      assert tab[..|tab|] == tab;
      fired := true;
    }
  }

  /** `indexOf`: the first position of `x` in `s`, or -1. */
  method IndexOf<L(==)>(s: seq<L>, x: L) returns (i: int)
    ensures -1 <= i < |s|
    ensures i == -1 <==> x !in s
    ensures 0 <= i ==> s[i] == x && forall j :: 0 <= j < i ==> s[j] != x
  {
    i := 0;
    while i < |s|
      invariant 0 <= i <= |s| && forall j :: 0 <= j < i ==> s[j] != x
    {
      if s[i] == x {
        return;
      }
      i := i + 1;
    }
    i := -1;
  }
}
