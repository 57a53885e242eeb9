/**
 * The profiler's `ring_buffer`: a fixed-capacity circular buffer over an `Int32Array` that keeps
 * the most recent values pushed, oldest first.
 */
module Ring {
  import opened Js

  /** The value an `Int32Array` stores for an integer: `x` wrapped to 32-bit two's complement. */
  function Int32(x: int): (r: int)
    ensures -0x8000_0000 <= r < 0x8000_0000
    ensures (r - x) % 0x1_0000_0000 == 0
  {
    var m := x % 0x1_0000_0000;
    if m < 0x8000_0000 then m else m - 0x1_0000_0000
  }

  /** The last `cap` values of `h`, or all of them when there are fewer. */
  function Window(h: seq<int>, cap: nat): (w: seq<int>)
    ensures |w| == if |h| < cap then |h| else cap
  {
    if |h| <= cap then h else h[|h| - cap..]
  }

  /** The window is the suffix of that length: the most recent values, oldest first. */
  lemma WindowSuffix(h: seq<int>, cap: nat)
    ensures Window(h, cap) == h[|h| - |Window(h, cap)|..]
  {
  }

  /**
   * One more value pushed: the window grows by it while there is room, and otherwise loses exactly
   * its oldest value.
   */
  lemma WindowPush(h: seq<int>, x: int, cap: nat)
    requires cap > 0
    ensures Window(h + [x], cap) ==
      if |h| < cap then Window(h, cap) + [x] else Window(h, cap)[1..] + [x]
  {
    var h' := h + [x];
    if |h| >= cap {
      assert h'[|h'| - cap..] == h[|h| - cap + 1..] + [x];
      assert Window(h, cap)[1..] == h[|h| - cap + 1..];
    }
  }

  /** `(x) % n` for `0 <= x < 2 * n`: at most one wrap. */
  lemma ModOnce(x: int, n: int)
    requires 0 < n && 0 <= x < 2 * n
    ensures x % n == if x < n then x else x - n
  {
    if x >= n {
      assert (x - n) % n == x - n;
      assert x % n == (x - n + n) % n;
    }
  }

  /** The first `n` slots of `a` counted round from `b`. */
  function Ordered(a: seq<int>, b: int, n: int): (c: seq<int>)
    requires 0 <= b <= |a| && 0 <= n <= |a|
    ensures |c| == n
  {
    (a[b..] + a[..b])[..n]
  }

  /** Writing the slot after the `n` filled ones, with nothing wrapped yet, appends to the order. */
  lemma Appended(a: seq<int>, n: int, x: int)
    requires 0 <= n < |a|
    ensures Ordered(a[n := x], 0, n + 1) == Ordered(a, 0, n) + [x]
  {
    assert a[n := x][0..] + a[n := x][..0] == a[n := x];
    assert a[0..] + a[..0] == a;
  }

  /**
   * Writing over the oldest slot `b` of a full order and moving the start one on drops the oldest
   * value and appends the new one.
   */
  lemma Rotated(a: seq<int>, b: int, b': int, x: int)
    requires 0 <= b < |a| && b' == if b + 1 < |a| then b + 1 else 0
    ensures Ordered(a[b := x], b', |a|) == Ordered(a, b, |a|)[1..] + [x]
  {
    var a' := a[b := x];
    assert Ordered(a, b, |a|)[1..] == a[b + 1..] + a[..b];
    if b' == 0 {
      assert a'[0..] + a'[..0] == a[..b] + [x];
      assert a[b + 1..] == [];
    } else {
      assert a'[b'..] == a[b + 1..];
      assert a'[..b'] == a[..b] + [x];
    }
  }

  /** `ring_buffer`. */
  class RingBuffer {
    const arr: array<int>
    /** `arr_size`. */
    const arrSize: int
    var begin: int
    var end: int
    /** `num_el`. */
    var numEl: int
    /** Every value pushed so far, as the buffer stores it. */
    ghost var pushed: seq<int>

    /**
     * The slots: the buffer fills `arr` from index 0 and only wraps once it is full, after which
     * `end` is the slot just before `begin`.
     */
    ghost predicate Shape()
      reads this`begin, this`end, this`numEl
    {
      && arr.Length == arrSize > 0
      && 0 <= numEl <= arrSize && 0 <= begin < arrSize
      && (numEl < arrSize ==> begin == 0 && end == numEl - 1)
      && (numEl == arrSize ==> end == if begin == 0 then arrSize - 1 else begin - 1)
    }

    /** The buffered values, oldest first: the slots from `begin` round to just before it. */
    ghost function Contents(): (c: seq<int>)
      reads this`begin, this`end, this`numEl, arr
      requires Shape()
      ensures |c| == numEl
    {
      Ordered(arr[..], begin, numEl)
    }

    /** The buffer holds the last `arr_size` values pushed, oldest first. */
    ghost predicate Valid()
      reads this, arr
    {
      Shape() && Contents() == Window(pushed, arrSize)
    }

    /** A buffer of `size` slots, empty. */
    constructor (size: int)
      requires size > 0
      ensures Valid() && fresh(arr) && arrSize == size && pushed == [] && Contents() == []
    {
      arr := new int[size](_ => 0);
      arrSize := size;
      begin := 0;
      end := -1;
      numEl := 0;
      pushed := [];
    }

    /** `push_back`: append `elem`; a full buffer first drops its oldest value. */
    method PushBack(elem: int)
      requires Valid()
      modifies this`begin, this`end, this`numEl, this`pushed, arr
      ensures Valid() && pushed == old(pushed) + [Int32(elem)]
      ensures Contents() ==
        if old(numEl) < arrSize then old(Contents()) + [Int32(elem)] else old(Contents())[1..] + [Int32(elem)]
    {
      assert numEl < arrSize <==> |pushed| < arrSize;
      var x := Int32(elem);
      if numEl < arrSize {
        Append(x);
      } else {
        Overwrite(x);
      }
      WindowPush(pushed, x, arrSize);
      pushed := pushed + [x];
    }

    /** The branch of `push_back` with a free slot: `end` moves on to it. */
    method Append(x: int)
      requires Shape() && numEl < arrSize
      modifies this`end, this`numEl, arr
      ensures Shape() && Contents() == old(Contents()) + [x]
    {
      ghost var slots := arr[..];
      end := end + 1;
      arr[end] := x;
      numEl := numEl + 1;
      assert arr[..] == slots[end := x];
      Appended(slots, end, x);
    }

    /** The branch of `push_back` on a full buffer: `end` and `begin` both move on, round the end. */
    method Overwrite(x: int)
      requires Shape() && numEl == arrSize
      modifies this`begin, this`end, arr
      ensures Shape() && Contents() == old(Contents())[1..] + [x]
    {
      ghost var slots := arr[..];
      ModOnce(end + 1, arrSize);
      ModOnce(begin + 1, arrSize);
      end := (end + 1) % arrSize;
      begin := (begin + 1) % arrSize;
      arr[end] := x;
      assert arr[..] == slots[end := x];
      Rotated(slots, end, begin, x);
    }

    /**
     * `get(i)`: the `i`-th oldest value for `0 <= i < size()`. Past the end it reads a stale slot;
     * before the start JavaScript's remainder is negative and the read gives `undefined`, except
     * that a remainder of `-0` reads slot 0.
     */
    method Get(i: int) returns (r: Option<int>)
      requires Valid()
      ensures 0 <= i < numEl ==> r == Some(Contents()[i])
      ensures r.None? <==> begin + i < 0 && (-(begin + i)) % arrSize != 0
    {
      var k := begin + i;
      if k >= 0 {
        if i < numEl && 0 <= i {
          ModOnce(k, arrSize);
          assert (arr[..][begin..] + arr[..][..begin])[i] == arr[k % arrSize];
        }
        r := Some(arr[k % arrSize]);
      } else if (-k) % arrSize == 0 {
        r := Some(arr[0]);
      } else {
        r := None;
      }
    }

    /** `size()`: how many of the values pushed are still held. */
    function Size(): (n: int)
      reads this, arr
      requires Valid()
      ensures n == |Contents()| == (if |pushed| < arrSize then |pushed| else arrSize) <= arrSize
    {
      numEl
    }
  }
}
