/**
 * `AM.Profiler`: named stopwatches for the stages of a frame, and the history of frame times kept
 * in a ring buffer. The clock (`new Date().getTime()`) is read by the caller and passed in.
 */
module Profiling {
  import opened Js
  import opened Ring

  /** `stopwatch`. */
  class Stopwatch {
    var startTime: int
    var stopTime: int
    /** The time between the last `start` and the `stop` after it; `get_runtime` reads it. */
    var runTime: int
    var running: bool

    constructor ()
      ensures startTime == 0 && stopTime == 0 && runTime == 0 && !running
    {
      startTime := 0;
      stopTime := 0;
      runTime := 0;
      running := false;
    }

    /** `start` at time `now`. */
    method Start(now: int)
      modifies this`startTime, this`running
      ensures startTime == now && running
    {
      startTime := now;
      running := true;
    }

    /** `stop` at time `now`: the run time is measured from the last start. */
    method Stop(now: int)
      modifies this`stopTime, this`runTime, this`running
      ensures stopTime == now && runTime == now - old(startTime) && !running
    {
      stopTime := now;
      runTime := stopTime - startTime;
      running := false;
    }

    /** `reset`: only the run time is cleared. */
    method Reset()
      modifies this`runTime
      ensures runTime == 0
    {
      runTime := 0;
    }
  }

  /** The frames counted so far and the last 20 frame times: one copy shared by every profiler. */
  class FrameHistory {
    /** `count_frames`. */
    var countFrames: int
    /** `ringbuff`. */
    const ring: RingBuffer

    constructor ()
      ensures countFrames == 0 && fresh(ring) && fresh(ring.arr) && ring.Valid()
      ensures ring.arrSize == 20 && ring.pushed == []
    {
      countFrames := 0;
      ring := new RingBuffer(20);
    }
  }

  /** The index of the first pair named `subj`, if any. */
  function FirstNamed(timers: seq<(string, Stopwatch)>, subj: string): (r: Option<nat>)
    ensures r.Some? ==> r.value < |timers| && timers[r.value].0 == subj
    ensures forall j :: 0 <= j < |timers| && (r.None? || j < r.value) ==> timers[j].0 != subj
  {
    if timers == [] then None
    else if timers[0].0 == subj then Some(0)
    else
      match FirstNamed(timers[1..], subj)
      case None => None
      case Some(i) => Some(i + 1)
  }

  /** `AM.Profiler`. */
  class Profiler {
    /** The `[name, stopwatch]` pairs, in the order they were added. */
    var timers: seq<(string, Stopwatch)>
    /** `frame_timer`. */
    const frameTimer: Stopwatch
    /** The closure's `count_frames` and `ringbuff`. */
    const history: FrameHistory

    /** The stopwatches of the pairs. */
    function Watches(): set<Stopwatch>
      reads this
    {
      set p | p in timers :: p.1
    }

    /** Every pair has its own stopwatch, apart from the frame timer; the frame history is sound. */
    ghost predicate Valid()
      reads this, history, history.ring, history.ring.arr
    {
      && history.ring.Valid() && history.countFrames >= 0
      && (forall i, j :: 0 <= i < j < |timers| ==> timers[i].1 != timers[j].1)
      && forall i :: 0 <= i < |timers| ==> timers[i].1 != frameTimer
    }

    constructor (h: FrameHistory)
      requires h.ring.Valid() && h.countFrames >= 0
      ensures Valid() && timers == [] && history == h && fresh(frameTimer)
      ensures frameTimer.runTime == 0 && !frameTimer.running
    {
      timers := [];
      frameTimer := new Stopwatch();
      history := h;
    }

    /** `add`: a new pair, with a fresh stopwatch, at the end. */
    method Add(subj: string)
      requires Valid()
      modifies this`timers
      ensures Valid() && |timers| == |old(timers)| + 1 && timers[..|old(timers)|] == old(timers)
      ensures timers[|old(timers)|].0 == subj && fresh(timers[|old(timers)|].1)
      ensures timers[|old(timers)|].1.runTime == 0 && !timers[|old(timers)|].1.running
    {
      var sw := new Stopwatch();
      timers := timers + [(subj, sw)];
    }

    /** `find_task`: the first pair named `subj`, or `null`. */
    method FindTask(subj: string) returns (r: Option<nat>)
      ensures r == FirstNamed(timers, subj)
    {
      var i := 0;
      while i < |timers|
        invariant 0 <= i <= |timers|
        invariant forall j :: 0 <= j < i ==> timers[j].0 != subj
      {
        if timers[i].0 == subj {
          return Some(i);
        }
        i := i + 1;
      }
      return None;
    }

    /** `start(subj)`: starts the first stopwatch named `subj`; an unknown name reads `null[1]`. */
    method Start(subj: string, now: int) returns (o: Outcome<()>)
      requires Valid()
      modifies Watches()
      ensures o.Throws? <==> FirstNamed(timers, subj).None?
      ensures o.Throws? ==> o.error == TypeError
      ensures o.Ok? ==>
        var i := FirstNamed(timers, subj).value;
        timers[i].1.startTime == now && timers[i].1.running
        && timers[i].1.runTime == old(timers[i].1.runTime) && timers[i].1.stopTime == old(timers[i].1.stopTime)
        && forall j :: 0 <= j < |timers| && j != i ==> unchanged(timers[j].1)
    {
      var r := FindTask(subj);
      if r.None? {
        return Throws(TypeError);
      }
      timers[r.value].1.Start(now);
      o := Ok(());
    }

    /** `stop(subj)`: stops the first stopwatch named `subj`; an unknown name reads `null[1]`. */
    method Stop(subj: string, now: int) returns (o: Outcome<()>)
      requires Valid()
      modifies Watches()
      ensures o.Throws? <==> FirstNamed(timers, subj).None?
      ensures o.Throws? ==> o.error == TypeError
      ensures o.Ok? ==>
        var i := FirstNamed(timers, subj).value;
        timers[i].1.runTime == now - old(timers[i].1.startTime) && !timers[i].1.running
        && timers[i].1.stopTime == now && timers[i].1.startTime == old(timers[i].1.startTime)
        && forall j :: 0 <= j < |timers| && j != i ==> unchanged(timers[j].1)
    {
      var r := FindTask(subj);
      if r.None? {
        return Throws(TypeError);
      }
      timers[r.value].1.Stop(now);
      o := Ok(());
    }

    /** A stage stopwatch whose start time, stop time and running flag are as they were. */
    twostate predicate KeepsStartStop(w: Stopwatch)
      reads w
    {
      w.startTime == old(w.startTime) && w.stopTime == old(w.stopTime) && w.running == old(w.running)
    }

    /** The loop of `new_frame`: every stage's run time is cleared, and nothing else of them. */
    method ResetAll()
      requires forall i :: 0 <= i < |timers| ==> timers[i].1 != frameTimer
      modifies Watches()
      ensures forall i :: 0 <= i < |timers| ==> timers[i].1.runTime == 0
      ensures forall i :: 0 <= i < |timers| ==> KeepsStartStop(timers[i].1)
      ensures unchanged(frameTimer, history.ring, history.ring.arr)
    {
      var i := 0;
      while i < |timers|
        invariant 0 <= i <= |timers|
        invariant forall j :: 0 <= j < i ==> timers[j].1.runTime == 0
        invariant forall j :: 0 <= j < |timers| ==> KeepsStartStop(timers[j].1)
        invariant unchanged(frameTimer, history.ring, history.ring.arr)
      {
        timers[i].1.Reset();
        i := i + 1;
      }
    }

    /**
     * `new_frame`: one more frame is counted, every stage's run time is cleared, and the frame timer,
     * stopped at `stopAt`, records the frame's time in the history before restarting at `startAt`.
     */
    method NewFrame(stopAt: int, startAt: int)
      requires Valid()
      modifies history`countFrames, history.ring, history.ring.arr, Watches(), frameTimer
      ensures Valid() && history.countFrames == old(history.countFrames) + 1
      ensures forall i :: 0 <= i < |timers| ==> timers[i].1.runTime == 0
      ensures forall i :: 0 <= i < |timers| ==> KeepsStartStop(timers[i].1)
      ensures frameTimer.runTime == stopAt - old(frameTimer.startTime)
      ensures frameTimer.stopTime == stopAt && frameTimer.startTime == startAt && frameTimer.running
      ensures history.ring.pushed == old(history.ring.pushed) + [Int32(stopAt - old(frameTimer.startTime))]
    {
      history.countFrames := history.countFrames + 1;
      ResetAll();
      if history.countFrames >= 1 {
        Lap(stopAt, startAt);
      }
    }

    /** The frame timer's part of `new_frame`: stop, record the frame time, restart. */
    method Lap(stopAt: int, startAt: int)
      requires history.ring.Valid()
      modifies history.ring, history.ring.arr, frameTimer
      ensures history.ring.Valid()
      ensures frameTimer.runTime == stopAt - old(frameTimer.startTime)
      ensures frameTimer.stopTime == stopAt && frameTimer.startTime == startAt && frameTimer.running
      ensures history.ring.pushed == old(history.ring.pushed) + [Int32(stopAt - old(frameTimer.startTime))]
    {
      frameTimer.Stop(stopAt);
      history.ring.PushBack(frameTimer.runTime);
      frameTimer.Start(startAt);
    }
  }
}
