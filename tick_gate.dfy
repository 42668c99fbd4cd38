/**
 * The once-per-second tick gate (tilt_clock_3D..js, `animate.lastSecond`).
 *
 * The gate remembers the integer second of the last frame that fired, and is
 * undefined before the first frame.  A frame fires (restarts the tick sound)
 * exactly when its integer second differs from the remembered one, and then
 * remembers its own second.
 */
module TickGate {
  import opened Wrappers

  /** `animate.lastSecond !== currentSecond`; an undefined `lastSecond` differs from every second. */
  predicate Fires(last: Option<int>, current: int)
  {
    last != Some(current)
  }

  /** The gate after a frame: it fired and stored the second, or it already held it. */
  function Next(last: Option<int>, current: int): Option<int>
  {
    if Fires(last, current) then Some(current) else last
  }

  /** The number of frames that fire, for frames with these integer seconds in order. */
  function CountFires(last: Option<int>, seconds: seq<int>): nat
    decreases |seconds|
  {
    if seconds == [] then 0
    else (if Fires(last, seconds[0]) then 1 else 0) + CountFires(Next(last, seconds[0]), seconds[1..])
  }

  /** The number of places where the integer second differs from the previous frame's. */
  function Changes(seconds: seq<int>): nat
    decreases |seconds|
  {
    if |seconds| < 2 then 0
    else (if seconds[0] != seconds[1] then 1 else 0) + Changes(seconds[1..])
  }

  /** The first frame always fires; after any frame the gate holds that frame's second, and a
      frame fires exactly when its second differs from the one stored. */
  lemma GateStep(last: Option<int>, current: int)
    ensures Fires(None, current)
    ensures Next(last, current) == Some(current)
    ensures Fires(last, current) <==> (last.None? || last.value != current)
  {
  }

  lemma {:induction false} CountFiresAfter(a: int, seconds: seq<int>)
    ensures CountFires(Some(a), seconds) == Changes([a] + seconds)
    decreases |seconds|
  {
    if seconds != [] {
      CountFiresAfter(seconds[0], seconds[1..]);
      assert ([a] + seconds)[1..] == [seconds[0]] + seconds[1..];
    }
  }

  /** Over any run of frames, the fires are the first frame plus one for every change of the
      integer second: frequent frames within one second cause no extra fire. */
  lemma FiresCountChanges(seconds: seq<int>)
    ensures CountFires(None, seconds) == if seconds == [] then 0 else 1 + Changes(seconds)
  {
    if seconds != [] {
      CountFiresAfter(seconds[0], seconds[1..]);
      assert [seconds[0]] + seconds[1..] == seconds;
    }
  }

  /** Any number of frames within one second fires once, and none once the gate holds it. */
  lemma {:induction false} SameSecondFiresOnce(c: int, seconds: seq<int>)
    requires forall i :: 0 <= i < |seconds| ==> seconds[i] == c
    ensures CountFires(Some(c), seconds) == 0
    ensures seconds != [] ==> CountFires(None, seconds) == 1
    decreases |seconds|
  {
    if seconds != [] {
      SameSecondFiresOnce(c, seconds[1..]);
    }
  }

  /** The integer second (`getSeconds()`) of a frame `ms` milliseconds after a whole minute
      of local time. */
  function SecondOfMinute(ms: nat): nat
  {
    (ms / 1000) % 60
  }

  function SecondsOfFrames(frames: seq<nat>): (r: seq<int>)
    ensures |r| == |frames|
    decreases |frames|
  {
    if frames == [] then [] else [SecondOfMinute(frames[0]) as int] + SecondsOfFrames(frames[1..])
  }

  /** Frame times in milliseconds that never go back and never skip a whole second: each
      frame falls in the same wall-clock second as the previous one or in the next. */
  predicate Steady(frames: seq<nat>)
    decreases |frames|
  {
    |frames| < 2 || (frames[0] <= frames[1] && frames[1] / 1000 <= frames[0] / 1000 + 1 && Steady(frames[1..]))
  }

  lemma NextFrameSecond(a: nat, b: nat)
    requires a <= b && b / 1000 <= a / 1000 + 1
    ensures b / 1000 == a / 1000 || b / 1000 == a / 1000 + 1
    ensures SecondOfMinute(a) != SecondOfMinute(b) <==> b / 1000 != a / 1000
  {
    var qa, qb := a / 1000, b / 1000;
    assert qa * 1000 <= a && a < qa * 1000 + 1000;
    assert qb * 1000 <= b && b < qb * 1000 + 1000;
    if qb == qa + 1 {
      var p, r := qa / 60, qa % 60;
      if r < 59 {
        assert qb == p * 60 + (r + 1);
        assert qb % 60 == r + 1;
      } else {
        assert qb == (p + 1) * 60;
        assert qb % 60 == 0;
      }
    }
  }

  lemma {:induction false} SteadyChanges(frames: seq<nat>)
    requires frames != [] && Steady(frames)
    ensures Changes(SecondsOfFrames(frames)) == (frames[|frames| - 1] / 1000) as int - (frames[0] / 1000) as int
    decreases |frames|
  {
    if |frames| >= 2 {
      var rest := frames[1..];
      SteadyChanges(rest);
      NextFrameSecond(frames[0], frames[1]);
      var s := SecondsOfFrames(frames);
      assert s[1..] == SecondsOfFrames(rest);
      assert s[0] == SecondOfMinute(frames[0]) as int;
      assert s[1] == SecondOfMinute(frames[1]) as int;
      assert rest[|rest| - 1] == frames[|frames| - 1];
    }
  }

  /** At any frame rate, as long as no second passes without a frame, the tick fires once
      for every distinct wall-clock second the frames span, first and last included. */
  lemma OneTickPerSecond(frames: seq<nat>)
    requires frames != [] && Steady(frames)
    ensures CountFires(None, SecondsOfFrames(frames)) == (frames[|frames| - 1] / 1000) as int - (frames[0] / 1000) as int + 1
  {
    SteadyChanges(frames);
    FiresCountChanges(SecondsOfFrames(frames));
  }

  /** Frames spanning five seconds, at whatever rate, fire exactly five ticks. */
  lemma FiveSecondsFiveTicks(frames: seq<nat>, w: nat)
    requires frames != [] && Steady(frames)
    requires frames[0] / 1000 == w && frames[|frames| - 1] / 1000 == w + 4
    ensures CountFires(None, SecondsOfFrames(frames)) == 5
  {
    OneTickPerSecond(frames);
  }
}
