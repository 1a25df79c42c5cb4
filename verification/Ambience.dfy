/**
 Where a streamed voice stops: speech is told start silence frame by frame, and a pause
 past the threshold ends the speech once.
 */
module Ambience {
  type Positive = n: int | n > 0 witness 1

  datatype Direction = Downstream | Upstream

  /** A frame of the voice's audio, or any other frame. */
  datatype Frame =
    | Voice(audio: seq<bv8>, sampleRate: Positive, channels: Positive)
    | Passing(id: int)

  /** What is pushed on: the voice as speech or as plain audio, the end of a speech, or
      the frame as it came. */
  datatype Push =
    | Speech(audio: seq<bv8>, sampleRate: Positive, channels: Positive)
    | Plain(audio: seq<bv8>, sampleRate: Positive, channels: Positive)
    | Stopped
    | Passed(id: int)

  datatype In = In(frame: Frame, direction: Direction)

  datatype Out = Out(push: Push, direction: Direction)

  /** How silence is told, and how long a pause ends a speech. */
  datatype Hearing = Hearing(isSilence: seq<bv8> -> bool, stopSecs: real)
  {
    predicate Loud(f: Frame) {
      f.Voice? && !isSilence(f.audio)
    }

    predicate Quiet(f: Frame) {
      f.Voice? && isSilence(f.audio)
    }
  }

  /** Two bytes a sample. */
  function Seconds(f: Frame): (secs: real)
    requires f.Voice?
    ensures secs >= 0.0 && secs * (2 * f.sampleRate * f.channels) as real == |f.audio| as real
  {
    |f.audio| as real / (2 * f.sampleRate * f.channels) as real
  }

  function Relayed(h: Hearing, i: In): Out {
    match i.frame
    case Passing(id) => Out(Passed(id), i.direction)
    case Voice(audio, rate, channels) =>
      Out(if h.isSilence(audio) then Plain(audio, rate, channels) else Speech(audio, rate, channels), i.direction)
  }

  /** A frame goes on the way it came: the voice with its audio as it is, as speech unless
      it is silence, any other frame untouched. */
  predicate GoesOnAs(h: Hearing, i: In, o: Out) {
    && o.direction == i.direction
    && match i.frame
       case Passing(id) => o.push == Passed(id)
       case Voice(audio, rate, channels) =>
         && (o.push.Speech? || o.push.Plain?) && (o.push.Plain? <==> h.isSilence(audio))
         && o.push.audio == audio && o.push.sampleRate == rate && o.push.channels == channels
  }

  // ----- the history

  /** How much silence a frame is. */
  function Pause(h: Hearing, i: In): (secs: real)
    ensures secs >= 0.0
  {
    if h.Quiet(i.frame) then Seconds(i.frame) else 0.0
  }

  /** How much silence there is from position `start` up to `end`. */
  function Silence(h: Hearing, ins: seq<In>, start: nat, end: nat): (secs: real)
    requires start <= end <= |ins|
    ensures secs >= 0.0
    decreases end
  {
    if start == end then 0.0
    else Silence(h, ins, start, end - 1) + Pause(h, ins[end - 1])
  }

  /** The last of the voice's frames before `end` that was no silence. */
  predicate LastLoud(h: Hearing, ins: seq<In>, s: nat, end: nat)
    requires end <= |ins|
  {
    s < end && h.Loud(ins[s].frame) && forall j :: s < j < end ==> !h.Loud(ins[j].frame)
  }

  /** Speech before `end` that no pause has ended yet. */
  ghost predicate Speaking(h: Hearing, ins: seq<In>, end: nat)
    requires end <= |ins|
  {
    exists s: nat :: LastLoud(h, ins, s, end) && Silence(h, ins, s + 1, end) <= h.stopSecs
  }

  /** At the silent frame `i` the silence since the last speech is first too long. */
  ghost predicate StopsAt(h: Hearing, ins: seq<In>, i: nat)
    requires i < |ins|
  {
    && h.Quiet(ins[i].frame)
    && exists s: nat :: LastLoud(h, ins, s, i)
         && Silence(h, ins, s + 1, i) <= h.stopSecs < Silence(h, ins, s + 1, i + 1)
  }

  /** All that is pushed on for a stream of frames. */
  ghost function Heard(h: Hearing, ins: seq<In>, end: nat): seq<Out>
    requires end <= |ins|
    decreases end
  {
    if end == 0 then []
    else
      Heard(h, ins, end - 1) + [Relayed(h, ins[end - 1])]
      + if StopsAt(h, ins, end - 1) then [Out(Stopped, ins[end - 1].direction)] else []
  }

  lemma {:induction false} SilenceOf(h: Hearing, ins: seq<In>, i: In, start: nat, end: nat)
    requires start <= end <= |ins|
    ensures Silence(h, ins + [i], start, end) == Silence(h, ins, start, end)
    decreases end
  {
    if start < end {
      SilenceOf(h, ins, i, start, end - 1);
    }
  }

  lemma LastLoudSame(h: Hearing, ins: seq<In>, i: In, s: nat, end: nat)
    requires end <= |ins|
    ensures LastLoud(h, ins + [i], s, end) <==> LastLoud(h, ins, s, end)
  {
    assert forall j :: 0 <= j < end ==> (ins + [i])[j] == ins[j];
  }

  lemma StopsOf(h: Hearing, ins: seq<In>, i: In, k: nat)
    requires k < |ins|
    ensures StopsAt(h, ins + [i], k) <==> StopsAt(h, ins, k)
  {
    forall s: nat | s < k
      ensures LastLoud(h, ins + [i], s, k) <==> LastLoud(h, ins, s, k)
      ensures Silence(h, ins + [i], s + 1, k) == Silence(h, ins, s + 1, k)
      ensures Silence(h, ins + [i], s + 1, k + 1) == Silence(h, ins, s + 1, k + 1)
    {
      LastLoudSame(h, ins, i, s, k);
      SilenceOf(h, ins, i, s + 1, k);
      SilenceOf(h, ins, i, s + 1, k + 1);
    }
    if StopsAt(h, ins + [i], k) {
      var s: nat :| LastLoud(h, ins + [i], s, k)
        && Silence(h, ins + [i], s + 1, k) <= h.stopSecs < Silence(h, ins + [i], s + 1, k + 1);
      assert LastLoud(h, ins, s, k);
    }
    if StopsAt(h, ins, k) {
      var s: nat :| LastLoud(h, ins, s, k) && Silence(h, ins, s + 1, k) <= h.stopSecs < Silence(h, ins, s + 1, k + 1);
      assert LastLoud(h, ins + [i], s, k);
    }
  }

  /** What was heard of the frames before is heard still. */
  lemma {:induction false} HeardOf(h: Hearing, ins: seq<In>, i: In, end: nat)
    requires end <= |ins|
    ensures Heard(h, ins + [i], end) == Heard(h, ins, end)
    decreases end
  {
    if end > 0 {
      HeardOf(h, ins, i, end - 1);
      StopsOf(h, ins, i, end - 1);
    }
  }

  lemma OneLastLoud(h: Hearing, ins: seq<In>, s: nat, t: nat, end: nat)
    requires end <= |ins| && LastLoud(h, ins, s, end) && LastLoud(h, ins, t, end)
    ensures s == t
  {
  }

  /** A frame that is not loud leaves the last speech where it was. */
  lemma LastLoudOf(h: Hearing, ins: seq<In>, i: In, s: nat)
    ensures LastLoud(h, ins + [i], s, |ins| + 1) <==>
      if h.Loud(i.frame) then s == |ins| else LastLoud(h, ins, s, |ins|)
    ensures LastLoud(h, ins + [i], s, |ins|) <==> LastLoud(h, ins, s, |ins|)
    ensures s < |ins| ==> Silence(h, ins + [i], s + 1, |ins|) == Silence(h, ins, s + 1, |ins|)
    ensures s < |ins| ==> Silence(h, ins + [i], s + 1, |ins| + 1) == Silence(h, ins, s + 1, |ins|) + Pause(h, i)
  {
    var all := ins + [i];
    LastLoudSame(h, ins, i, s, |ins|);
    if s < |ins| {
      SilenceOf(h, ins, i, s + 1, |ins|);
    }
    if !h.Loud(i.frame) && LastLoud(h, ins, s, |ins|) {
      forall j | s < j < |ins| + 1 ensures !h.Loud(all[j].frame) {
        assert j < |ins| ==> all[j] == ins[j];
      }
    }
    if LastLoud(h, all, s, |ins| + 1) && s < |ins| {
      assert !h.Loud(all[|ins|].frame);
      forall j | s < j < |ins| ensures !h.Loud(ins[j].frame) {
        assert all[j] == ins[j];
      }
    }
  }

  // ----- the processor

  class SpeechBeforeAmbience {
    const hearing: Hearing
    var speaking: bool
    var silenceSecs: real
    ghost var ins: seq<In>
    ghost var outs: seq<Out>

    constructor (hearing: Hearing)
      requires hearing.stopSecs >= 0.0
      ensures this.hearing == hearing && ins == [] && outs == [] && Valid()
    {
      this.hearing := hearing;
      speaking, silenceSecs := false, 0.0;
      ins, outs := [], [];
    }

    /** The two fields are what the history says. */
    ghost predicate Valid()
      reads this
    {
      && hearing.stopSecs >= 0.0
      && Knows(hearing, ins, speaking, silenceSecs)
      && outs == Heard(hearing, ins, |ins|)
    }

    /** `process_frame`. */
    method ProcessFrame(frame: Frame, direction: Direction) returns (pushed: seq<Out>)
      requires Valid()
      modifies this
      ensures Valid()
      ensures ins == old(ins) + [In(frame, direction)] && outs == old(outs) + pushed
      ensures |pushed| > 0 && GoesOnAs(hearing, In(frame, direction), pushed[0])
      ensures pushed[1..] == if StopsAt(hearing, ins, |ins| - 1) then [Out(Stopped, direction)] else []
    {
      var i := In(frame, direction);
      ghost var before := ins;
      ins := ins + [i];
      HeardOf(hearing, before, i, |before|);
      if hearing.Loud(frame) {
        LoudFrame(hearing, before, i);
      } else {
        OtherFrame(hearing, before, i, speaking, silenceSecs);
      }
      pushed := [Relayed(hearing, i)];
      if frame.Voice? {
        if !hearing.isSilence(frame.audio) {
          speaking, silenceSecs := true, 0.0;
        } else {
          silenceSecs := silenceSecs + Seconds(frame);
          if speaking && silenceSecs > hearing.stopSecs {
            speaking := false;
            pushed := pushed + [Out(Stopped, direction)];
          }
        }
      }
      outs := outs + pushed;
    }
  }

  /** Whether the processor is in a speech, and after how much silence, as the history
      has it. */
  ghost predicate Knows(h: Hearing, ins: seq<In>, speaking: bool, silenceSecs: real) {
    && (speaking <==> Speaking(h, ins, |ins|))
    && (forall s: nat :: LastLoud(h, ins, s, |ins|) ==> silenceSecs == Silence(h, ins, s + 1, |ins|))
  }

  lemma LoudFrame(h: Hearing, ins: seq<In>, i: In)
    requires h.stopSecs >= 0.0 && h.Loud(i.frame)
    ensures Knows(h, ins + [i], true, 0.0) && !StopsAt(h, ins + [i], |ins|)
  {
    var all := ins + [i];
    LastLoudOf(h, ins, i, |ins|);
    assert LastLoud(h, all, |ins|, |all|);
    forall s: nat | LastLoud(h, all, s, |all|) ensures s == |ins| {
      LastLoudOf(h, ins, i, s);
    }
  }

  lemma OtherFrame(h: Hearing, ins: seq<In>, i: In, speaking: bool, silenceSecs: real)
    requires !h.Loud(i.frame) && Knows(h, ins, speaking, silenceSecs)
    ensures
      var secs := silenceSecs + Pause(h, i);
      && Knows(h, ins + [i], speaking && secs <= h.stopSecs, secs)
      && (StopsAt(h, ins + [i], |ins|) <==> h.Quiet(i.frame) && speaking && secs > h.stopSecs)
  {
    var all := ins + [i];
    forall s: nat
      ensures LastLoud(h, all, s, |all|) <==> LastLoud(h, ins, s, |ins|)
      ensures LastLoud(h, all, s, |ins|) <==> LastLoud(h, ins, s, |ins|)
      ensures s < |ins| ==> Silence(h, all, s + 1, |ins|) == Silence(h, ins, s + 1, |ins|)
      ensures s < |ins| ==> Silence(h, all, s + 1, |all|) == Silence(h, ins, s + 1, |ins|) + Pause(h, i)
    {
      LastLoudOf(h, ins, i, s);
    }
    if exists s: nat :: LastLoud(h, ins, s, |ins|) {
      var s: nat :| LastLoud(h, ins, s, |ins|);
      forall r: nat | LastLoud(h, ins, r, |ins|) ensures r == s {
        OneLastLoud(h, ins, r, s, |ins|);
      }
      assert LastLoud(h, all, s, |all|);
      assert LastLoud(h, all, s, |ins|);
    }
  }

  // ----- what is heard of a stream

  predicate IsStop(o: Out) {
    o.push.Stopped?
  }

  function WithoutStops(outs: seq<Out>): seq<Out>
    decreases |outs|
  {
    if outs == [] then []
    else
      WithoutStops(outs[..|outs| - 1]) + if IsStop(outs[|outs| - 1]) then [] else [outs[|outs| - 1]]
  }

  function AllRelayed(h: Hearing, ins: seq<In>, end: nat): (outs: seq<Out>)
    requires end <= |ins|
    ensures |outs| == end && forall i :: 0 <= i < end ==> outs[i] == Relayed(h, ins[i])
  {
    seq(end, i requires 0 <= i < end => Relayed(h, ins[i]))
  }

  lemma WithoutStopsAfter(outs: seq<Out>, o: Out)
    ensures WithoutStops(outs + [o]) == WithoutStops(outs) + if IsStop(o) then [] else [o]
  {
    assert (outs + [o])[..|outs|] == outs;
  }

  lemma OneMoreRelayed(outs: seq<Out>, relayed: Out, stop: Out, stops: bool)
    requires !IsStop(relayed) && IsStop(stop)
    ensures WithoutStops(outs + [relayed] + if stops then [stop] else []) == WithoutStops(outs) + [relayed]
  {
    WithoutStopsAfter(outs, relayed);
    if stops {
      WithoutStopsAfter(outs + [relayed], stop);
    } else {
      assert outs + [relayed] + [] == outs + [relayed];
    }
  }

  /** But for the stops, what is heard is the stream itself: every frame once, in order,
      with its audio. */
  lemma {:induction false} NothingLostOrInvented(h: Hearing, ins: seq<In>, end: nat)
    requires end <= |ins|
    ensures WithoutStops(Heard(h, ins, end)) == AllRelayed(h, ins, end)
    ensures forall i :: 0 <= i < end ==> GoesOnAs(h, ins[i], WithoutStops(Heard(h, ins, end))[i])
    decreases end
  {
    if end > 0 {
      NothingLostOrInvented(h, ins, end - 1);
      OneMoreRelayed(Heard(h, ins, end - 1), Relayed(h, ins[end - 1]), Out(Stopped, ins[end - 1].direction),
                     StopsAt(h, ins, end - 1));
      AllRelayedAfter(h, ins, end);
    }
  }

  lemma AllRelayedAfter(h: Hearing, ins: seq<In>, end: nat)
    requires 0 < end <= |ins|
    ensures AllRelayed(h, ins, end) == AllRelayed(h, ins, end - 1) + [Relayed(h, ins[end - 1])]
  {
  }

  lemma {:induction false} SilenceGrows(h: Hearing, ins: seq<In>, start: nat, mid: nat, end: nat)
    requires start <= mid <= end <= |ins|
    ensures Silence(h, ins, start, mid) <= Silence(h, ins, start, end)
    decreases end
  {
    if mid < end {
      SilenceGrows(h, ins, start, mid, end - 1);
    }
  }

  /** A speech is stopped once: between two stops somebody spoke. */
  lemma StopsAreApart(h: Hearing, ins: seq<In>, i: nat, k: nat)
    requires i < k < |ins| && StopsAt(h, ins, i) && StopsAt(h, ins, k)
    ensures exists s :: i < s < k && h.Loud(ins[s].frame)
  {
    var s: nat :| LastLoud(h, ins, s, i) && Silence(h, ins, s + 1, i) <= h.stopSecs < Silence(h, ins, s + 1, i + 1);
    var t: nat :| LastLoud(h, ins, t, k) && Silence(h, ins, t + 1, k) <= h.stopSecs < Silence(h, ins, t + 1, k + 1);
    if t <= i {
      assert t == s;
      SilenceGrows(h, ins, s + 1, i + 1, k);
    }
  }
}
