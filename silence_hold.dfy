/**
  The silence hold that ends a recording turn. Every animation frame samples
  the microphone; a quiet frame arms a one-second timer unless the global
  `silenceTimeout` handle is already set, a loud frame clears the timer and
  the handle, and the timer's callback stops the recorder. Frames keep being
  scheduled only while the recorder is recording.

  Real time is replaced by events: a frame, the firing of a timer, and the
  start of a new turn. The browser's table of scheduled timers is part of
  the state (`armed`), so that "at most one timer pending" can be stated.
 */
module SilenceHold {
  import opened Energy

  /** The global `silenceTimeout`: unset (`undefined` or `null`) or the id `setTimeout` returned. */
  datatype Handle = Null | Timer(id: nat)

  datatype Event =
    | Frame(buf: seq<Byte>)  // a scheduled `detectSilence` runs on a fresh sample buffer
    | Fire(id: nat)          // the browser runs the callback of timer `id`, if it is still scheduled
    | StartTurn              // `startVoiceLoop` starts a recorder and schedules the first frame

  datatype Hold = Hold(
    handle: Handle,      // `silenceTimeout`
    armed: set<nat>,     // timers scheduled and neither fired nor cleared
    recording: bool,     // `mediaRecorder.state === "recording"`
    framePending: bool,  // a `detectSilence` call is scheduled with `requestAnimationFrame`
    nextId: nat          // the id the next `setTimeout` returns
  )

  function HandleIds(h: Handle): set<nat> {
    if h.Timer? then {h.id} else {}
  }

  /** Page load: no handle, no timer, no recorder, no frame; browsers number timers from 1. */
  const Initial: Hold := Hold(Null, {}, false, false, 1)

  /**
    The invariant: the only timer that can be scheduled is the one the
    handle names; a scheduled timer belongs to a running recorder; and a
    frame left over after the recorder stopped always finds the handle set.
   */
  predicate Valid(s: Hold) {
    && s.armed <= HandleIds(s.handle)
    && (s.handle.Timer? ==> s.handle.id < s.nextId)
    && (s.armed != {} ==> s.recording)
    && (!s.recording && s.framePending ==> s.handle.Timer?)
  }

  /** One event. */
  function Step(s: Hold, e: Event): Hold {
    match e
    case Frame(buf) =>
      if !s.framePending then s
      else
        var t :=
          if IsQuiet(buf) then
            if s.handle.Null? then
              s.(handle := Timer(s.nextId), armed := s.armed + {s.nextId}, nextId := s.nextId + 1)
            else s
          else s.(handle := Null, armed := s.armed - HandleIds(s.handle));
        t.(framePending := s.recording)
    case Fire(id) =>
      if id in s.armed then s.(armed := s.armed - {id}, recording := false) else s
    case StartTurn =>
      s.(recording := true, framePending := true)
  }

  /** A sequence of events, in order. */
  function Run(s: Hold, es: seq<Event>): Hold
    decreases |es|
  {
    if es == [] then s else Run(Step(s, es[0]), es[1..])
  }

  /** One frame event per buffer. */
  function Frames(bufs: seq<seq<Byte>>): (es: seq<Event>)
    ensures |es| == |bufs|
    ensures forall i :: 0 <= i < |bufs| ==> es[i] == Frame(bufs[i])
  {
    if bufs == [] then [] else [Frame(bufs[0])] + Frames(bufs[1..])
  }

  lemma InitialValid()
    ensures Valid(Initial)
  {
  }

  lemma StepValid(s: Hold, e: Event)
    requires Valid(s)
    ensures Valid(Step(s, e))
  {
  }

  /** Every reachable state keeps the invariant. */
  lemma {:induction false} RunValid(s: Hold, es: seq<Event>)
    requires Valid(s)
    ensures Valid(Run(s, es))
    decreases |es|
  {
    if es != [] {
      StepValid(s, es[0]);
      RunValid(Step(s, es[0]), es[1..]);
    }
  }

  /** At most one hold timer is ever pending. */
  lemma AtMostOneTimer(s: Hold)
    requires Valid(s)
    ensures |s.armed| <= 1
  {
    if s.handle.Timer? {
      assert s.armed <= {s.handle.id};
      assert |s.armed| <= |{s.handle.id}| by {
        SubsetCard(s.armed, {s.handle.id});
      }
    } else {
      assert s.armed == {};
    }
  }

  lemma SubsetCard(a: set<nat>, b: set<nat>)
    requires a <= b
    ensures |a| <= |b|
  {
    assert b == a + (b - a);
  }

  /**
    A quiet frame arms a new timer exactly when the handle is unset, and with
    the handle set it changes neither the handle nor the pending timers.
   */
  lemma QuietFrame(s: Hold, buf: seq<Byte>)
    requires Valid(s) && s.framePending && IsQuiet(buf)
    ensures var t := Step(s, Frame(buf));
      && (s.handle.Null? ==> t.handle == Timer(s.nextId) && t.armed == {s.nextId} && s.nextId !in s.armed)
      && (s.handle.Timer? ==> t.handle == s.handle && t.armed == s.armed)
      && t.recording == s.recording
  {
  }

  /** A loud frame cancels whatever timer is pending and clears the handle. */
  lemma LoudFrame(s: Hold, buf: seq<Byte>)
    requires Valid(s) && s.framePending && !IsQuiet(buf)
    ensures var t := Step(s, Frame(buf));
      t.handle == Null && t.armed == {} && t.recording == s.recording
  {
  }

  /** A frame schedules the next frame exactly when the recorder is still recording. */
  lemma FrameReschedules(s: Hold, buf: seq<Byte>)
    ensures s.framePending ==> Step(s, Frame(buf)).framePending == s.recording
    ensures !s.framePending ==> Step(s, Frame(buf)) == s
  {
  }

  /**
    A pending timer that fires stops the recorder and leaves no timer
    pending, but the handle keeps the fired timer's id.
   */
  lemma FireStopsRecorder(s: Hold, id: nat)
    requires Valid(s) && id in s.armed
    ensures var t := Step(s, Fire(id));
      !t.recording && t.armed == {} && t.handle == s.handle == Timer(id)
  {
  }

  /** A timer that was cleared (or never armed) does nothing when its time comes. */
  lemma ClearedTimerIsHarmless(s: Hold, id: nat)
    requires id !in s.armed
    ensures Step(s, Fire(id)) == s
  {
  }

  /**
    Quiet frames leave a set handle alone: with no timer pending they arm
    none, so the recorder cannot be stopped by silence.
   */
  lemma {:induction false} QuietFramesKeepHandle(s: Hold, bufs: seq<seq<Byte>>)
    requires Valid(s) && s.handle.Timer?
    requires forall i :: 0 <= i < |bufs| ==> IsQuiet(bufs[i])
    ensures var t := Run(s, Frames(bufs));
      t.handle == s.handle && t.armed == s.armed && t.recording == s.recording
    decreases |bufs|
  {
    if bufs != [] {
      var es := Frames(bufs);
      assert es[0] == Frame(bufs[0]);
      assert es[1..] == Frames(bufs[1..]);
      var s1 := Step(s, Frame(bufs[0]));
      assert s1.handle == s.handle && s1.armed == s.armed && s1.recording == s.recording;
      StepValid(s, Frame(bufs[0]));
      QuietFramesKeepHandle(s1, bufs[1..]);
    }
  }

  /**
    The handle is not reset when the timer fires. So if the next turn starts
    in silence, no frame arms a timer and the recorder keeps recording, until
    a loud frame clears the handle.
   */
  lemma SilentNextTurnIsNotCut(s: Hold, id: nat, bufs: seq<seq<Byte>>)
    requires Valid(s) && id in s.armed
    requires forall i :: 0 <= i < |bufs| ==> IsQuiet(bufs[i])
    ensures var t := Run(s, [Fire(id), StartTurn] + Frames(bufs));
      t.recording && t.armed == {} && t.handle == Timer(id)
  {
    var s2 := Step(Step(s, Fire(id)), StartTurn);
    RunAppend(s, [Fire(id), StartTurn], Frames(bufs));
    assert Run(s, [Fire(id), StartTurn]) == s2 by {
      assert [Fire(id), StartTurn][1..] == [StartTurn];
      assert [StartTurn][1..] == [];
    }
    StepValid(s, Fire(id));
    StepValid(Step(s, Fire(id)), StartTurn);
    QuietFramesKeepHandle(s2, bufs);
  }

  /**
    The frame already scheduled when the timer stops the recorder still
    runs. If it is loud it clears the handle, and the next turn is cut by
    its first quiet frame and the timer that frame arms.
   */
  lemma LoudLeftoverFrameRearms(s: Hold, id: nat, loud: seq<Byte>, quiet: seq<Byte>)
    requires Valid(s) && id in s.armed && s.framePending
    requires !IsQuiet(loud) && IsQuiet(quiet)
    ensures var t := Run(s, [Fire(id), Frame(loud), StartTurn, Frame(quiet)]);
      && t.recording && t.handle == Timer(s.nextId) && t.armed == {s.nextId}
      && !Run(s, [Fire(id), Frame(loud), StartTurn, Frame(quiet), Fire(s.nextId)]).recording
  {
    var es := [Fire(id), Frame(loud), StartTurn, Frame(quiet)];
    var t := Step(Step(Step(Step(s, es[0]), es[1]), es[2]), es[3]);
    assert t.recording && t.handle == Timer(s.nextId) && t.armed == {s.nextId};
    RunAppend(s, [Fire(id), Frame(loud)], [StartTurn, Frame(quiet)]);
    RunTwo(s, Fire(id), Frame(loud));
    RunTwo(Step(Step(s, Fire(id)), Frame(loud)), StartTurn, Frame(quiet));
    assert es == [Fire(id), Frame(loud)] + [StartTurn, Frame(quiet)];
    assert Run(s, es) == t;
    RunAppend(s, es, [Fire(s.nextId)]);
    assert es + [Fire(s.nextId)] == [Fire(id), Frame(loud), StartTurn, Frame(quiet), Fire(s.nextId)];
    assert [Fire(s.nextId)][1..] == [];
  }

  lemma {:induction false} RunAppend(s: Hold, a: seq<Event>, b: seq<Event>)
    ensures Run(s, a + b) == Run(Run(s, a), b)
    decreases |a|
  {
    if a == [] {
      assert a + b == b;
    } else {
      assert (a + b)[0] == a[0];
      assert (a + b)[1..] == a[1..] + b;
      RunAppend(Step(s, a[0]), a[1..], b);
    }
  }

  /**
    During a recording with the handle unset, one quiet frame followed by the
    hold timer ends the recording; a loud frame in between cancels the hold,
    and the same timer then no longer stops anything.
   */
  lemma HoldThenStop(s: Hold, quiet: seq<Byte>, loud: seq<Byte>)
    requires Valid(s) && s.recording && s.framePending && s.handle.Null?
    requires IsQuiet(quiet) && !IsQuiet(loud)
    ensures !Run(s, [Frame(quiet), Fire(s.nextId)]).recording
    ensures Run(s, [Frame(quiet), Frame(loud), Fire(s.nextId)]).recording
  {
    var s1 := Step(s, Frame(quiet));
    assert s1.armed == {s.nextId} && s1.framePending;
    var stopped := Step(s1, Fire(s.nextId));
    assert !stopped.recording;
    RunTwo(s, Frame(quiet), Fire(s.nextId));
    var s2 := Step(s1, Frame(loud));
    assert s2.armed == {} && s2.recording;
    RunTwo(s1, Frame(loud), Fire(s.nextId));
    var three := [Frame(quiet), Frame(loud), Fire(s.nextId)];
    assert three[0] == Frame(quiet) && three[1..] == [Frame(loud), Fire(s.nextId)];
    assert Run(s, three) == Run(s1, [Frame(loud), Fire(s.nextId)]);
  }

  lemma RunTwo(s: Hold, e1: Event, e2: Event)
    ensures Run(s, [e1, e2]) == Step(Step(s, e1), e2)
  {
    assert [e1, e2][1..] == [e2];
    assert Run(s, [e1, e2]) == Run(Step(s, e1), [e2]);
    assert [e2][1..] == [];
    assert Run(Step(s, e1), [e2]) == Run(Step(Step(s, e1), e2), []);
  }

  /**
    The per-frame detector of one recording turn, over the global handle it
    shares with every other turn.
   */
  class Detector {
    var handle: Handle
    var armed: set<nat>
    var recording: bool
    var framePending: bool
    var nextId: nat

    function State(): Hold
      reads this
    {
      Hold(handle, armed, recording, framePending, nextId)
    }

    constructor ()
      ensures State() == Initial && Valid(State())
    {
      handle := Null;
      armed := {};
      recording := false;
      framePending := false;
      nextId := 1;
    }

    /** `startVoiceLoop`: `mediaRecorder.start()` and the first `requestAnimationFrame`. */
    method StartTurn()
      requires Valid(State())
      modifies this
      ensures Valid(State()) && State() == Step(old(State()), Event.StartTurn)
    {
      recording := true;
      framePending := true;
    }

    /** `detectSilence` on one sample buffer; says whether it scheduled the next frame. */
    method OnFrame(buf: seq<Byte>) returns (rescheduled: bool)
      requires Valid(State())
      modifies this
      ensures Valid(State()) && State() == Step(old(State()), Frame(buf))
      ensures rescheduled == (old(framePending) && old(recording))
    {
      if !framePending {
        return false;
      }
      if IsQuiet(buf) {
        if handle.Null? {
          handle := Timer(nextId);
          armed := armed + {nextId};
          nextId := nextId + 1;
        }
      } else {
        if handle.Timer? {
          armed := armed - {handle.id};
        }
        handle := Null;
      }
      framePending := recording;
      rescheduled := framePending;
    }

    /** The callback of timer `id`: `mediaRecorder.stop()`, if the timer is still scheduled. */
    method OnTimerFired(id: nat)
      requires Valid(State())
      modifies this
      ensures Valid(State()) && State() == Step(old(State()), Fire(id))
    {
      if id in armed {
        armed := armed - {id};
        recording := false;
      }
    }
  }

}
