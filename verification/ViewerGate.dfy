/**
 The web viewer's keyframe gate: what Renderer.pushVideo hands to the decoder
 once frames may be missing, the decoder may fail or its queue may overflow.
 */
module ViewerGate {

  const MAX_DECODE_QUEUE := 8
  const MAX_ERROR_STREAK := 5

  datatype Event =
    | Frame(key: bool, queueSize: nat)
    | DecoderError
    | Decoded

  datatype State = State(sawKeyframe: bool, skipUntilKeyframe: bool, errorStreak: nat,
                         framesDropped: nat, requests: nat, failures: nat)

  const FRESH := State(false, false, 0, 0, 0, 0)

  predicate Open(s: State) {
    s.sawKeyframe && !s.skipUntilKeyframe
  }

  /** Whether pushVideo passes the frame on to the decoder. */
  predicate Passes(s: State, e: Event) {
    e.Frame? && (e.key || (Open(s) && e.queueSize <= MAX_DECODE_QUEUE))
  }

  function Step(s: State, e: Event): State {
    match e
    case Frame(true, _) => s.(sawKeyframe := true, skipUntilKeyframe := false)
    case Frame(false, _) =>
      if Passes(s, e) then s
      else s.(skipUntilKeyframe := s.skipUntilKeyframe || Open(s),
              framesDropped := s.framesDropped + 1, requests := s.requests + 1)
    case DecoderError =>
      var streak := s.errorStreak + 1;
      if streak >= MAX_ERROR_STREAK then s.(sawKeyframe := false, errorStreak := streak, failures := s.failures + 1)
      else s.(sawKeyframe := false, errorStreak := streak, requests := s.requests + 1)
    case Decoded => s.(errorStreak := 0)
  }

  function Exec(events: seq<Event>): State {
    if events == [] then FRESH
    else Step(Exec(events[..|events| - 1]), events[|events| - 1])
  }

  /** The Renderer fields behind the gate, updated in place. */
  class Renderer {
    var sawKeyframe: bool
    var skipUntilKeyframe: bool
    var errorStreak: nat
    var framesDropped: nat
    var requests: nat
    var failures: nat

    constructor ()
      ensures Now() == FRESH
    {
      sawKeyframe, skipUntilKeyframe, errorStreak := false, false, 0;
      framesDropped, requests, failures := 0, 0, 0;
    }

    function Now(): State
      reads this
    {
      State(sawKeyframe, skipUntilKeyframe, errorStreak, framesDropped, requests, failures)
    }

    method PushVideo(key: bool, decodeQueueSize: nat) returns (decode: bool)
      modifies this
      ensures Now() == Step(old(Now()), Frame(key, decodeQueueSize))
      ensures decode == Passes(old(Now()), Frame(key, decodeQueueSize))
    {
      if skipUntilKeyframe && key {
        skipUntilKeyframe := false;
      }
      if !sawKeyframe || skipUntilKeyframe {
        if !key {
          framesDropped := framesDropped + 1;
          requests := requests + 1;
          return false;
        }
        sawKeyframe := true;
      }
      if decodeQueueSize > MAX_DECODE_QUEUE && !key {
        skipUntilKeyframe := true;
        framesDropped := framesDropped + 1;
        requests := requests + 1;
        return false;
      }
      return true;
    }

    method OnDecoderError()
      modifies this
      ensures Now() == Step(old(Now()), DecoderError)
    {
      sawKeyframe := false;
      errorStreak := errorStreak + 1;
      if errorStreak >= MAX_ERROR_STREAK {
        failures := failures + 1;
      } else {
        requests := requests + 1;
      }
    }

    method OnDecoded()
      modifies this
      ensures Now() == Step(old(Now()), Decoded)
    {
      errorStreak := 0;
    }
  }

  /** Events `k..n` start with a keyframe, contain no decoder error, and every
      frame among them reached the decoder. */
  ghost predicate Unbroken(events: seq<Event>, k: nat, n: nat)
    requires k < n <= |events|
  {
    && events[k].Frame? && events[k].key
    && forall i :: k <= i < n ==>
         !events[i].DecoderError? && (events[i].Frame? ==> Passes(Exec(events[..i]), events[i]))
  }

  lemma {:induction false} OpenMeansUnbroken(events: seq<Event>) returns (k: nat)
    requires Open(Exec(events))
    ensures k < |events| && Unbroken(events, k, |events|)
  {
    assert events != [];
    var n := |events| - 1;
    var before, e := events[..n], events[n];
    if e.Frame? && e.key {
      k := n;
      assert events[..n] == before;
    } else {
      k := OpenMeansUnbroken(before);
      forall i | k <= i < n + 1
        ensures !events[i].DecoderError? && (events[i].Frame? ==> Passes(Exec(events[..i]), events[i]))
      {
        if i < n {
          assert before[..i] == events[..i] && before[i] == events[i];
        }
      }
    }
  }

  /** A delta frame reaches the decoder only behind a keyframe from which no
      frame has been withheld and no error reported since. */
  lemma DeltasNeverFollowAGap(events: seq<Event>, n: nat)
    requires n < |events| && events[n].Frame? && !events[n].key
    requires Passes(Exec(events[..n]), events[n])
    ensures exists k :: 0 <= k < n && Unbroken(events, k, n)
  {
    var before := events[..n];
    var k := OpenMeansUnbroken(before);
    forall i | k <= i < n
      ensures !events[i].DecoderError? && (events[i].Frame? ==> Passes(Exec(events[..i]), events[i]))
    {
      assert before[..i] == events[..i] && before[i] == events[i];
    }
    assert Unbroken(events, k, n);
  }

  function Errors(events: seq<Event>): nat {
    if events == [] then 0
    else Errors(events[..|events| - 1]) + if events[|events| - 1].DecoderError? then 1 else 0
  }

  /** Nothing is dropped silently: every withheld frame and every decoder error
      asks the host for a keyframe or surfaces as a failure. */
  lemma {:induction false} EveryLossIsReported(events: seq<Event>)
    ensures Exec(events).requests + Exec(events).failures == Exec(events).framesDropped + Errors(events)
  {
    if events != [] {
      EveryLossIsReported(events[..|events| - 1]);
    }
  }

  /** Decoder errors since a frame was last presented. */
  function Streak(events: seq<Event>): nat {
    if events == [] then 0
    else
      var before := events[..|events| - 1];
      match events[|events| - 1]
      case DecoderError => Streak(before) + 1
      case Decoded => 0
      case Frame(_, _) => Streak(before)
  }

  lemma {:induction false} StreakIs(events: seq<Event>)
    ensures Exec(events).errorStreak == Streak(events)
  {
    if events != [] {
      StreakIs(events[..|events| - 1]);
    }
  }

  /** Each loss is answered where it happens: event `i` asks for one keyframe if and only
      if it is a withheld frame or one of the first four decoder errors in a row, reports
      one failure if and only if it is a later error in a row, and else does neither. */
  lemma EachLossIsAnswered(events: seq<Event>, i: nat)
    requires i < |events|
    ensures var s, t, e := Exec(events[..i]), Exec(events[..i + 1]), events[i];
            var hopeless := e.DecoderError? && Streak(events[..i + 1]) >= 5;
            && t.requests == s.requests + (if (e.Frame? && !Passes(s, e)) || (e.DecoderError? && !hopeless) then 1 else 0)
            && t.failures == s.failures + (if hopeless then 1 else 0)
            && t.framesDropped == s.framesDropped + (if e.Frame? && !Passes(s, e) then 1 else 0)
  {
    var all := events[..i + 1];
    assert all[..|all| - 1] == events[..i];
    StreakIs(events[..i]);
  }

  /** Frame `k` is a keyframe, and since then no decoder error came and no delta met a
      decode queue longer than eight. */
  ghost predicate Clear(events: seq<Event>, k: nat) {
    && k < |events| && events[k].Frame? && events[k].key
    && forall i :: k < i < |events| ==> Harmless(events[i])
  }

  predicate Harmless(e: Event) {
    !e.DecoderError? && (e.Frame? ==> e.key || e.queueSize <= 8)
  }

  ghost predicate SomeClear(events: seq<Event>) {
    exists k: nat :: Clear(events, k)
  }

  lemma ClearOneMore(before: seq<Event>, e: Event)
    ensures SomeClear(before + [e]) <==> (e.Frame? && e.key) || (SomeClear(before) && Harmless(e))
  {
    var n, all := |before|, before + [e];
    if e.Frame? && e.key {
      assert Clear(all, n);
    } else if SomeClear(before) && Harmless(e) {
      var k: nat :| Clear(before, k);
      assert Clear(all, k);
    }
    if SomeClear(all) {
      var k: nat :| Clear(all, k);
      if k < n {
        assert forall i :: 0 <= i < n ==> before[i] == all[i];
        assert Clear(before, k) && Harmless(all[n]);
      }
    }
  }

  lemma {:induction false} OpenIff(events: seq<Event>)
    ensures Open(Exec(events)) <==> SomeClear(events)
  {
    hide SomeClear;
    if events == [] {
      assert !SomeClear([]) by { NothingClear(); }
    } else {
      var before, e := events[..|events| - 1], events[|events| - 1];
      OpenIff(before);
      ClearOneMore(before, e);
      assert events == before + [e];
    }
  }

  lemma NothingClear()
    ensures !SomeClear([])
  {
  }

  /** Every keyframe reaches the decoder, and a delta does exactly when its queue is in
      bounds and it stands behind a keyframe with nothing lost since. */
  lemma PassesIff(events: seq<Event>, n: nat)
    requires n < |events| && events[n].Frame?
    ensures Passes(Exec(events[..n]), events[n])
            <==> events[n].key || (events[n].queueSize <= 8 && exists k: nat :: Clear(events[..n], k))
  {
    OpenIff(events[..n]);
  }
}
