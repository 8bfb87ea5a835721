/** Progress of the video path: when a requested keyframe is encoded and taken, that none
    is encoded without a cause, and that what is taken is what was encoded. */
module VideoProgress {
  import opened VideoPipeline

  /** Further steps, from any state. */
  function Run(s: State, more: seq<Choice>): State
    decreases |more|
  {
    if more == [] then s else Run(Step(s, more[0]), more[1..])
  }

  lemma {:induction false} ExecThenRun(schedule: seq<Choice>, more: seq<Choice>)
    ensures Exec(schedule + more) == Run(Exec(schedule), more)
    decreases |more|
  {
    hide Step;
    if more == [] {
      assert schedule + more == schedule;
    } else {
      var one := schedule + [more[0]];
      assert one[..|schedule|] == schedule;
      ExecThenRun(one, more[1..]);
      assert one + more[1..] == schedule + more;
    }
  }

  lemma OneMore(schedule: seq<Choice>, c: Choice)
    ensures Exec(schedule + [c]) == Step(Exec(schedule), c)
  {
    assert (schedule + [c])[..|schedule|] == schedule;
  }

  lemma FirstStep(s: State, more: seq<Choice>, j: nat)
    requires 0 < j <= |more|
    ensures Run(s, more[..j]) == Run(Step(s, more[0]), more[1..][..j - 1])
  {
    hide Step;
    assert more[..j][0] == more[0] && more[..j][1..] == more[1..][..j - 1];
  }

  // --------------------------------------------------------- requests are acted on

  /** The task is offered some frame, new or old, and any encoder it needs is made. */
  predicate Offered(c: Choice) {
    c.Task? ==> c.anyFrame && (c.resized ==> c.recreated)
  }

  function Tasks(more: seq<Choice>): nat {
    if more == [] then 0 else (if more[0].Task? then 1 else 0) + Tasks(more[1..])
  }

  /** Task steps to the next encode while the flag is up. */
  function Distance(v: Video): nat {
    match v
    case Encode(_, _) => 11
    case Retry(_, _, _) => 10
    case LoadConsumed(_, _) => 9
    case LoadSlot(_, _) => 8
    case Rerequest(_, _) => 7
    case Send(_, _) => 6
    case Select => 5
    case Await(_) => 4
    case WantNow => 3
    case Announce => 2
    case Swap => 1
  }

  /** The next thing the task does is a forced encode for the newest request. */
  predicate Forcing(s: State) {
    s.video == Encode(true, s.requests)
  }

  /** The task sleeps until the next new frame: it saw the flag down. */
  predicate Asleep(s: State) {
    s.video == Await(false)
  }

  lemma Nearer(s: State, c: Choice)
    requires s.force && Offered(c) && (Asleep(s) ==> c.Task? && c.newFrame)
    ensures !Asleep(Step(s, c))
    ensures c.Task? ==> Forcing(Step(s, c)) || (Step(s, c).force && Distance(Step(s, c).video) < Distance(s.video))
    ensures !c.Task? ==> Step(s, c).force && Step(s, c).video == s.video
  {
  }

  lemma {:induction false} ForcingComes(s: State, more: seq<Choice>)
    requires s.force && (forall i :: 0 <= i < |more| ==> Offered(more[i])) && Tasks(more) >= Distance(s.video)
    requires Asleep(s) ==> more[0].Task? && more[0].newFrame
    ensures exists j :: 0 <= j <= |more| && Forcing(Run(s, more[..j]))
    decreases |more|
  {
    hide Step;
    var t := Step(s, more[0]);
    Nearer(s, more[0]);
    if Forcing(t) {
      FirstStep(s, more, 1);
      assert Forcing(Run(s, more[..1]));
    } else {
      ForcingComes(t, more[1..]);
      var j :| 0 <= j <= |more[1..]| && Forcing(Run(t, more[1..][..j]));
      FirstStep(s, more, j + 1);
      assert Forcing(Run(s, more[..j + 1]));
    }
  }

  /** From every reachable state with the flag up in which the task is not asleep, on
      however static a screen, eleven of its steps bring it to a forced encode for the
      newest request, whatever the pump, the writer and the encoder do meanwhile; a task
      that is asleep must be woken by a new frame first. */
  lemma RequestIsEncoded(schedule: seq<Choice>, more: seq<Choice>)
    requires Exec(schedule).force && (forall i :: 0 <= i < |more| ==> Offered(more[i])) && Tasks(more) >= 11
    requires Asleep(Exec(schedule)) ==> more[0].Task? && more[0].newFrame
    ensures exists j :: 0 <= j <= |more| && Forcing(Exec(schedule + more[..j]))
                        && Exec(schedule + more[..j]).requests >= Exec(schedule).requests
  {
    hide Exec, Step;
    ForcingComes(Exec(schedule), more);
    var j :| 0 <= j <= |more| && Forcing(Run(Exec(schedule), more[..j]));
    ExecThenRun(schedule, more[..j]);
    RequestsGrow(Exec(schedule), more[..j]);
    assert Forcing(Exec(schedule + more[..j]));
  }

  /** Nothing new on the screen. */
  predicate Still(c: Choice) { c.Task? ==> !c.newFrame }

  lemma {:induction false} SleepsOn(s: State, more: seq<Choice>)
    requires Asleep(s) && forall i :: 0 <= i < |more| ==> Still(more[i])
    ensures Asleep(Run(s, more))
    decreases |more|
  {
    if more != [] {
      SleepsOn(Step(s, more[0]), more[1..]);
    }
  }

  /** That is when a request is acted on while the screen is static: exactly when the task
      is not asleep as it comes. */
  lemma RequestIsEncodedIff(schedule: seq<Choice>, more: seq<Choice>)
    requires Exec(schedule).force && Tasks(more) >= 11
    requires forall i :: 0 <= i < |more| ==> Offered(more[i]) && Still(more[i])
    ensures (exists j :: 0 <= j <= |more| && Forcing(Exec(schedule + more[..j]))) <==> !Asleep(Exec(schedule))
  {
    hide Exec, Step;
    if Asleep(Exec(schedule)) {
      forall j | 0 <= j <= |more|
        ensures !Forcing(Exec(schedule + more[..j]))
      {
        ExecThenRun(schedule, more[..j]);
        SleepsOn(Exec(schedule), more[..j]);
      }
    } else {
      RequestIsEncoded(schedule, more);
    }
  }

  /** The session's first keyframe, and the task back at its sleep. */
  function FirstKeyframe(): seq<Choice> {
    var c := Task(false, true, false, false, Coded(true));
    [c, c, c, c, c, c, c, c, c]
  }

  /** So a request can come to nobody: one that arrives in the sleep after the session's
      first keyframe stays flagged, and on a static screen is never encoded. */
  lemma SleepMissesRequest(more: seq<Choice>)
    requires forall i :: 0 <= i < |more| ==> Still(more[i])
    ensures Exec(FirstKeyframe() + [Request] + more).force && Asleep(Exec(FirstKeyframe() + [Request] + more))
    ensures Exec(FirstKeyframe() + [Request]).requests == 2 && Exec(FirstKeyframe()).slot == Filled(Packet(1, true, 1))
    ensures Exec(FirstKeyframe() + [Request] + more).outSeq == 1
  {
    hide Step;
    FirstComes();
    OneMore(FirstKeyframe(), Request);
    ExecThenRun(FirstKeyframe() + [Request], more);
    RequestSleeps(Exec(FirstKeyframe()));
    SleepKeeps(Exec(FirstKeyframe() + [Request]), more);
  }

  lemma RequestSleeps(s: State)
    ensures Step(s, Request) == s.(force := true, requests := s.requests + 1)
  {
  }

  lemma FirstComes()
    ensures Exec(FirstKeyframe()) == Initial().(force := false, slot := Filled(Packet(1, true, 1)), outSeq := 1, video := Await(false))
  {
    hide Step;
    var c, i := Task(false, true, false, false, Coded(true)), Initial();
    ExecThenRun([], FirstKeyframe());
    assert [] + FirstKeyframe() == FirstKeyframe() == [c, c, c, c] + ([c, c, c, c] + ([c] + []));
    FourSteps(i, c, [c, c, c, c] + ([c] + []));
    FourSteps(Four(i, c), c, [c] + []);
    OneStep(Four(Four(i, c), c), c, []);
    ToFirstEncode(c);
    FromFirstEncode(c);
  }

  function Four(s: State, c: Choice): State {
    Step(Step(Step(Step(s, c), c), c), c)
  }

  function Encoding(): State {
    Initial().(force := false, video := Encode(true, 1))
  }

  lemma ToFirstEncode(c: Choice)
    requires c == Task(false, true, false, false, Coded(true))
    ensures Four(Initial(), c) == Encoding()
  {
  }

  lemma FromFirstEncode(c: Choice)
    requires c == Task(false, true, false, false, Coded(true))
    ensures Step(Four(Encoding(), c), c) == Encoding().(slot := Filled(Packet(1, true, 1)), outSeq := 1, video := Await(false))
  {
    var sent := Encoding().(slot := Filled(Packet(1, true, 1)), outSeq := 1, video := Select);
    assert Four(Encoding(), c) == sent;
  }

  lemma OneStep(s: State, c: Choice, more: seq<Choice>)
    ensures Run(s, [c] + more) == Run(Step(s, c), more)
  {
    hide Step;
    assert ([c] + more)[1..] == more;
  }

  lemma FourSteps(s: State, c: Choice, more: seq<Choice>)
    ensures Run(s, [c, c, c, c] + more) == Run(Four(s, c), more)
  {
    hide Step, Run;
    assert [c, c, c, c] + more == [c] + ([c] + ([c] + ([c] + more)));
    OneStep(s, c, [c] + ([c] + ([c] + more)));
    OneStep(Step(s, c), c, [c] + ([c] + more));
    OneStep(Step(Step(s, c), c), c, [c] + more);
    OneStep(Step(Step(Step(s, c), c), c), c, more);
  }

  lemma {:induction false} SleepKeeps(s: State, more: seq<Choice>)
    requires Asleep(s) && s.force && forall i :: 0 <= i < |more| ==> Still(more[i])
    ensures Asleep(Run(s, more)) && Run(s, more).force && Run(s, more).outSeq == s.outSeq
    decreases |more|
  {
    if more != [] {
      SleepKeeps(Step(s, more[0]), more[1..]);
    }
  }

  lemma {:induction false} RequestsGrow(s: State, more: seq<Choice>)
    ensures Run(s, more).requests >= s.requests
    decreases |more|
  {
    if more != [] {
      RequestsGrow(Step(s, more[0]), more[1..]);
    }
  }

  /** Task steps until a coded keyframe lies in the slot. */
  function ToSlot(v: Video): nat {
    match v
    case Retry(_, _, _) => 4
    case LoadConsumed(_, _) => 3
    case LoadSlot(_, _) => 2
    case Send(_, _) => 1
    case _ => 0
  }

  /** A coded keyframe is on its way to the slot. */
  predicate Underway(s: State, gen: nat) {
    match s.video
    case Retry(_, key, g) => key && g == gen
    case LoadConsumed(key, g) => key && g == gen
    case LoadSlot(key, g) => key && g == gen
    case Send(key, g) => key && g == gen
    case _ => false
  }

  /** A keyframe for `gen` lies in the slot, and the writer has not taken it. */
  predicate Lies(s: State, gen: nat) {
    s.slot.Filled? && s.slot.packet.key && s.slot.packet.gen == gen && s.seen < s.slot.packet.number
  }

  lemma NearerToSlot(s: State, c: Choice, gen: nat)
    requires Inv(s) && Underway(s, gen)
    ensures var t := Step(s, c);
            if c.Task? then (if s.video.Send? then Lies(t, gen) else Underway(t, gen) && ToSlot(t.video) < ToSlot(s.video))
            else Underway(t, gen) && t.video == s.video
  {
    hide SentInv, ObligationInv;
  }

  lemma StepKeepsInv(s: State, c: Choice)
    requires Inv(s)
    ensures Inv(Step(s, c))
  {
    hide Inv;
    match c
    case Request => RequestKeepsInv(s);
    case Write => WriteKeepsInv(s);
    case Task(_, _, _, _, _) =>
      if !AfterSwap(s.video) {
        SelectKeepsInv(s, c);
      } else if s.video.Encode? || s.video.Retry? {
        EncodeKeepsInv(s, c);
      } else {
        PublishKeepsInv(s, c);
      }
  }

  lemma {:induction false} KeyframeLies(s: State, more: seq<Choice>, gen: nat)
    requires Inv(s) && Underway(s, gen) && Tasks(more) >= ToSlot(s.video)
    ensures exists j :: 0 <= j <= |more| && Lies(Run(s, more[..j]), gen) && Inv(Run(s, more[..j]))
    decreases |more|
  {
    hide Step, Inv, Lies;
    var t := Step(s, more[0]);
    NearerToSlot(s, more[0], gen);
    StepKeepsInv(s, more[0]);
    FirstStep(s, more, 1);
    if more[0].Task? && s.video.Send? {
      assert more[1..][..0] == [];
      assert Lies(Run(s, more[..1]), gen) && Inv(Run(s, more[..1]));
    } else {
      KeyframeLies(t, more[1..], gen);
      var j :| 0 <= j <= |more[1..]| && Lies(Run(t, more[1..][..j]), gen) && Inv(Run(t, more[1..][..j]));
      FirstStep(s, more, j + 1);
      assert Lies(Run(s, more[..j + 1]), gen) && Inv(Run(s, more[..j + 1]));
    }
  }

  lemma CodedIsUnderway(s: State, c: Choice)
    requires s.video.Encode? && c.Task? && c.result == Coded(true)
    ensures Underway(Step(s, c), s.video.gen)
  {
  }

  /** When the encoder answers an encode with a keyframe, at most four more steps of the
      task put it in the slot, whatever the others do meanwhile. */
  lemma KeyframeReachesSlot(schedule: seq<Choice>, c: Choice, more: seq<Choice>)
    requires Exec(schedule).video.Encode? && c.Task? && c.result == Coded(true) && Tasks(more) >= 4
    ensures exists j :: 0 <= j <= |more| && Lies(Exec(schedule + [c] + more[..j]), Exec(schedule).video.gen)
  {
    hide Exec, Step, Inv, Lies, Tasks, Underway;
    var gen, coded := Exec(schedule).video.gen, schedule + [c];
    OneMore(schedule, c);
    CodedIsUnderway(Exec(schedule), c);
    EveryReachableStateIsSound(coded);
    KeyframeLies(Exec(coded), more, gen);
    var j :| 0 <= j <= |more| && Lies(Run(Exec(coded), more[..j]), gen);
    ExecThenRun(coded, more[..j]);
    assert Lies(Exec(schedule + [c] + more[..j]), gen);
  }

  /** The writer's half: an idle writer takes a slot it has not taken yet, whatever is in
      it; and one that is still writing does so with its step after that. */
  lemma WriterTakes(schedule: seq<Choice>)
    requires Exec(schedule).slot.Filled? && Exec(schedule).seen != Exec(schedule).slot.packet.number
    ensures var s, one, two := Exec(schedule), Exec(schedule + [Write]), Exec(schedule + [Write, Write]);
            && (s.writer.Idle? ==> one.sent == s.sent + [s.slot.packet])
            && (s.writer.Taken? ==> two.sent == s.sent + [s.slot.packet])
  {
    hide SentInv, ObligationInv;
    EveryReachableStateIsSound(schedule);
    assert (schedule + [Write])[..|schedule|] == schedule;
    assert (schedule + [Write, Write])[..|schedule| + 1] == schedule + [Write];
  }

  /** The task alone on a static screen, whose encoder makes a keyframe. */
  function Static(n: nat): seq<Choice> {
    seq(n, _ => Task(false, true, false, false, Coded(true)))
  }

  lemma {:induction false} StaticTasks(n: nat)
    ensures Tasks(Static(n)) == n
  {
    if n > 0 {
      StaticTasks(n - 1);
      assert Static(n)[1..] == Static(n - 1);
    }
  }

  lemma StaticJoins(j: nat, k: nat)
    requires j <= 11 && k <= 4
    ensures Static(11)[..j] + Static(1) + Static(4)[..k] == Static(j + 1 + k)
    ensures Static(11)[..j] == Static(j) && Static(4)[..k] == Static(k) && Static(1) == [Task(false, true, false, false, Coded(true))]
  {
  }

  /** Altogether: on a static screen, from every reachable state with the flag up and the
      task not asleep, at most sixteen of its steps and two of the writer put a keyframe on
      the wire that is newer than every request made so far. */
  lemma RequestIsAnswered(schedule: seq<Choice>)
    requires Exec(schedule).force && !Asleep(Exec(schedule))
    ensures exists n :: 0 <= n <= 16 && Answered(Exec(schedule + Static(n) + [Write, Write]), Exec(schedule).requests)
  {
    hide Exec, Run, Step, Lies, Answered, Tasks, Static;
    StaticTasks(11);
    StaticTasks(4);
    assert forall i :: 0 <= i < |Static(11)| ==> Offered(Static(11)[i]) by { AllOffered(11); }
    RequestIsEncoded(schedule, Static(11));
    AllOffered(11);
    AllOffered(4);
    var j :| 0 <= j <= |Static(11)| && Forcing(Exec(schedule + Static(11)[..j]))
             && Exec(schedule + Static(11)[..j]).requests >= Exec(schedule).requests;
    var forcing, c := schedule + Static(11)[..j], Task(false, true, false, false, Coded(true));
    KeyframeReachesSlot(forcing, c, Static(4));
    var k :| 0 <= k <= |Static(4)| && Lies(Exec(forcing + [c] + Static(4)[..k]), Exec(forcing).video.gen);
    StaticJoins(j, k);
    assert forcing + [c] + Static(4)[..k] == schedule + Static(j + 1 + k);
    LyingIsTaken(schedule + Static(j + 1 + k), Exec(forcing).video.gen);
    AnsweredBelow(Exec(schedule + Static(j + 1 + k) + [Write, Write]), Exec(forcing).video.gen, Exec(schedule).requests);
  }

  lemma AllOffered(n: nat)
    ensures |Static(n)| == n && forall i :: 0 <= i < n ==> Offered(Static(n)[i])
  {
  }

  lemma AnsweredBelow(s: State, q: nat, r: nat)
    requires Answered(s, q) && r <= q
    ensures Answered(s, r)
  {
    var i :| 0 <= i < |s.sent| && s.sent[i].key && q <= s.sent[i].gen;
    assert s.sent[i].key && r <= s.sent[i].gen;
  }

  lemma LyingIsTaken(schedule: seq<Choice>, gen: nat)
    requires Lies(Exec(schedule), gen)
    ensures Answered(Exec(schedule + [Write, Write]), gen)
  {
    hide Exec;
    var s, one, two := Exec(schedule), Exec(schedule + [Write]), Exec(schedule + [Write, Write]);
    WriterTakes(schedule);
    OneMore(schedule, Write);
    OneMore(schedule + [Write], Write);
    assert schedule + [Write] + [Write] == schedule + [Write, Write];
    var n := |s.sent|;
    assert two.sent[n] == s.slot.packet;
  }

  // ------------------------------------------------------------ new frames are coded

  /** The task is offered a new frame, and any encoder it needs is made. */
  predicate Fresh(c: Choice) {
    c.Task? ==> c.newFrame && (c.resized ==> c.recreated)
  }

  lemma NearerWithFrames(s: State, c: Choice)
    requires !s.video.Encode? && Fresh(c)
    ensures c.Task? ==> Step(s, c).video.Encode? || Distance(Step(s, c).video) < Distance(s.video)
    ensures !c.Task? ==> Step(s, c).video == s.video
  {
  }

  lemma {:induction false} FramesComeToEncode(s: State, more: seq<Choice>)
    requires (forall i :: 0 <= i < |more| ==> Fresh(more[i]))
    requires s.video.Encode? || Tasks(more) >= Distance(s.video)
    ensures exists j :: 0 <= j <= |more| && Run(s, more[..j]).video.Encode?
    decreases |more|
  {
    hide Step;
    if s.video.Encode? {
      assert Run(s, more[..0]).video.Encode?;
    } else {
      NearerWithFrames(s, more[0]);
      FramesComeToEncode(Step(s, more[0]), more[1..]);
      var j :| 0 <= j <= |more[1..]| && Run(Step(s, more[0]), more[1..][..j]).video.Encode?;
      FirstStep(s, more, j + 1);
      assert Run(s, more[..j + 1]).video.Encode?;
    }
  }

  /** Without any request: while new frames come, ten steps of the task bring it to an
      encode. */
  lemma NewFramesAreEncoded(schedule: seq<Choice>, more: seq<Choice>)
    requires (forall i :: 0 <= i < |more| ==> Fresh(more[i])) && Tasks(more) >= 10
    ensures exists j :: 0 <= j <= |more| && Exec(schedule + more[..j]).video.Encode?
  {
    hide Exec;
    FramesComeToEncode(Exec(schedule), more);
    var j :| 0 <= j <= |more| && Run(Exec(schedule), more[..j]).video.Encode?;
    ExecThenRun(schedule, more[..j]);
    assert Exec(schedule + more[..j]).video.Encode?;
  }

  /** Encodes begun, and how often a new frame was there when the task looked. */
  function Encodes(schedule: seq<Choice>): nat {
    if schedule == [] then 0
    else
      var before, c := schedule[..|schedule| - 1], schedule[|schedule| - 1];
      Encodes(before) + if c.Task? && Exec(before).video.Swap? then 1 else 0
  }

  function NewFrames(schedule: seq<Choice>): nat {
    if schedule == [] then 0
    else
      var before, c := schedule[..|schedule| - 1], schedule[|schedule| - 1];
      NewFrames(before) + if c.Task? && Exec(before).video.WantNow? && c.newFrame then 1 else 0
  }

  predicate Decided(v: Video) { v.Announce? || v.Swap? }

  predicate Founded(s: State, encodes: nat, frames: nat, forced: nat) {
    && encodes <= frames + forced
    && (Decided(s.video) ==> encodes + 1 <= frames + forced + if s.force then 1 else 0)
  }

  lemma StepStaysFounded(s: State, c: Choice, encodes: nat, frames: nat, forced: nat)
    requires Founded(s, encodes, frames, forced)
    ensures Founded(Step(s, c), encodes + (if c.Task? && s.video.Swap? then 1 else 0),
                    frames + (if c.Task? && s.video.WantNow? && c.newFrame then 1 else 0),
                    forced + (if c.Task? && s.video.Swap? && s.force then 1 else 0))
  {
  }

  /** On a static screen nothing is coded unasked: encodes are forced, or have a new
      frame each. */
  lemma {:induction false} EncodesHaveFrames(schedule: seq<Choice>)
    ensures Encodes(schedule) <= NewFrames(schedule) + Forced(schedule)
    ensures Founded(Exec(schedule), Encodes(schedule), NewFrames(schedule), Forced(schedule))
  {
    hide Step;
    if schedule != [] {
      var before := schedule[..|schedule| - 1];
      EncodesHaveFrames(before);
      StepStaysFounded(Exec(before), schedule[|schedule| - 1], Encodes(before), NewFrames(before), Forced(before));
    }
  }

  // ------------------------------------------------------- none without a cause

  /** Forced encodes begun. */
  function Forced(schedule: seq<Choice>): nat {
    if schedule == [] then 0
    else
      var before, c := schedule[..|schedule| - 1], schedule[|schedule| - 1];
      Forced(before) + if c.Task? && Exec(before).video.Swap? && Exec(before).force then 1 else 0
  }

  /** The last packet the writer has finished with: a write is two steps, the taking and
      the end. */
  function Finished(schedule: seq<Choice>): nat {
    if schedule == [] then 0
    else
      var before, c := schedule[..|schedule| - 1], schedule[|schedule| - 1];
      if c.Write? && Exec(before).writer.Taken? then Exec(before).writer.packet.number else Finished(before)
  }

  lemma {:induction false} FinishedIsConsumed(schedule: seq<Choice>)
    ensures Exec(schedule).consumed == Finished(schedule)
  {
    if schedule != [] {
      FinishedIsConsumed(schedule[..|schedule| - 1]);
    }
  }

  /** A reason for a keyframe: somebody asks for one, the encoder is recreated for a new
      size, it answers a forced encode with a delta, or a delta is coded while the writer
      has not finished with a keyframe in the slot; `done` is what it has finished with. */
  predicate Cause(s: State, c: Choice, done: nat) {
    || c.Request?
    || (c.Task? && s.video.WantNow? && c.resized && c.recreated && (c.newFrame || (s.force && c.anyFrame)))
    || (c.Task? && s.video.Encode? && s.video.forced && c.result == Coded(false))
    || (c.Task? && s.video.LoadConsumed? && !s.video.key && KeyInSlot(s) && done < s.slot.packet.number)
  }

  predicate KeyInSlot(s: State) {
    s.slot.Filled? && s.slot.packet.key
  }

  function Causes(schedule: seq<Choice>): nat {
    if schedule == [] then 0
    else
      var before, c := schedule[..|schedule| - 1], schedule[|schedule| - 1];
      Causes(before) + if Cause(Exec(before), c, Finished(before)) then 1 else 0
  }

  /** A cause has come whose flag is not up yet. */
  predicate Pending(s: State) {
    match s.video
    case Announce => true
    case Retry(forced, key, _) => forced && !key
    case LoadSlot(key, _) => !key && KeyInSlot(s)
    case Rerequest(_, _) => true
    case _ => false
  }

  function Due(s: State): nat {
    (if s.force then 1 else 0) + if Pending(s) then 1 else 0
  }

  lemma DueGrowsByCauses(s: State, c: Choice)
    requires Inv(s)
    ensures (if c.Task? && s.video.Swap? && s.force then 1 else 0) + Due(Step(s, c))
            <= Due(s) + if Cause(s, c, s.consumed) then 1 else 0
  {
    hide SentInv, ObligationInv;
  }

  lemma {:induction false} ForcedAndDue(schedule: seq<Choice>)
    ensures Forced(schedule) + Due(Exec(schedule)) <= 1 + Causes(schedule)
  {
    hide Step, Due, Cause, Inv;
    if schedule == [] {
      assert Due(Exec([])) == 1 by { DueAtFirst(); }
    } else {
      var before := schedule[..|schedule| - 1];
      ForcedAndDue(before);
      FinishedIsConsumed(before);
      EveryReachableStateIsSound(before);
      DueGrowsByCauses(Exec(before), schedule[|schedule| - 1]);
    }
  }

  lemma DueAtFirst()
    ensures Due(Exec([])) == 1
  {
  }

  /** The flag is no storm: over any run there is at most one forced encode for the
      session's start and one for each cause. */
  lemma ForcedHaveCauses(schedule: seq<Choice>)
    ensures Forced(schedule) <= 1 + Causes(schedule)
  {
    hide Forced, Causes, Exec;
    ForcedAndDue(schedule);
  }

  /** The frame the task decided on last needed a new encoder. */
  predicate Recreated(schedule: seq<Choice>) {
    schedule != [] &&
    var before, c := schedule[..|schedule| - 1], schedule[|schedule| - 1];
    if c.Task? && Exec(before).video.WantNow? then c.resized else Recreated(before)
  }

  predicate Forces(s: State) {
    match s.video
    case Swap => s.force
    case Encode(forced, _) => forced
    case _ => true
  }

  lemma RecreationForces(s: State, c: Choice, recreated: bool)
    requires recreated ==> Forces(s)
    ensures (if c.Task? && s.video.WantNow? then c.resized else recreated) ==> Forces(Step(s, c))
  {
  }

  /** A new encoder starts with a forced keyframe, whatever happens between. */
  lemma {:induction false} NewEncoderIsForced(schedule: seq<Choice>)
    ensures Recreated(schedule) ==> Forces(Exec(schedule))
    ensures Recreated(schedule) && Exec(schedule).video.Encode? ==> Exec(schedule).video.forced
  {
    hide Step;
    if schedule != [] {
      var before := schedule[..|schedule| - 1];
      NewEncoderIsForced(before);
      RecreationForces(Exec(before), schedule[|schedule| - 1], Recreated(before));
    }
  }

  // ----------------------------------------------------- what is sent was encoded

  /** Requests made by the time the task last took the flag, the session's own included. */
  function AskedAtSwap(schedule: seq<Choice>): nat {
    if schedule == [] then 0
    else
      var before, c := schedule[..|schedule| - 1], schedule[|schedule| - 1];
      if c.Task? && Exec(before).video.Swap? then 1 + Asked(before) else AskedAtSwap(before)
  }

  function Asked(schedule: seq<Choice>): nat {
    if schedule == [] then 0
    else Asked(schedule[..|schedule| - 1]) + if schedule[|schedule| - 1].Request? then 1 else 0
  }

  /** What the encoder coded, in order: frame number, whether a keyframe, and how many
      requests its flag was taken for. */
  function Codings(schedule: seq<Choice>): seq<Packet> {
    if schedule == [] then []
    else
      var before, c := schedule[..|schedule| - 1], schedule[|schedule| - 1];
      if c.Task? && Exec(before).video.Encode? && c.result.Coded?
      then Codings(before) + [Packet(|Codings(before)| + 1, c.result.key, AskedAtSwap(before))]
      else Codings(before)
  }

  /** A coded frame is not in the slot yet. */
  predicate Carries(v: Video) {
    v.Retry? || v.LoadConsumed? || v.LoadSlot? || v.Rerequest? || v.Send?
  }

  ghost predicate Faithful(s: State, coded: seq<Packet>, asked: nat) {
    && (AfterSwap(s.video) ==> Gen(s.video) == asked)
    && |coded| == s.outSeq + (if Carries(s.video) then 1 else 0)
    && (Carries(s.video) ==> coded[s.outSeq] == Packet(s.outSeq + 1, s.video.key, Gen(s.video)))
    && (s.slot.Filled? ==> s.outSeq > 0 && s.slot.packet == coded[s.outSeq - 1])
    && (forall i :: 0 <= i < |s.sent| ==> IsCoded(s.sent[i], coded))
  }

  predicate IsCoded(p: Packet, coded: seq<Packet>) {
    0 < p.number <= |coded| && coded[p.number - 1] == p
  }

  lemma StillCoded(p: Packet, coded: seq<Packet>, x: Packet)
    ensures IsCoded(p, coded) ==> IsCoded(p, coded + [x])
  {
  }

  lemma StepStaysFaithful(s: State, c: Choice, coded: seq<Packet>, asked: nat)
    requires Inv(s) && Faithful(s, coded, asked)
    ensures var swap := c.Task? && s.video.Swap?;
            var more := if c.Task? && s.video.Encode? && c.result.Coded?
                        then coded + [Packet(|coded| + 1, c.result.key, asked)] else coded;
            Faithful(Step(s, c), more, if swap then s.requests else asked)
  {
    hide ObligationInv, SentInv;
    if c.Task? {
      assert Step(s, c).sent == s.sent;
      if s.video.Encode? && c.result.Coded? {
        forall i | 0 <= i < |s.sent|
          ensures IsCoded(s.sent[i], coded + [Packet(|coded| + 1, c.result.key, asked)])
        {
          StillCoded(s.sent[i], coded, Packet(|coded| + 1, c.result.key, asked));
        }
      }
    }
  }

  lemma {:induction false} AskedIsRequests(schedule: seq<Choice>)
    ensures Exec(schedule).requests == 1 + Asked(schedule)
  {
    if schedule != [] {
      AskedIsRequests(schedule[..|schedule| - 1]);
    }
  }

  lemma {:induction false} RunsAreFaithful(schedule: seq<Choice>)
    ensures Faithful(Exec(schedule), Codings(schedule), AskedAtSwap(schedule))
  {
    hide Step, Inv, Asked, Faithful;
    if schedule == [] {
      FaithfulAtFirst();
    } else {
      var before := schedule[..|schedule| - 1];
      RunsAreFaithful(before);
      AskedIsRequests(before);
      EveryReachableStateIsSound(before);
      StepStaysFaithful(Exec(before), schedule[|schedule| - 1], Codings(before), AskedAtSwap(before));
    }
  }

  lemma FaithfulAtFirst()
    ensures Faithful(Exec([]), [], 0)
  {
  }

  /** What the writer takes as number n is the n-th coded frame: a keyframe exactly when
      the encoder made one, and newer than the requests its flag was taken for. */
  lemma SentIsCoded(schedule: seq<Choice>, i: nat)
    requires i < |Exec(schedule).sent|
    ensures var p := Exec(schedule).sent[i];
            0 < p.number <= |Codings(schedule)| && Codings(schedule)[p.number - 1] == p
  {
    hide Exec, Codings;
    RunsAreFaithful(schedule);
    assert IsCoded(Exec(schedule).sent[i], Codings(schedule));
  }
}
