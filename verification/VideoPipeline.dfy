/**
 The host's video path after authentication: the pump (keyframe requests), the
 video task (encode loop) and the writer share a flag, a latest-only slot and
 the number of the last slot the writer took. Each access to shared state is one
 step; a schedule is any interleaving of the three tasks with any encoder.
 */
module VideoPipeline {

  /** A slot value. `gen` counts the requests made when its encode began. */
  datatype Packet = Packet(number: nat, key: bool, gen: nat)

  datatype Slot = Vacant | Filled(packet: Packet)

  /** Program counter of the video task: the next access to shared state. `Await` sleeps
      until a new frame comes, or for 250 ms if the flag was up at `Select`. */
  datatype Video =
    | Select
    | Await(pending: bool)
    | WantNow
    | Announce
    | Swap
    | Encode(forced: bool, gen: nat)
    | Retry(forced: bool, key: bool, gen: nat)
    | LoadConsumed(key: bool, gen: nat)
    | LoadSlot(key: bool, gen: nat)
    | Rerequest(key: bool, gen: nat)
    | Send(key: bool, gen: nat)

  /** Program counter of the writer. */
  datatype Writer = Idle | Taken(packet: Packet)

  datatype Encoded = Failed | Skipped | Coded(key: bool)

  /** `requests`, `unanswered` and `sent` record history; no step reads them.
      `unanswered` is the newest request whose forced encode gave no payload. */
  datatype State = State(force: bool, slot: Slot, seen: nat, consumed: nat, outSeq: nat,
                         video: Video, writer: Writer,
                         requests: nat, unanswered: nat, sent: seq<Packet>)

  /** `frame` is what the capture channel offers; `resized` whether it needs a
      new encoder, and `recreated` whether creating one works. */
  datatype Choice =
    | Request
    | Write
    | Task(newFrame: bool, anyFrame: bool, resized: bool, recreated: bool, result: Encoded)

  /** A session starts with the flag set: request number one. */
  function Initial(): State {
    State(true, Vacant, 0, 0, 0, Select, Idle, 1, 0, [])
  }

  function WriterStep(s: State): State {
    match s.writer
    case Idle =>
      if s.slot.Filled? && s.outSeq != s.seen then
        s.(seen := s.outSeq, writer := Taken(s.slot.packet), sent := s.sent + [s.slot.packet])
      else s
    case Taken(p) => s.(consumed := p.number, writer := Idle)
  }

  function VideoStep(s: State, c: Choice): State
    requires c.Task?
  {
    match s.video
    case Select => s.(video := Await(s.force))
    case Await(pending) => if c.newFrame || pending then s.(video := WantNow) else s
    case WantNow =>
      if c.newFrame || (s.force && c.anyFrame) then
        if !c.resized then s.(video := Swap)
        else if c.recreated then s.(video := Announce)
        else s.(video := Select)
      else s.(video := Select)
    case Announce => s.(force := true, video := Swap)
    case Swap => s.(force := false, video := Encode(s.force, s.requests))
    case Encode(forced, gen) =>
      (match c.result
       case Coded(key) => s.(video := Retry(forced, key, gen))
       case _ => s.(video := Select, unanswered := if forced then gen else s.unanswered))
    case Retry(forced, key, gen) =>
      s.(force := s.force || (forced && !key), video := LoadConsumed(key, gen))
    case LoadConsumed(key, gen) =>
      if s.outSeq > 0 && s.consumed < s.outSeq then s.(video := LoadSlot(key, gen))
      else s.(video := Send(key, gen))
    case LoadSlot(key, gen) =>
      if s.slot.Filled? && s.slot.packet.key && !key then s.(video := Rerequest(key, gen))
      else s.(video := Send(key, gen))
    case Rerequest(key, gen) => s.(force := true, video := Send(key, gen))
    case Send(key, gen) =>
      s.(outSeq := s.outSeq + 1, slot := Filled(Packet(s.outSeq + 1, key, gen)), video := Select)
  }

  function Step(s: State, c: Choice): State {
    match c
    case Request => s.(force := true, requests := s.requests + 1)
    case Write => WriterStep(s)
    case Task(_, _, _, _, _) => VideoStep(s, c)
  }

  function Exec(schedule: seq<Choice>): State {
    if schedule == [] then Initial()
    else Step(Exec(schedule[..|schedule| - 1]), schedule[|schedule| - 1])
  }

  // ------------------------------------------------------------------ obligation

  /** The video task is on its way to answer request `q`. */
  predicate Holding(s: State, q: nat) {
    match s.video
    case Encode(forced, gen) => forced && q <= gen
    case Retry(forced, key, gen) => (forced || key) && q <= gen
    case LoadConsumed(key, gen) => key && q <= gen
    case LoadSlot(key, gen) => key && q <= gen
    case Rerequest(key, gen) => key && q <= gen
    case Send(key, gen) => key && q <= gen
    case _ => false
  }

  /** The slot holds a keyframe newer than request `q` the writer has not taken. */
  predicate Parked(s: State, q: nat) {
    s.slot.Filled? && s.slot.packet.key && q <= s.slot.packet.gen && s.seen < s.slot.packet.number
  }

  ghost predicate Answered(s: State, q: nat) {
    exists i :: 0 <= i < |s.sent| && s.sent[i].key && q <= s.sent[i].gen
  }

  ghost predicate Owed(s: State, q: nat) {
    s.force || Holding(s, q) || Parked(s, q) || Answered(s, q)
  }

  function Gen(v: Video): nat {
    match v
    case Encode(_, gen) => gen
    case Retry(_, _, gen) => gen
    case LoadConsumed(_, gen) => gen
    case LoadSlot(_, gen) => gen
    case Rerequest(_, gen) => gen
    case Send(_, gen) => gen
    case _ => 0
  }

  predicate AfterSwap(v: Video) {
    !v.Select? && !v.Await? && !v.WantNow? && !v.Announce? && !v.Swap?
  }

  ghost predicate SlotInv(s: State) {
    && s.consumed <= s.seen <= s.outSeq
    && (s.outSeq == 0 ==> s.slot.Vacant?)
    && (s.outSeq > 0 ==> s.slot.Filled? && s.slot.packet.number == s.outSeq)
    && (s.writer.Taken? ==> s.writer.packet.number == s.seen)
    && (s.video.LoadSlot? || s.video.Rerequest? ==> s.slot.Filled?)
  }

  /** Numbers the writer takes strictly increase, up to the last one seen. */
  ghost predicate SentInv(s: State) {
    && (forall i :: 0 <= i < |s.sent| ==> 0 < s.sent[i].number <= s.seen)
    && (forall i, j :: 0 <= i < j < |s.sent| ==> s.sent[i].number < s.sent[j].number)
  }

  ghost predicate ObligationInv(s: State) {
    && (AfterSwap(s.video) && !s.force ==> Gen(s.video) == s.requests)
    && (s.video.Send? && !s.video.key && s.slot.Filled? && s.slot.packet.key && s.seen < s.outSeq ==> s.force)
    && (s.unanswered == s.requests || Owed(s, s.requests))
  }

  ghost predicate Inv(s: State) {
    SlotInv(s) && SentInv(s) && ObligationInv(s)
  }

  lemma RequestKeepsInv(s: State)
    requires Inv(s)
    ensures Inv(Step(s, Request))
  {
  }

  lemma WriteKeepsInv(s: State)
    requires Inv(s)
    ensures Inv(WriterStep(s))
  {
    var t := WriterStep(s);
    if s.writer.Idle? && t != s {
      assert t.sent[|s.sent|] == s.slot.packet;
      assert forall i :: 0 <= i < |s.sent| ==> t.sent[i] == s.sent[i];
    }
  }

  lemma EncodeKeepsInv(s: State, c: Choice)
    requires Inv(s) && c.Task? && (s.video.Encode? || s.video.Retry?)
    ensures Inv(VideoStep(s, c))
  {
    assert VideoStep(s, c).sent == s.sent;
  }

  lemma SelectKeepsInv(s: State, c: Choice)
    requires Inv(s) && c.Task? && !AfterSwap(s.video)
    ensures Inv(VideoStep(s, c))
  {
    assert VideoStep(s, c).sent == s.sent;
  }

  lemma PublishKeepsInv(s: State, c: Choice)
    requires Inv(s) && c.Task?
    requires s.video.LoadConsumed? || s.video.LoadSlot? || s.video.Rerequest? || s.video.Send?
    ensures Inv(VideoStep(s, c))
  {
    assert VideoStep(s, c).sent == s.sent;
  }

  lemma {:induction false} EveryReachableStateIsSound(schedule: seq<Choice>)
    ensures Inv(Exec(schedule))
  {
    if schedule != [] {
      var s, c := Exec(schedule[..|schedule| - 1]), schedule[|schedule| - 1];
      EveryReachableStateIsSound(schedule[..|schedule| - 1]);
      match c
      case Request => RequestKeepsInv(s);
      case Write => WriteKeepsInv(s);
      case Task(_, _, _, _, _) =>
        if !AfterSwap(s.video) {
          SelectKeepsInv(s, c);
        } else if s.video.Encode? || s.video.Retry? {
          EncodeKeepsInv(s, c);
        } else {
          PublishKeepsInv(s, c);
        }
    }
  }

  // ---------------------------------------------------------------- main results

  /** In this run the encoder met its contract: no forced encode failed or came
      back empty. */
  predicate EncoderAnswers(schedule: seq<Choice>) {
    schedule == [] ||
    var before, c := schedule[..|schedule| - 1], schedule[|schedule| - 1];
    && EncoderAnswers(before)
    && (c.Task? && Exec(before).video.Encode? && Exec(before).video.forced ==> c.result.Coded?)
  }

  lemma AnswerKeepsUnanswered(s: State, c: Choice)
    requires c.Task? && s.video.Encode? && s.video.forced ==> c.result.Coded?
    ensures Step(s, c).unanswered == s.unanswered && Step(s, c).requests >= s.requests
  {
  }

  lemma {:induction false} AnsweringLeavesNoneUnanswered(schedule: seq<Choice>)
    requires EncoderAnswers(schedule)
    ensures Exec(schedule).unanswered == 0 < Exec(schedule).requests
  {
    hide Step;
    if schedule != [] {
      var before := schedule[..|schedule| - 1];
      AnsweringLeavesNoneUnanswered(before);
      AnswerKeepsUnanswered(Exec(before), schedule[|schedule| - 1]);
    }
  }

  /** Once the newest request outruns the encoder's last empty answer, every
      request ever made is still owed or was answered by a later keyframe. */
  lemma RequestsStayOwed(schedule: seq<Choice>, q: nat)
    requires q <= Exec(schedule).requests && Exec(schedule).unanswered != Exec(schedule).requests
    ensures Owed(Exec(schedule), q)
  {
    EveryReachableStateIsSound(schedule);
    var s := Exec(schedule);
    assert Owed(s, s.requests);
    if Answered(s, s.requests) {
      var i :| 0 <= i < |s.sent| && s.sent[i].key && s.requests <= s.sent[i].gen;
      assert s.sent[i].key && q <= s.sent[i].gen;
    }
  }

  /** No interleaving loses a keyframe request. */
  lemma KeyframeObligation(schedule: seq<Choice>, q: nat)
    requires EncoderAnswers(schedule) && q <= Exec(schedule).requests
    ensures Owed(Exec(schedule), q)
  {
    AnsweringLeavesNoneUnanswered(schedule);
    RequestsStayOwed(schedule, q);
  }

  /** When nothing is in flight, every request has its keyframe on the wire. */
  lemma QuietMeansAnswered(schedule: seq<Choice>, q: nat)
    requires EncoderAnswers(schedule) && q <= Exec(schedule).requests
    requires var s := Exec(schedule); !s.force && !AfterSwap(s.video) && s.seen == s.outSeq
    ensures Answered(Exec(schedule), q)
  {
    KeyframeObligation(schedule, q);
    EveryReachableStateIsSound(schedule);
  }

  /** The writer takes slots in order, each at most once. */
  lemma SentNumbersIncrease(schedule: seq<Choice>, i: nat, j: nat)
    requires i < j < |Exec(schedule).sent|
    ensures Exec(schedule).sent[i].number < Exec(schedule).sent[j].number
  {
    EveryReachableStateIsSound(schedule);
  }

  /** The contract is needed: an empty answer to the session's first forced
      encode leaves that request owed by nobody. */
  lemma EmptyAnswerLosesTheRequest(run: Choice)
    requires run == Task(true, true, false, false, Skipped)
    ensures !EncoderAnswers([run, run, run, run, run])
    ensures !Owed(Exec([run, run, run, run, run]), 1)
  {
    assert [run, run][..1] == [run] && [run, run, run][..2] == [run, run];
    assert [run, run, run, run][..3] == [run, run, run] && [run, run, run, run, run][..4] == [run, run, run, run];
    assert Exec([run]) == Initial().(video := Await(true));
    assert Exec([run, run]) == Initial().(video := WantNow);
    assert Exec([run, run, run]) == Initial().(video := Swap);
    assert Exec([run, run, run, run]) == Initial().(video := Encode(true, 1), force := false);
    assert Exec([run, run, run, run, run]) == Initial().(video := Select, force := false, unanswered := 1);
  }

  // ------------------------------------------------------------- requests that are lost

  /** A forced encode for the newest request comes back empty, and no keyframe for that
      request lies in the slot or was taken. */
  ghost predicate ComesToNothing(s: State, c: Choice) {
    && c.Task? && s.video.Encode? && s.video.forced && s.video.gen == s.requests && !c.result.Coded?
    && !s.force && !Parked(s, s.requests) && !Answered(s, s.requests)
  }

  /** A step after which the newest request is somebody's again: another request, a
      resize, a keyframe coded unasked, or a delta about to overwrite a keyframe. */
  predicate Revives(s: State, c: Choice) {
    || c.Request?
    || (c.Task? && (s.video.Announce? || s.video.Rerequest? || (s.video.Encode? && c.result == Coded(true))))
  }

  ghost predicate LostAt(schedule: seq<Choice>, k: nat) {
    && k < |schedule| && ComesToNothing(Exec(schedule[..k]), schedule[k])
    && forall m :: k < m < |schedule| ==> !Revives(Exec(schedule[..m]), schedule[m])
  }

  lemma TakenStaysOwed(s: State)
    requires Inv(s) && Owed(s, s.requests)
    ensures Owed(WriterStep(s), s.requests)
  {
    hide ObligationInv;
    var q, t := s.requests, WriterStep(s);
    if Parked(s, q) && s.writer.Idle? {
      assert t.sent[|s.sent|] == s.slot.packet;
    }
    if Answered(s, q) {
      var i :| 0 <= i < |s.sent| && s.sent[i].key && q <= s.sent[i].gen;
      assert t.sent[i] == s.sent[i];
    }
  }

  lemma WorkStaysOwed(s: State, c: Choice)
    requires Inv(s) && Owed(s, s.requests) && c.Task? && !ComesToNothing(s, c)
    ensures Owed(VideoStep(s, c), s.requests)
  {
    hide SentInv, Answered;
    StillAnswered(s, VideoStep(s, c), s.requests);
  }

  lemma StillAnswered(s: State, t: State, q: nat)
    ensures t.sent == s.sent ==> (Answered(t, q) <==> Answered(s, q))
  {
  }

  lemma KeptUnlessNothing(s: State, c: Choice)
    requires Inv(s) && Owed(s, s.requests) && !ComesToNothing(s, c)
    ensures Owed(Step(s, c), Step(s, c).requests)
  {
    hide Inv, ComesToNothing, Answered, Parked, Holding;
    match c
    case Request =>
    case Write =>
      TakenStaysOwed(s);
      assert WriterStep(s).requests == s.requests;
    case Task(_, _, _, _, _) =>
      WorkStaysOwed(s, c);
      assert VideoStep(s, c).requests == s.requests;
  }

  lemma LostUntilRevived(s: State, c: Choice)
    requires Inv(s) && !Owed(s, s.requests)
    ensures Owed(Step(s, c), Step(s, c).requests) <==> Revives(s, c)
  {
    hide SentInv;
    var q, t := s.requests, Step(s, c);
    if !c.Request? {
      assert forall i :: 0 <= i < |s.sent| ==> t.sent[i] == s.sent[i];
    }
  }

  lemma NothingIsLost(s: State, c: Choice)
    requires Inv(s) && ComesToNothing(s, c)
    ensures !Owed(Step(s, c), Step(s, c).requests)
  {
    assert Step(s, c).sent == s.sent;
  }

  lemma OneMoreLoss(before: seq<Choice>, c: Choice)
    ensures (exists k: nat :: LostAt(before + [c], k))
            <==> ComesToNothing(Exec(before), c) || ((exists k: nat :: LostAt(before, k)) && !Revives(Exec(before), c))
  {
    hide Exec, ComesToNothing, Revives;
    var all := before + [c];
    assert all[..|before|] == before;
    forall m | 0 <= m < |before|
      ensures all[..m] == before[..m] && all[m] == before[m]
    {
    }
    if ComesToNothing(Exec(before), c) {
      assert LostAt(all, |before|);
    }
    if k: nat :| LostAt(before, k) && !Revives(Exec(before), c) {
      assert LostAt(all, k);
    }
    if k: nat :| LostAt(all, k) && k < |before| {
      assert LostAt(before, k);
      assert !Revives(Exec(all[..|before|]), all[|before|]);
    }
  }

  /** Over any run some request is owed by nobody if and only if a forced encode for the
      newest request came to nothing and no step since has revived it. */
  lemma {:induction false} LostIff(schedule: seq<Choice>)
    ensures (exists q: nat :: q <= Exec(schedule).requests && !Owed(Exec(schedule), q))
            <==> exists k: nat :: LostAt(schedule, k)
    ensures !Owed(Exec(schedule), Exec(schedule).requests) <==> exists k: nat :: LostAt(schedule, k)
  {
    hide Step, Owed, LostAt, ComesToNothing, Revives, Inv;
    NewestIsEnough(schedule);
    if schedule == [] {
      FlagAtFirst();
    } else {
      var before, c := schedule[..|schedule| - 1], schedule[|schedule| - 1];
      assert schedule == before + [c];
      LostIff(before);
      OneMoreLoss(before, c);
      EveryReachableStateIsSound(before);
      var s := Exec(before);
      if Owed(s, s.requests) {
        if ComesToNothing(s, c) {
          NothingIsLost(s, c);
        } else {
          KeptUnlessNothing(s, c);
        }
      } else {
        LostUntilRevived(s, c);
        NotNothing(s, c);
      }
    }
  }

  lemma NotNothing(s: State, c: Choice)
    requires !Owed(s, s.requests)
    ensures !ComesToNothing(s, c)
  {
  }

  lemma FlagAtFirst()
    ensures Owed(Exec([]), Exec([]).requests) && !exists k: nat :: LostAt([], k)
  {
  }

  /** Older requests are owed wherever the newest is. */
  lemma NewestIsEnough(schedule: seq<Choice>)
    ensures (exists q: nat :: q <= Exec(schedule).requests && !Owed(Exec(schedule), q))
            <==> !Owed(Exec(schedule), Exec(schedule).requests)
  {
    hide Exec;
    var s := Exec(schedule);
    forall q: nat | q <= s.requests && Owed(s, s.requests)
      ensures Owed(s, q)
    {
      if Answered(s, s.requests) {
        var i :| 0 <= i < |s.sent| && s.sent[i].key && s.requests <= s.sent[i].gen;
        assert s.sent[i].key && q <= s.sent[i].gen;
      }
    }
  }
}
