/** Hysteresis of the quality controller, over whole runs on a monotone clock. */
module AdaptiveHistory {
  import opened Adaptive

  /** What a call visibly did. A cut notes whether it found the bitrate at the floor
      and whether the frame rate fell. */
  datatype Act =
    | Ignored(at: int)
    | Cut(at: int, floor: bool, drop: bool)
    | Raised(at: int)
    | Restored(at: int)
    | Probed(at: int)
    | Rebase(at: int)
    | Nothing

  function ActOf(c: Control, op: Op): Act {
    var d := After(c, op);
    if op.SetProfile? then Rebase(op.now)
    else if Attempts(c, op) then
      if CoolingDown(c, op.now) then Ignored(op.now)
      else Cut(op.now, c.bitrate <= c.env.minKbps, d.fps < c.fps)
    else if Effective(c, op) then
      if d.bitrate > c.bitrate then Raised(op.now) else if d.fps > c.fps then Restored(op.now) else Probed(op.now)
    else Nothing
  }

  function History(c: Control, ops: seq<Op>): seq<Act> {
    if ops == [] then []
    else
      var before, op := ops[..|ops| - 1], ops[|ops| - 1];
      var act := ActOf(Run(c, before), op);
      if act == Nothing then History(c, before) else History(c, before) + [act]
  }

  /** The clock does not run backwards. */
  predicate Timely(start: int, ops: seq<Op>) {
    ops == [] || (Timely(start, ops[..|ops| - 1]) && LastTime(start, ops[..|ops| - 1]) <= ops[|ops| - 1].now)
  }

  function LastTime(start: int, ops: seq<Op>): int {
    if ops == [] then start else ops[|ops| - 1].now
  }

  /** A decrease asked for, or a change of profile. */
  predicate Unclean(a: Act) { a.Ignored? || a.Cut? || a.Rebase? }

  predicate Ticking(a: Act) { a.Raised? || a.Restored? || a.Probed? }

  /** `b` keeps its distance to the earlier `a`. */
  predicate Spaced(a: Act, b: Act) {
    && a != Nothing && b != Nothing
    && (a.Cut? && b.Cut? ==> b.at - a.at >= DECREASE_COOLDOWN)
    && (Unclean(a) && Ticking(b) ==> b.at - a.at >= CLEAN_BEFORE_INCREASE)
    && (Unclean(a) && b.Restored? ==> b.at - a.at >= CLEAN_BEFORE_FPS_RESTORE)
    && (Ticking(a) && Ticking(b) ==> b.at - a.at >= INCREASE_INTERVAL)
  }

  ghost predicate AllSpaced(h: seq<Act>) {
    forall i, j :: 0 <= i < j < |h| ==> Spaced(h[i], h[j])
  }

  /** The last cut, with no change of profile since, found the bitrate at the floor
      and left the frame rate alone. */
  predicate PressedOnce(h: seq<Act>) {
    h != [] &&
    match h[|h| - 1]
    case Cut(_, floor, drop) => floor && !drop
    case Rebase(_) => false
    case _ => PressedOnce(h[..|h| - 1])
  }

  predicate RaisedSince(h: seq<Act>) {
    h != [] &&
    match h[|h| - 1]
    case Raised(_) => true
    case Cut(_, _, _) => false
    case Rebase(_) => false
    case _ => RaisedSince(h[..|h| - 1])
  }

  /** A fall of the frame rate answers the second cut in a row at the floor. */
  ghost predicate DropsJustified(h: seq<Act>) {
    forall i :: 0 <= i < |h| && h[i].Cut? && h[i].drop ==>
      h[i].floor && PressedOnce(h[..i]) && !RaisedSince(h[..i])
  }

  /** The clock fields bound the history. */
  ghost predicate Clocked(c: Control, h: seq<Act>) {
    forall i :: 0 <= i < |h| ==>
      && h[i] != Nothing
      && (Unclean(h[i]) ==> h[i].at <= c.cleanSince)
      && (h[i].Cut? ==> h[i].at <= c.lastDecrease)
      && (Ticking(h[i]) ==> h[i].at <= c.lastIncrease)
  }

  ghost predicate Inv(c: Control, h: seq<Act>, now: int) {
    && InEnvelope(c) && c.cleanSince <= now && c.lastIncrease <= now && c.lastDecrease <= now
    && Clocked(c, h) && AllSpaced(h) && DropsJustified(h)
    && (c.pressure > 0 ==> PressedOnce(h))
    && (RaisedSince(h) ==> c.bitrate > c.env.minKbps)
  }

  /** The effect of a call on what the history depends on. */
  lemma ActEffect(c: Control, op: Op, now: int)
    requires WithinLimits(c) && c.cleanSince <= now <= op.now && c.lastIncrease <= now && c.lastDecrease <= now
    requires c.env.minKbps < c.env.maxKbps
    ensures var a, d := ActOf(c, op), After(c, op);
            && (a != Nothing ==> a.at == op.now)
            && d.cleanSince == (if a != Nothing && Unclean(a) then op.now else c.cleanSince)
            && d.lastIncrease == (if a != Nothing && Ticking(a) then op.now else c.lastIncrease)
            && d.lastDecrease == (if a.Cut? then op.now else c.lastDecrease)
            && (a.Cut? ==> op.now - c.lastDecrease >= DECREASE_COOLDOWN)
            && (a != Nothing && Ticking(a) ==>
                  op.now - c.cleanSince >= CLEAN_BEFORE_INCREASE && op.now - c.lastIncrease >= INCREASE_INTERVAL)
            && (a.Restored? ==> op.now - c.cleanSince >= CLEAN_BEFORE_FPS_RESTORE)
  {
    hide EnvelopeOf;
  }

  lemma PressureEffect(c: Control, op: Op)
    requires WithinLimits(c) && c.env.minKbps < c.env.maxKbps
    ensures var a, d := ActOf(c, op), After(c, op);
            && (a.Cut? && a.drop ==> a.floor && c.pressure > 0)
            && (a.Cut? && a.floor ==> c.bitrate == c.env.minKbps)
            && (d.pressure > 0 ==> (a.Cut? && a.floor && !a.drop) || (!a.Cut? && !a.Rebase? && c.pressure > 0))
            && (a.Raised? ==> d.bitrate > d.env.minKbps)
            && (!a.Cut? && !a.Rebase? ==> d.bitrate >= c.bitrate && d.env == c.env)
  {
    hide EnvelopeOf;
  }

  lemma ActKeepsInv(c: Control, h: seq<Act>, op: Op, now: int)
    requires Inv(c, h, now) && now <= op.now
    ensures var a := ActOf(c, op); Inv(After(c, op), if a == Nothing then h else h + [a], op.now)
  {
    hide After, ActOf, EnvelopeOf, WithinLimits, PressedOnce, RaisedSince, AllSpaced, DropsJustified, Clocked, InEnvelope;
    AfterStaysInEnvelope(c, op);
    InEnvelopeIs(c);
    ActEffect(c, op, now);
    PressureEffect(c, op);
    var a := ActOf(c, op);
    ClockedOn(c, After(c, op), h, a);
    if a != Nothing {
      Appended(c, h, a);
    }
  }

  lemma InEnvelopeIs(c: Control)
    requires InEnvelope(c)
    ensures WithinLimits(c) && c.env.minKbps < c.env.maxKbps
  {
    var p :| c.env == EnvelopeOf(p, c.jpeg);
    EnvelopesAreSane(p, c.jpeg);
  }

  lemma ClockedOn(c: Control, d: Control, h: seq<Act>, a: Act)
    requires Clocked(c, h)
    requires c.cleanSince <= d.cleanSince && c.lastDecrease <= d.lastDecrease && c.lastIncrease <= d.lastIncrease
    requires a != Nothing ==> (Unclean(a) ==> a.at <= d.cleanSince) && (a.Cut? ==> a.at <= d.lastDecrease)
                              && (Ticking(a) ==> a.at <= d.lastIncrease)
    ensures Clocked(d, if a == Nothing then h else h + [a])
  {
  }

  /** What appending an act does to the history's predicates. */
  lemma Appended(c: Control, h: seq<Act>, a: Act)
    requires a != Nothing && AllSpaced(h) && DropsJustified(h) && Clocked(c, h)
    requires a.Cut? ==> a.at - c.lastDecrease >= DECREASE_COOLDOWN
    requires Ticking(a) ==> a.at - c.cleanSince >= CLEAN_BEFORE_INCREASE && a.at - c.lastIncrease >= INCREASE_INTERVAL
    requires a.Restored? ==> a.at - c.cleanSince >= CLEAN_BEFORE_FPS_RESTORE
    requires a.Cut? && a.drop ==> a.floor && PressedOnce(h) && !RaisedSince(h)
    ensures AllSpaced(h + [a]) && DropsJustified(h + [a])
    ensures PressedOnce(h + [a]) == (if a.Cut? then a.floor && !a.drop else !a.Rebase? && PressedOnce(h))
    ensures RaisedSince(h + [a]) == (a.Raised? || (!a.Cut? && !a.Rebase? && RaisedSince(h)))
  {
    var t := h + [a];
    assert t[..|h|] == h;
    forall i, j | 0 <= i < j < |t|
      ensures Spaced(t[i], t[j])
    {
      if j < |h| {
        assert Spaced(h[i], h[j]);
      } else {
        assert h[i] != Nothing;
      }
    }
    forall i | 0 <= i < |t| && t[i].Cut? && t[i].drop
      ensures t[i].floor && PressedOnce(t[..i]) && !RaisedSince(t[..i])
    {
      assert t[..i] == h[..i] || i == |h|;
      if i < |h| {
        assert h[i].Cut? && h[i].drop;
      }
    }
  }

  lemma {:induction false} HistoryIsSound(p: Profile, jpeg: bool, start: int, ops: seq<Op>)
    requires Timely(start, ops)
    ensures Inv(Run(Initial(p, jpeg, start), ops), History(Initial(p, jpeg, start), ops), LastTime(start, ops))
  {
    hide Inv, After, ActOf;
    if ops == [] {
      InitialInv(p, jpeg, start);
    } else {
      var before := ops[..|ops| - 1];
      HistoryIsSound(p, jpeg, start, before);
      ActKeepsInv(Run(Initial(p, jpeg, start), before), History(Initial(p, jpeg, start), before),
                  ops[|ops| - 1], LastTime(start, before));
    }
  }

  lemma InitialInv(p: Profile, jpeg: bool, start: int)
    ensures Inv(Initial(p, jpeg, start), [], start)
  {
    EnvelopesAreSane(p, jpeg);
  }

  // ---------------------------------------------------------------- main results

  /** Cuts are 1.5 s apart; an effective tick comes 2 s after the latest decrease
      asked for or profile change and 1 s after the tick before; a restored frame
      rate needs 8 s. */
  lemma ActsAreSpaced(p: Profile, jpeg: bool, start: int, ops: seq<Op>, i: nat, j: nat)
    requires Timely(start, ops) && i < j < |History(Initial(p, jpeg, start), ops)|
    ensures var h := History(Initial(p, jpeg, start), ops); Spaced(h[i], h[j])
  {
    hide History, Run;
    HistoryIsSound(p, jpeg, start, ops);
  }

  /** The frame rate falls only at a cut that finds the bitrate at the floor, as did
      the cut before it, with neither raise nor profile change in between. */
  lemma FrameRateFallsLast(p: Profile, jpeg: bool, start: int, ops: seq<Op>, i: nat)
    requires Timely(start, ops) && i < |History(Initial(p, jpeg, start), ops)|
    requires var a := History(Initial(p, jpeg, start), ops)[i]; a.Cut? && a.drop
    ensures var h := History(Initial(p, jpeg, start), ops);
            h[i].floor && exists k :: 0 <= k < i && SecondInARow(h, k, i)
  {
    hide History, Run;
    HistoryIsSound(p, jpeg, start, ops);
    var h := History(Initial(p, jpeg, start), ops);
    var k := CutBefore(h[..i]);
    assert SecondInARow(h, k, i);
  }

  predicate SecondInARow(h: seq<Act>, k: nat, i: nat)
    requires k < i < |h|
  {
    && h[k].Cut? && h[k].floor && !h[k].drop
    && forall m :: k < m < i ==> !h[m].Cut? && !h[m].Raised? && !h[m].Rebase?
  }

  lemma {:induction false} CutBefore(h: seq<Act>) returns (k: nat)
    requires PressedOnce(h) && !RaisedSince(h)
    ensures k < |h| && h[k].Cut? && h[k].floor && !h[k].drop
    ensures forall m :: k < m < |h| ==> !h[m].Cut? && !h[m].Raised? && !h[m].Rebase?
  {
    var n := |h| - 1;
    if h[n].Cut? {
      k := n;
    } else {
      k := CutBefore(h[..n]);
    }
  }

  // ------------------------------------------------------------- repeated signals

  /** Bloated round-trip samples in a row, unusable ones left aside. */
  function BloatedInARow(ops: seq<Op>): nat {
    if ops == [] then 0
    else
      var before := ops[..|ops| - 1];
      match ops[|ops| - 1]
      case Sample(rtt, _, _) =>
        if rtt.Bloated? then BloatedInARow(before) + 1 else if rtt.Fine? then 0 else BloatedInARow(before)
      case _ => BloatedInARow(before)
  }

  /** Reports of a deep decode queue in a row. */
  function DeepInARow(ops: seq<Op>): nat {
    if ops == [] then 0
    else
      var before := ops[..|ops| - 1];
      match ops[|ops| - 1]
      case Stats(depth, _, _) => if depth > 3 then DeepInARow(before) + 1 else 0
      case _ => DeepInARow(before)
  }

  /** Late sends since the last effective tick. */
  function LateSends(c: Control, ops: seq<Op>): nat {
    if ops == [] then 0
    else
      var before, op := ops[..|ops| - 1], ops[|ops| - 1];
      if op.Backlog? then LateSends(c, before) + 1
      else if Effective(Run(c, before), op) then 0
      else LateSends(c, before)
  }

  lemma StreakStep(n: nat, bloated: nat)
    requires n == bloated % 4
    ensures (bloated + 1) % 4 == if n + 1 >= 4 then 0 else n + 1
  {
  }

  lemma QueueStep(n: nat, deep: nat)
    requires n == deep % 2
    ensures (deep + 1) % 2 == if n + 1 >= 2 then 0 else n + 1
  {
  }

  lemma BacklogStep(n: nat, late: nat)
    requires n == late % 3
    ensures (late + 1) % 3 == if n + 1 >= 3 then 0 else n + 1
  {
  }

  /** The three counters after a call. */
  lemma StreaksAfter(c: Control, op: Op)
    requires c.rttStreak < 4 && c.queueStreak < 2 && c.backlog < 3
    ensures After(c, op).rttStreak
            == if !op.Sample? || op.rtt.Unusable? then c.rttStreak
               else if op.rtt.Fine? || c.rttStreak + 1 >= 4 then 0 else c.rttStreak + 1
    ensures After(c, op).queueStreak
            == if !op.Stats? then c.queueStreak else if op.depth <= 3 || c.queueStreak + 1 >= 2 then 0 else c.queueStreak + 1
    ensures After(c, op).backlog
            == if op.Backlog? then (if c.backlog + 1 >= 3 then 0 else c.backlog + 1)
               else if Effective(c, op) then 0 else c.backlog
  {
    hide EnvelopeOf, Raise;
  }

  lemma CountersStep(c: Control, op: Op, bloated: nat, deep: nat, late: nat)
    requires c.rttStreak == bloated % 4 && c.queueStreak == deep % 2 && c.backlog == late % 3
    ensures After(c, op).rttStreak
            == (if !op.Sample? || op.rtt.Unusable? then bloated else if op.rtt.Fine? then 0 else bloated + 1) % 4
    ensures After(c, op).queueStreak == (if !op.Stats? then deep else if op.depth <= 3 then 0 else deep + 1) % 2
    ensures After(c, op).backlog == (if op.Backlog? then late + 1 else if Effective(c, op) then 0 else late) % 3
  {
    hide After, Effective;
    StreaksAfter(c, op);
    StreakStep(c.rttStreak, bloated);
    QueueStep(c.queueStreak, deep);
    BacklogStep(c.backlog, late);
  }

  lemma {:induction false} CountersFollow(p: Profile, jpeg: bool, start: int, ops: seq<Op>)
    ensures var c, i := Run(Initial(p, jpeg, start), ops), Initial(p, jpeg, start);
            && c.rttStreak == BloatedInARow(ops) % RTT_STREAK_FOR_DECREASE
            && c.queueStreak == DeepInARow(ops) % QUEUE_STREAK_FOR_DECREASE
            && c.backlog == LateSends(i, ops) % BACKLOG_FOR_DECREASE
  {
    hide After, EnvelopeOf;
    if ops != [] {
      var before := ops[..|ops| - 1];
      CountersFollow(p, jpeg, start, before);
      CountersStep(Run(Initial(p, jpeg, start), before), ops[|ops| - 1], BloatedInARow(before), DeepInARow(before),
                   LateSends(Initial(p, jpeg, start), before));
    }
  }

  lemma OneMoreSignal(c: Control, past: seq<Op>, op: Op)
    ensures op.Sample? && op.rtt.Bloated? ==> BloatedInARow(past + [op]) == BloatedInARow(past) + 1
    ensures op.Stats? && op.depth > 3 ==> DeepInARow(past + [op]) == DeepInARow(past) + 1
    ensures op.Backlog? ==> LateSends(c, past + [op]) == LateSends(c, past) + 1
  {
    hide Run, Effective;
    assert (past + [op])[..|past|] == past;
  }

  /** A decrease is asked for by every fourth bloated sample in a row, every second
      deep queue in a row and every third late send between effective ticks, and by
      nothing else. */
  lemma OnlySustainedSignalsCut(p: Profile, jpeg: bool, start: int, past: seq<Op>, op: Op)
    ensures var c, i, all := Run(Initial(p, jpeg, start), past), Initial(p, jpeg, start), past + [op];
            Attempts(c, op) <==>
              || (op.Sample? && op.rtt.Bloated? && BloatedInARow(all) % 4 == 0)
              || (op.Stats? && op.depth > 3 && DeepInARow(all) % 2 == 0)
              || (op.Backlog? && LateSends(i, all) % 3 == 0)
  {
    hide Run, Initial, EnvelopeOf, Attempts, BloatedInARow, DeepInARow, LateSends;
    var c, i := Run(Initial(p, jpeg, start), past), Initial(p, jpeg, start);
    CountersFollow(p, jpeg, start, past);
    OneMoreSignal(i, past, op);
    AttemptsIff(c, op, BloatedInARow(past), DeepInARow(past), LateSends(i, past));
  }

  lemma AttemptsIff(c: Control, op: Op, bloated: nat, deep: nat, late: nat)
    requires c.rttStreak == bloated % 4 && c.queueStreak == deep % 2 && c.backlog == late % 3
    ensures Attempts(c, op) <==>
              || (op.Sample? && op.rtt.Bloated? && (bloated + 1) % 4 == 0)
              || (op.Stats? && op.depth > 3 && (deep + 1) % 2 == 0)
              || (op.Backlog? && (late + 1) % 3 == 0)
  {
  }
}
