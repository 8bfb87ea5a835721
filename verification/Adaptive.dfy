/**
 The per-client quality controller: bitrate and frame rate under congestion signals,
 on a virtual clock in milliseconds. The 0.7 cut is some value below the old bitrate,
 and whether a round-trip sample is bloated is decided outside.
 */
module Adaptive {

  datatype Profile = Office | Video | Drawing | Gaming

  datatype Envelope = Envelope(minKbps: nat, maxKbps: nat, startKbps: nat, minFps: nat, maxFps: nat)

  function BaseEnvelope(p: Profile): Envelope {
    match p
    case Office => Envelope(500, 6_000, 2_500, 10, 30)
    case Video => Envelope(2_000, 20_000, 8_000, 24, 60)
    case Drawing => Envelope(1_000, 10_000, 4_000, 30, 60)
    case Gaming => Envelope(3_000, 30_000, 10_000, 30, 60)
  }

  function EnvelopeOf(p: Profile, jpeg: bool): Envelope {
    var env := BaseEnvelope(p);
    if jpeg then env.(minKbps := env.minKbps * 2, startKbps := env.startKbps * 4, maxKbps := env.maxKbps * 4) else env
  }

  const DECREASE_COOLDOWN := 1_500
  const INCREASE_INTERVAL := 1_000
  const CLEAN_BEFORE_INCREASE := 2_000
  const CLEAN_BEFORE_FPS_RESTORE := 8_000
  const RTT_STREAK_FOR_DECREASE := 4
  const QUEUE_STREAK_FOR_DECREASE := 2
  const BACKLOG_FOR_DECREASE := 3
  const FLOOR_PRESSURE_FOR_FPS_DROP := 2

  function Max(a: nat, b: nat): nat { if a < b then b else a }
  function Min(a: nat, b: nat): nat { if a < b then a else b }

  datatype Control = Control(jpeg: bool, env: Envelope, bitrate: nat, fps: nat, rttStreak: nat, queueStreak: nat,
                             backlog: nat, pressure: nat, lastDecrease: int, lastIncrease: int, cleanSince: int)

  function Initial(p: Profile, jpeg: bool, now: int): Control {
    var env := EnvelopeOf(p, jpeg);
    Control(jpeg, env, env.startKbps, env.maxFps, 0, 0, 0, 0, now - DECREASE_COOLDOWN, now, now)
  }

  /** A round-trip sample: not a number worth using, well above the minimum, or fine. */
  datatype Rtt = Unusable | Bloated | Fine

  /** `cut` is the bitrate proposed should the call lead to a cut. */
  datatype Op =
    | SetProfile(p: Profile, now: int)
    | Backlog(now: int, cut: nat)
    | Sample(rtt: Rtt, now: int, cut: nat)
    | Stats(depth: nat, now: int, cut: nat)
    | Tick(now: int)

  function Rebased(c: Control, p: Profile, now: int): Control {
    var env := EnvelopeOf(p, c.jpeg);
    c.(env := env, bitrate := Max(env.minKbps, Min(Max(c.bitrate, env.startKbps), env.maxKbps)), fps := env.maxFps,
       pressure := 0, cleanSince := now)
  }

  predicate CoolingDown(c: Control, now: int) {
    now - c.lastDecrease < DECREASE_COOLDOWN
  }

  function Decreased(c: Control, now: int, cut: nat): Control {
    var d := c.(cleanSince := now);
    if CoolingDown(c, now) then d
    else if c.bitrate > c.env.minKbps then
      d.(lastDecrease := now, bitrate := Max(Min(cut, c.bitrate - 1), c.env.minKbps), pressure := 0)
    else if c.pressure + 1 < FLOOR_PRESSURE_FOR_FPS_DROP then d.(lastDecrease := now, pressure := c.pressure + 1)
    else d.(lastDecrease := now, pressure := 0, fps := Max(c.fps / 2, c.env.minFps))
  }

  /** The call asks for a decrease. */
  predicate Attempts(c: Control, op: Op) {
    match op
    case Backlog(_, _) => c.backlog + 1 >= BACKLOG_FOR_DECREASE
    case Sample(rtt, _, _) => rtt.Bloated? && c.rttStreak + 1 >= RTT_STREAK_FOR_DECREASE
    case Stats(depth, _, _) => depth > 3 && c.queueStreak + 1 >= QUEUE_STREAK_FOR_DECREASE
    case _ => false
  }

  /** The tick passes both waiting periods. */
  predicate Effective(c: Control, op: Op) {
    op.Tick? && op.now - c.cleanSince >= CLEAN_BEFORE_INCREASE && op.now - c.lastIncrease >= INCREASE_INTERVAL
  }

  function Raise(bitrate: nat, max: nat): nat {
    Min(bitrate + Max(bitrate / 12, 100), max)
  }

  function Ticked(c: Control, now: int): Control {
    var d := c.(lastIncrease := now, backlog := 0);
    if c.bitrate < c.env.maxKbps then d.(bitrate := Raise(c.bitrate, c.env.maxKbps))
    else if c.fps < c.env.maxFps && now - c.cleanSince >= CLEAN_BEFORE_FPS_RESTORE then
      d.(fps := c.env.maxFps, pressure := 0)
    else d
  }

  function After(c: Control, op: Op): Control {
    match op
    case SetProfile(p, now) => Rebased(c, p, now)
    case Backlog(now, cut) =>
      if Attempts(c, op) then Decreased(c.(backlog := 0), now, cut) else c.(backlog := c.backlog + 1)
    case Sample(rtt, now, cut) =>
      if rtt.Unusable? then c
      else if rtt.Fine? then c.(rttStreak := 0)
      else if Attempts(c, op) then Decreased(c.(rttStreak := 0), now, cut)
      else c.(rttStreak := c.rttStreak + 1)
    case Stats(depth, now, cut) =>
      if depth <= 3 then c.(queueStreak := 0)
      else if Attempts(c, op) then Decreased(c.(queueStreak := 0), now, cut)
      else c.(queueStreak := c.queueStreak + 1)
    case Tick(now) => if Effective(c, op) then Ticked(c, now) else c
  }

  class AdaptiveController {
    const jpeg: bool
    var env: Envelope
    var bitrateKbps: nat
    var fps: nat
    var rttHighStreak: nat
    var queueHighStreak: nat
    var backlogRecent: nat
    var floorPressure: nat
    var lastDecrease: int
    var lastIncrease: int
    var cleanSince: int

    constructor (p: Profile, jpeg: bool, now: int)
      ensures State() == Initial(p, jpeg, now)
    {
      var e := EnvelopeOf(p, jpeg);
      this.jpeg, env, bitrateKbps, fps := jpeg, e, e.startKbps, e.maxFps;
      rttHighStreak, queueHighStreak, backlogRecent, floorPressure := 0, 0, 0, 0;
      lastDecrease, lastIncrease, cleanSince := now - DECREASE_COOLDOWN, now, now;
    }

    function State(): Control
      reads this
    {
      Control(jpeg, env, bitrateKbps, fps, rttHighStreak, queueHighStreak, backlogRecent, floorPressure,
              lastDecrease, lastIncrease, cleanSince)
    }

    method ChangeProfile(p: Profile, now: int)
      modifies this
      ensures State() == After(old(State()), SetProfile(p, now))
    {
      env := EnvelopeOf(p, jpeg);
      bitrateKbps := Max(env.minKbps, Min(Max(bitrateKbps, env.startKbps), env.maxKbps));
      fps, floorPressure, cleanSince := env.maxFps, 0, now;
    }

    method OnSendBacklog(now: int, cut: nat)
      modifies this
      ensures State() == After(old(State()), Backlog(now, cut))
    {
      backlogRecent := backlogRecent + 1;
      if backlogRecent >= BACKLOG_FOR_DECREASE {
        backlogRecent := 0;
        TryDecrease(now, cut);
      }
    }

    method OnRttSample(rtt: Rtt, now: int, cut: nat)
      modifies this
      ensures State() == After(old(State()), Sample(rtt, now, cut))
    {
      if rtt.Unusable? {
        return;
      }
      if rtt.Bloated? {
        rttHighStreak := rttHighStreak + 1;
        if rttHighStreak >= RTT_STREAK_FOR_DECREASE {
          rttHighStreak := 0;
          TryDecrease(now, cut);
        }
      } else {
        rttHighStreak := 0;
      }
    }

    method OnViewerStats(depth: nat, now: int, cut: nat)
      modifies this
      ensures State() == After(old(State()), Stats(depth, now, cut))
    {
      if depth > 3 {
        queueHighStreak := queueHighStreak + 1;
        if queueHighStreak >= QUEUE_STREAK_FOR_DECREASE {
          queueHighStreak := 0;
          TryDecrease(now, cut);
        }
      } else {
        queueHighStreak := 0;
      }
    }

    method OnTick(now: int)
      modifies this
      ensures State() == After(old(State()), Tick(now))
    {
      if now - cleanSince < CLEAN_BEFORE_INCREASE || now - lastIncrease < INCREASE_INTERVAL {
        return;
      }
      lastIncrease, backlogRecent := now, 0;
      if bitrateKbps < env.maxKbps {
        var step := if bitrateKbps / 12 < 100 then 100 else bitrateKbps / 12;
        bitrateKbps := if bitrateKbps + step < env.maxKbps then bitrateKbps + step else env.maxKbps;
      } else if fps < env.maxFps && now - cleanSince >= CLEAN_BEFORE_FPS_RESTORE {
        fps, floorPressure := env.maxFps, 0;
      }
    }

    method TryDecrease(now: int, cut: nat)
      modifies this
      ensures State() == Decreased(old(State()), now, cut)
      ensures now - old(lastDecrease) < DECREASE_COOLDOWN ==> bitrateKbps == old(bitrateKbps) && fps == old(fps)
      ensures now - old(lastDecrease) >= DECREASE_COOLDOWN && old(bitrateKbps) > env.minKbps ==>
                && env.minKbps <= bitrateKbps < old(bitrateKbps) && fps == old(fps)
                && (env.minKbps <= cut < old(bitrateKbps) ==> bitrateKbps == cut)
      ensures now - old(lastDecrease) >= DECREASE_COOLDOWN && old(bitrateKbps) <= env.minKbps ==>
                && bitrateKbps == old(bitrateKbps)
                && (fps == old(fps) || fps == env.minFps || old(fps) - 1 <= 2 * fps <= old(fps))
    {
      cleanSince := now;
      if now - lastDecrease < DECREASE_COOLDOWN {
        return;
      }
      lastDecrease := now;
      if bitrateKbps > env.minKbps {
        var lower := if cut < bitrateKbps then cut else bitrateKbps - 1;
        bitrateKbps := if lower < env.minKbps then env.minKbps else lower;
        floorPressure := 0;
      } else {
        floorPressure := floorPressure + 1;
        if floorPressure >= FLOOR_PRESSURE_FOR_FPS_DROP {
          floorPressure := 0;
          fps := if fps / 2 < env.minFps then env.minFps else fps / 2;
        }
      }
    }
  }

  // -------------------------------------------------------------------- the envelope

  predicate InEnvelope(c: Control) {
    && (exists p :: c.env == EnvelopeOf(p, c.jpeg))
    && WithinLimits(c)
  }

  predicate WithinLimits(c: Control) {
    && c.env.minKbps <= c.bitrate <= c.env.maxKbps && c.env.minFps <= c.fps <= c.env.maxFps
    && c.pressure < FLOOR_PRESSURE_FOR_FPS_DROP
  }

  lemma EnvelopesAreSane(p: Profile, jpeg: bool)
    ensures var e := EnvelopeOf(p, jpeg);
            && 500 <= e.minKbps < e.maxKbps <= 24 * e.minKbps && e.minKbps <= e.startKbps <= e.maxKbps
            && e.minFps < e.maxFps
  {
  }

  lemma AfterStaysWithin(c: Control, op: Op)
    requires WithinLimits(c) && !op.SetProfile?
    ensures WithinLimits(After(c, op)) && After(c, op).env == c.env && After(c, op).jpeg == c.jpeg
  {
    hide EnvelopeOf;
  }

  lemma AfterStaysInEnvelope(c: Control, op: Op)
    requires InEnvelope(c)
    ensures InEnvelope(After(c, op))
  {
    hide EnvelopeOf, BaseEnvelope;
    if op.SetProfile? {
      EnvelopesAreSane(op.p, c.jpeg);
    } else {
      hide WithinLimits, After;
      AfterStaysWithin(c, op);
    }
  }

  function Run(c: Control, ops: seq<Op>): Control {
    if ops == [] then c else After(Run(c, ops[..|ops| - 1]), ops[|ops| - 1])
  }

  /** Bitrate and frame rate never leave the envelope of the profile in force. */
  lemma {:induction false} RunsStayInEnvelope(p: Profile, jpeg: bool, start: int, ops: seq<Op>)
    ensures InEnvelope(Run(Initial(p, jpeg, start), ops))
  {
    hide After;
    if ops == [] {
      EnvelopesAreSane(p, jpeg);
    } else {
      RunsStayInEnvelope(p, jpeg, start, ops[..|ops| - 1]);
      AfterStaysInEnvelope(Run(Initial(p, jpeg, start), ops[..|ops| - 1]), ops[|ops| - 1]);
    }
  }

  // -------------------------------------------------------------------- recovery

  /** `k` raises in a row, without the cap. */
  function Raised(b: nat, k: nat, max: nat): nat {
    if k == 0 then b else Raise(Raised(b, k - 1, max), max)
  }

  lemma {:induction false} RaisesAddUp(b: nat, k: nat, max: nat)
    requires b <= max
    ensures b <= Raised(b, k, max) <= max
    ensures Raised(b, k, max) == max || Raised(b, k, max) >= b + 100 * k
    ensures k >= 1 ==> Raised(b, k, max) == max || 12 * (Raised(b, k, max) - b) >= k * b + 89 * k - 100
  {
    if k > 0 {
      RaisesAddUp(b, k - 1, max);
      var r := Raised(b, k - 1, max);
      assert 12 * Max(r / 12, 100) >= r - 11;
      if Raised(b, k, max) != max {
        assert Raised(b, k, max) == r + Max(r / 12, 100);
        if k > 1 {
          assert (k - 1) * b + b == k * b;
        }
      }
    }
  }

  /** Twelve raises double the bitrate, or reach the maximum. */
  lemma TwelveRaisesDouble(b: nat, max: nat)
    requires b <= max
    ensures Raised(b, 12, max) >= Min(2 * b, max)
  {
    RaisesAddUp(b, 12, max);
  }

  lemma {:induction false} RaisesCompose(b: nat, j: nat, k: nat, max: nat)
    ensures Raised(Raised(b, j, max), k, max) == Raised(b, j + k, max)
  {
    if k > 0 {
      RaisesCompose(b, j, k - 1, max);
    }
  }

  /** Five doublings cover every envelope: sixty raises from anywhere in it. */
  lemma SixtyRaisesReachMax(b: nat, max: nat)
    requires b <= max <= 24 * b
    ensures Raised(b, 60, max) == max
  {
    var r1, r2, r3, r4 := Raised(b, 12, max), Raised(b, 24, max), Raised(b, 36, max), Raised(b, 48, max);
    RaisesCompose(b, 12, 12, max);
    RaisesCompose(b, 24, 12, max);
    RaisesCompose(b, 36, 12, max);
    RaisesCompose(b, 48, 12, max);
    hide Raised;
    RaisesAddUp(b, 12, max);
    RaisesAddUp(b, 24, max);
    RaisesAddUp(b, 36, max);
    RaisesAddUp(b, 48, max);
    RaisesAddUp(b, 60, max);
    TwelveRaisesDouble(b, max);
    TwelveRaisesDouble(r1, max);
    TwelveRaisesDouble(r2, max);
    TwelveRaisesDouble(r3, max);
    TwelveRaisesDouble(r4, max);
  }

  /** No decrease is asked for and the profile stays. */
  predicate Quiet(c: Control, ops: seq<Op>) {
    ops == [] ||
    var before, op := ops[..|ops| - 1], ops[|ops| - 1];
    Quiet(c, before) && !op.SetProfile? && !Attempts(Run(c, before), op)
  }

  function EffectiveTicks(c: Control, ops: seq<Op>): nat {
    if ops == [] then 0
    else
      var before := ops[..|ops| - 1];
      EffectiveTicks(c, before) + if Effective(Run(c, before), ops[|ops| - 1]) then 1 else 0
  }

  lemma QuietStep(c: Control, op: Op)
    requires !op.SetProfile? && !Attempts(c, op)
    ensures var d := After(c, op);
            && d.env == c.env && d.cleanSince == c.cleanSince
            && (!Effective(c, op) ==> d.bitrate == c.bitrate && d.fps == c.fps && d.lastIncrease == c.lastIncrease)
            && (Effective(c, op) ==> op.Tick? && d.lastIncrease == op.now >= c.lastIncrease + INCREASE_INTERVAL
                                     && op.now >= c.cleanSince + CLEAN_BEFORE_INCREASE)
            && (Effective(c, op) && c.bitrate < c.env.maxKbps ==> d.bitrate == Raise(c.bitrate, c.env.maxKbps) && d.fps == c.fps)
            && (Effective(c, op) && c.bitrate >= c.env.maxKbps ==>
                  d.bitrate == c.bitrate && op.Tick? && (op.now - c.cleanSince >= CLEAN_BEFORE_FPS_RESTORE && c.fps <= c.env.maxFps ==> d.fps == d.env.maxFps)
                  && (d.fps == c.fps || d.fps == d.env.maxFps))
  {
  }

  /** Along a quiet run the bitrate is that many raises up, and at the maximum the
      frame rate comes back with the first effective tick eight seconds in. */
  lemma {:induction false} QuietRunRaises(c: Control, ops: seq<Op>)
    requires Quiet(c, ops) && c.bitrate <= c.env.maxKbps && c.fps <= c.env.maxFps
    ensures var d, k := Run(c, ops), EffectiveTicks(c, ops);
            && d.env == c.env && d.cleanSince == c.cleanSince && d.fps <= d.env.maxFps
            && d.bitrate == Raised(c.bitrate, k, c.env.maxKbps)
            && (k >= 1 ==> d.lastIncrease >= c.cleanSince + CLEAN_BEFORE_INCREASE + (k - 1) * INCREASE_INTERVAL)
  {
    hide After, Attempts, Raise, Effective;
    if ops != [] {
      var before, op := ops[..|ops| - 1], ops[|ops| - 1];
      var d, k := Run(c, before), EffectiveTicks(c, before);
      QuietRunRaises(c, before);
      QuietStep(d, op);
      RaisesAddUp(c.bitrate, k, c.env.maxKbps);
      StaysAtMax(c.env.maxKbps);
      assert (k + 1 - 1) * INCREASE_INTERVAL == k * INCREASE_INTERVAL;
    }
  }

  lemma StaysAtMax(max: nat)
    ensures Raise(max, max) == max
  {
  }

  /** Once the raises are through, one more effective tick restores the frame rate. */
  lemma {:induction false} QuietRunRestores(c: Control, ops: seq<Op>, enough: nat)
    requires Quiet(c, ops) && c.bitrate <= c.env.maxKbps && c.fps <= c.env.maxFps
    requires enough >= 7 && Raised(c.bitrate, enough, c.env.maxKbps) == c.env.maxKbps
    requires EffectiveTicks(c, ops) > enough
    ensures Run(c, ops).bitrate == c.env.maxKbps && Run(c, ops).fps == c.env.maxFps
  {
    var before, op := ops[..|ops| - 1], ops[|ops| - 1];
    var d, k := Run(c, before), EffectiveTicks(c, before);
    QuietRunRaises(c, before);
    QuietStep(d, op);
    if k > enough {
      QuietRunRestores(c, before, enough);
    } else {
      assert Effective(d, op);
      assert (k - 1) * INCREASE_INTERVAL >= 6 * INCREASE_INTERVAL;
    }
  }

  /** From any reachable state, sixty-one effective ticks without a decrease asked
      for bring back full bitrate and full frame rate. */
  lemma RecoveryIsBounded(p: Profile, jpeg: bool, start: int, past: seq<Op>, ops: seq<Op>)
    requires Quiet(Run(Initial(p, jpeg, start), past), ops)
    requires EffectiveTicks(Run(Initial(p, jpeg, start), past), ops) >= 61
    ensures var d := Run(Run(Initial(p, jpeg, start), past), ops);
            d.bitrate == d.env.maxKbps && d.fps == d.env.maxFps
  {
    hide Run, Quiet, EffectiveTicks, Raised;
    RunsStayInEnvelope(p, jpeg, start, past);
    var c := Run(Initial(p, jpeg, start), past);
    var q :| c.env == EnvelopeOf(q, c.jpeg);
    EnvelopesAreSane(q, c.jpeg);
    SixtyRaisesReachMax(c.bitrate, c.env.maxKbps);
    QuietRunRestores(c, ops, 60);
    QuietRunRaises(c, ops);
  }

  /** And twelve effective ticks double the bitrate or reach the maximum. */
  lemma TwelveTicksDouble(p: Profile, jpeg: bool, start: int, past: seq<Op>, ops: seq<Op>)
    requires Quiet(Run(Initial(p, jpeg, start), past), ops)
    requires EffectiveTicks(Run(Initial(p, jpeg, start), past), ops) == 12
    ensures var c := Run(Initial(p, jpeg, start), past); Run(c, ops).bitrate >= Min(2 * c.bitrate, c.env.maxKbps)
  {
    hide Run, Quiet, EffectiveTicks, Raised;
    RunsStayInEnvelope(p, jpeg, start, past);
    var c := Run(Initial(p, jpeg, start), past);
    QuietRunRaises(c, ops);
    TwelveRaisesDouble(c.bitrate, c.env.maxKbps);
  }
}
