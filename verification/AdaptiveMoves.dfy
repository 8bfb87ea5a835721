/** Where bitrate and frame rate go, over whole runs: what a cut, a tick and a change of
    profile do to them, told by the states before and after and by what came earlier. */
module AdaptiveMoves {
  import opened Adaptive
  import opened AdaptiveHistory

  /** The kinds of acts the three clocks of the controller wait for. */
  datatype Kind = Cuts | Ticks | Signals

  predicate OfKind(a: Act, kind: Kind) {
    match kind
    case Cuts => a.Cut?
    case Ticks => a != Nothing && Ticking(a)
    case Signals => a != Nothing && Unclean(a)
  }

  /** An act of the kind, or failing one the session's start, lies less than `ms` back. */
  ghost predicate Lately(h: seq<Act>, kind: Kind, start: int, now: int, ms: nat) {
    now - start < ms || Within(h, kind, now, ms)
  }

  ghost predicate Within(h: seq<Act>, kind: Kind, now: int, ms: nat) {
    exists i :: 0 <= i < |h| && OfKind(h[i], kind) && now - h[i].at < ms
  }

  /** `t` is the time of an act of the kind, or `first`. */
  ghost predicate TimeOf(h: seq<Act>, kind: Kind, t: int, first: int) {
    t == first || exists i :: 0 <= i < |h| && OfKind(h[i], kind) && h[i].at == t
  }

  /** At the floor, as long as the frame rate has room to fall, the pressure counts the
      cuts in a row there. */
  predicate PressureNoted(c: Control, h: seq<Act>) {
    c.bitrate == c.env.minKbps && c.fps > c.env.minFps ==> (c.pressure > 0 <==> PressedOnce(h))
  }

  ghost predicate Noted(c: Control, h: seq<Act>, start: int) {
    && TimeOf(h, Cuts, c.lastDecrease, start - 1_500)
    && TimeOf(h, Ticks, c.lastIncrease, start) && TimeOf(h, Signals, c.cleanSince, start)
    && start - 1_500 <= c.lastDecrease && start <= c.lastIncrease && start <= c.cleanSince
    && PressureNoted(c, h)
  }

  lemma TimeStays(h: seq<Act>, a: Act, kind: Kind, t: int, first: int)
    requires TimeOf(h, kind, t, first)
    ensures TimeOf(h + [a], kind, t, first)
  {
    if t != first {
      var i :| 0 <= i < |h| && OfKind(h[i], kind) && h[i].at == t;
      assert (h + [a])[i] == h[i];
    }
  }

  lemma TimeIsNew(h: seq<Act>, a: Act, kind: Kind, first: int)
    requires OfKind(a, kind)
    ensures a != Nothing && TimeOf(h + [a], kind, a.at, first)
  {
    assert (h + [a])[|h|] == a;
  }

  /** The last cut, after one more act. */
  lemma PressedAfter(h: seq<Act>, a: Act)
    ensures PressedOnce(h + [a]) == if a.Cut? then a.floor && !a.drop else !a.Rebase? && PressedOnce(h)
  {
    assert (h + [a])[..|h|] == h;
  }

  lemma PressureAfter(c: Control, op: Op, h: seq<Act>)
    requires WithinLimits(c) && c.env.minKbps < c.env.maxKbps && PressureNoted(c, h)
    requires op.SetProfile? ==> After(c, op).pressure == 0
    ensures var a, d := ActOf(c, op), After(c, op); PressureNoted(d, if a == Nothing then h else h + [a])
  {
    hide EnvelopeOf, PressedOnce;
    PressedAfter(h, ActOf(c, op));
  }

  lemma NotedStep(c: Control, op: Op, h: seq<Act>, start: int, now: int)
    requires Noted(c, h, start) && Inv(c, h, now) && now <= op.now
    ensures var a, d := ActOf(c, op), After(c, op); Noted(d, if a == Nothing then h else h + [a], start)
  {
    hide After, ActOf, EnvelopeOf, WithinLimits, PressedOnce, RaisedSince, AllSpaced, DropsJustified, Clocked, InEnvelope,
      TimeOf, PressureNoted;
    InEnvelopeIs(c);
    ActEffect(c, op, now);
    RebaseRelieves(c, op);
    PressureAfter(c, op, h);
    var a := ActOf(c, op);
    if a != Nothing {
      TimeStays(h, a, Cuts, c.lastDecrease, start - 1_500);
      TimeStays(h, a, Ticks, c.lastIncrease, start);
      TimeStays(h, a, Signals, c.cleanSince, start);
      if a.Cut? { TimeIsNew(h, a, Cuts, start - 1_500); }
      if Ticking(a) { TimeIsNew(h, a, Ticks, start); }
      if Unclean(a) { TimeIsNew(h, a, Signals, start); }
    }
  }

  lemma RebaseRelieves(c: Control, op: Op)
    ensures op.SetProfile? ==> After(c, op).pressure == 0
  {
  }

  lemma {:induction false} RunsAreNoted(p: Profile, jpeg: bool, start: int, ops: seq<Op>)
    requires Timely(start, ops)
    ensures Noted(Run(Initial(p, jpeg, start), ops), History(Initial(p, jpeg, start), ops), start)
  {
    hide Inv, After, ActOf, Noted;
    if ops == [] {
      NotedAtFirst(p, jpeg, start);
    } else {
      var before, i := ops[..|ops| - 1], Initial(p, jpeg, start);
      RunsAreNoted(p, jpeg, start, before);
      HistoryIsSound(p, jpeg, start, before);
      NotedStep(Run(i, before), ops[|ops| - 1], History(i, before), start, LastTime(start, before));
    }
  }

  lemma NotedAtFirst(p: Profile, jpeg: bool, start: int)
    ensures Noted(Initial(p, jpeg, start), [], start)
  {
    EnvelopesAreSane(p, jpeg);
  }

  /** The clocks are the history's. */
  lemma ClocksTell(c: Control, h: seq<Act>, start: int, now: int, ms: nat)
    requires Noted(c, h, start) && Clocked(c, h) && now >= start
    ensures now - c.lastDecrease < 1_500 <==> Within(h, Cuts, now, 1_500)
    ensures now - c.lastIncrease < ms <==> Lately(h, Ticks, start, now, ms)
    ensures now - c.cleanSince < ms <==> Lately(h, Signals, start, now, ms)
  {
  }

  // ---------------------------------------------------------------- main results

  /** A decrease that is asked for less than 1.5 s after a cut changes neither bitrate nor
      frame rate. Any other lowers the bitrate and keeps the frame rate, unless the bitrate
      is at the floor: then it stays there, and the frame rate is halved, or cut to its
      minimum, exactly when the last cut had found the bitrate there too. */
  lemma CutsGoDown(p: Profile, jpeg: bool, start: int, past: seq<Op>, op: Op)
    requires Timely(start, past + [op]) && Attempts(Run(Initial(p, jpeg, start), past), op)
    ensures var i := Initial(p, jpeg, start);
            var c, d, h := Run(i, past), Run(i, past + [op]), History(i, past);
            d.env == c.env &&
            if Within(h, Cuts, op.now, 1_500) then d.bitrate == c.bitrate && d.fps == c.fps
            else if c.bitrate > c.env.minKbps then
              && c.env.minKbps <= d.bitrate < c.bitrate && d.fps == c.fps
              && (c.env.minKbps <= op.cut < c.bitrate ==> d.bitrate == op.cut)
              && (op.cut < c.env.minKbps ==> d.bitrate == c.env.minKbps)
            else
              && d.bitrate == c.bitrate == c.env.minKbps
              && if PressedOnce(h) && c.fps > c.env.minFps then HalvedTo(c.fps, d.fps, c.env.minFps) else d.fps == c.fps
  {
    hide History, Run, Initial, Attempts, Inv, Noted, PressedOnce;
    var i := Initial(p, jpeg, start);
    var c, h := Run(i, past), History(i, past);
    TimelyBefore(start, past, op);
    HistoryIsSound(p, jpeg, start, past);
    RunsAreNoted(p, jpeg, start, past);
    OneMoreOp(i, past, op);
    FromInv(c, h, start, LastTime(start, past));
    ClocksTell(c, h, start, op.now, 0);
    AttemptMoves(c, op, h);
  }

  predicate HalvedTo(fps: nat, lower: nat, min: nat) {
    lower < fps && lower >= min && (2 * lower == fps || 2 * lower == fps - 1 || (lower == min && fps <= 2 * min))
  }

  lemma TimelyBefore(start: int, past: seq<Op>, op: Op)
    requires Timely(start, past + [op])
    ensures Timely(start, past) && LastTime(start, past) <= op.now && start <= op.now
  {
    assert (past + [op])[..|past|] == past;
    TimeGrows(start, past);
  }

  lemma {:induction false} TimeGrows(start: int, ops: seq<Op>)
    requires Timely(start, ops)
    ensures start <= LastTime(start, ops)
  {
    if ops != [] {
      TimeGrows(start, ops[..|ops| - 1]);
    }
  }

  lemma OneMoreOp(c: Control, past: seq<Op>, op: Op)
    ensures Run(c, past + [op]) == After(Run(c, past), op)
  {
    hide After;
    assert (past + [op])[..|past|] == past;
  }

  lemma FromInv(c: Control, h: seq<Act>, start: int, now: int)
    requires Inv(c, h, now) && Noted(c, h, start)
    ensures WithinLimits(c) && c.env.minKbps < c.env.maxKbps && PressureNoted(c, h) && Clocked(c, h)
  {
    hide WithinLimits, Clocked, PressureNoted, InEnvelope;
    InEnvelopeIs(c);
  }

  lemma AttemptMoves(c: Control, op: Op, h: seq<Act>)
    requires WithinLimits(c) && PressureNoted(c, h) && Attempts(c, op)
    ensures var d := After(c, op);
            d.env == c.env &&
            if op.now - c.lastDecrease < 1_500 then d.bitrate == c.bitrate && d.fps == c.fps
            else if c.bitrate > c.env.minKbps then
              && c.env.minKbps <= d.bitrate < c.bitrate && d.fps == c.fps
              && (c.env.minKbps <= op.cut < c.bitrate ==> d.bitrate == op.cut)
              && (op.cut < c.env.minKbps ==> d.bitrate == c.env.minKbps)
            else
              && d.bitrate == c.bitrate == c.env.minKbps
              && if PressedOnce(h) && c.fps > c.env.minFps then HalvedTo(c.fps, d.fps, c.env.minFps) else d.fps == c.fps
  {
    hide EnvelopeOf, PressedOnce;
  }

  /** A tick counts unless something asked for a decrease, the profile changed or the
      session started less than 2 s ago, or another tick counted (or the session
      started) less than 1 s ago. One that counts raises the bitrate by a twelfth, but by
      100 at least and to the maximum at most; at the maximum it restores the frame rate
      once 8 s have been clean. One that does not count changes neither. */
  lemma TicksGoUp(p: Profile, jpeg: bool, start: int, past: seq<Op>, now: int)
    requires Timely(start, past + [Tick(now)])
    ensures var i := Initial(p, jpeg, start);
            var c, d, h := Run(i, past), Run(i, past + [Tick(now)]), History(i, past);
            d.env == c.env &&
            if Lately(h, Signals, start, now, 2_000) || Lately(h, Ticks, start, now, 1_000) then
              d.bitrate == c.bitrate && d.fps == c.fps
            else if c.bitrate < c.env.maxKbps then
              RaisedBy(c.bitrate, d.bitrate, c.env.maxKbps) && d.fps == c.fps
            else
              && d.bitrate == c.bitrate
              && d.fps == if Lately(h, Signals, start, now, 8_000) then c.fps else c.env.maxFps
  {
    hide History, Run, Initial, Inv, Noted, Lately;
    var i, op := Initial(p, jpeg, start), Tick(now);
    var c, h := Run(i, past), History(i, past);
    TimelyBefore(start, past, op);
    HistoryIsSound(p, jpeg, start, past);
    RunsAreNoted(p, jpeg, start, past);
    OneMoreOp(i, past, op);
    FromInv(c, h, start, LastTime(start, past));
    ClocksTell(c, h, start, now, 1_000);
    ClocksTell(c, h, start, now, 2_000);
    ClocksTell(c, h, start, now, 8_000);
    TickMoves(c, now);
  }

  predicate RaisedBy(bitrate: nat, higher: nat, max: nat) {
    && bitrate < higher <= max
    && (12 * (higher - bitrate) <= bitrate || higher - bitrate <= 100)
    && (higher == max || (higher - bitrate >= 100 && 12 * (higher - bitrate) > bitrate - 12))
  }

  lemma TickMoves(c: Control, now: int)
    requires WithinLimits(c)
    ensures var d := After(c, Tick(now));
            d.env == c.env &&
            if now - c.cleanSince < 2_000 || now - c.lastIncrease < 1_000 then d.bitrate == c.bitrate && d.fps == c.fps
            else if c.bitrate < c.env.maxKbps then RaisedBy(c.bitrate, d.bitrate, c.env.maxKbps) && d.fps == c.fps
            else d.bitrate == c.bitrate && d.fps == if now - c.cleanSince < 8_000 then c.fps else c.env.maxFps
  {
    hide EnvelopeOf;
  }

  /** A change of profile restores the frame rate and starts from the new profile's own
      bitrate or the present one, whichever is higher, within the new limits; signals
      that ask for no decrease change neither bitrate nor frame rate. */
  lemma OtherCallsMove(p: Profile, jpeg: bool, start: int, past: seq<Op>, op: Op)
    requires !Attempts(Run(Initial(p, jpeg, start), past), op) && !op.Tick?
    ensures var i := Initial(p, jpeg, start);
            var c, d := Run(i, past), Run(i, past + [op]);
            if op.SetProfile? then
              && d.env == EnvelopeOf(op.p, jpeg) && d.fps == d.env.maxFps
              && (c.bitrate <= d.env.startKbps ==> d.bitrate == d.env.startKbps)
              && (d.env.startKbps <= c.bitrate <= d.env.maxKbps ==> d.bitrate == c.bitrate)
              && (c.bitrate >= d.env.maxKbps ==> d.bitrate == d.env.maxKbps)
            else d.env == c.env && d.bitrate == c.bitrate && d.fps == c.fps
  {
    hide Run, Attempts;
    var i := Initial(p, jpeg, start);
    OneMoreOp(i, past, op);
    CodecStays(p, jpeg, start, past);
    if op.SetProfile? {
      EnvelopesAreSane(op.p, jpeg);
    }
  }

  lemma {:induction false} CodecStays(p: Profile, jpeg: bool, start: int, ops: seq<Op>)
    ensures Run(Initial(p, jpeg, start), ops).jpeg == jpeg
  {
    hide EnvelopeOf;
    if ops != [] {
      CodecStays(p, jpeg, start, ops[..|ops| - 1]);
    }
  }

  /** A session starts at its profile's own bitrate and full frame rate. JPEG, which needs
      more for the same picture, gets four times the start and the maximum and twice the
      floor of H.264, at the same frame rates. */
  lemma SessionsStart(p: Profile, start: int)
    ensures var video, jpeg := Run(Initial(p, false, start), []), Run(Initial(p, true, start), []);
            && video.bitrate == video.env.startKbps && video.fps == video.env.maxFps
            && jpeg.bitrate == jpeg.env.startKbps == 4 * video.env.startKbps && jpeg.fps == jpeg.env.maxFps == video.env.maxFps
            && jpeg.env.maxKbps == 4 * video.env.maxKbps && jpeg.env.minKbps == 2 * video.env.minKbps
            && jpeg.env.minFps == video.env.minFps
    ensures Initial(Office, false, start).env == Envelope(500, 6_000, 2_500, 10, 30)
    ensures Initial(Video, false, start).env == Envelope(2_000, 20_000, 8_000, 24, 60)
    ensures Initial(Drawing, false, start).env == Envelope(1_000, 10_000, 4_000, 30, 60)
    ensures Initial(Gaming, false, start).env == Envelope(3_000, 30_000, 10_000, 30, 60)
  {
  }
}
