/**
 Whole runs of the muxer: which access units become fragments, what a reader makes
 of them, and which parameter sets it has been told by then.
 */
module MuxerRuns {
  import opened Bytes
  import opened Boxes
  import opened Fragments
  import opened Muxer
  import opened Options
  import AnnexB

  // ------------------------------------------------------- what an access unit holds

  /** The units of a stream that are not parameter sets, in order. */
  function Media(nals: seq<Octets>): seq<Octets> {
    if nals == [] then []
    else (if NalType(nals[0]) == SPS || NalType(nals[0]) == PPS then [] else [nals[0]]) + Media(nals[1..])
  }

  /** The last unit of a type, or else `before`. */
  function Latest(nals: seq<Octets>, kind: nat, before: Option<Octets>): Option<Octets> {
    if nals == [] then before
    else Latest(nals[1..], kind, if NalType(nals[0]) == kind then Some(nals[0]) else before)
  }

  /** Some unit of a type differs from the one before it. */
  predicate Touched(nals: seq<Octets>, kind: nat, before: Option<Octets>) {
    nals != [] &&
    if NalType(nals[0]) == kind then Some(nals[0]) != before || Touched(nals[1..], kind, Some(nals[0]))
    else Touched(nals[1..], kind, before)
  }

  lemma {:induction false} GatherIs(g: Gathered, nals: seq<Octets>)
    ensures var h := Gather(g, nals);
            && h.media == g.media + Media(nals)
            && h.sps == Latest(nals, SPS, g.sps) && h.pps == Latest(nals, PPS, g.pps)
            && (h.changed <==> g.changed || Touched(nals, SPS, g.sps) || Touched(nals, PPS, g.pps))
    decreases |nals|
  {
    if nals != [] {
      GatherIs(Take(g, nals[0]), nals[1..]);
    }
  }

  function Nals(f: Frame): seq<Octets> {
    AnnexB.Split(f.payload)
  }

  /** The newest parameter set of a type in a run of access units. */
  function Known(frames: seq<Frame>, kind: nat): Option<Octets> {
    if frames == [] then None
    else Latest(Nals(frames[|frames| - 1]), kind, Known(frames[..|frames| - 1], kind))
  }

  // ------------------------------------------------------------------------- runs

  datatype Sent = Sent(frame: Frame, sps: Octets, pps: Octets)

  /** A sent unit, its fragment, and what the last init segment told by then. */
  datatype Emission = Emission(sent: Sent, bytes: Octets, told: Option<(Octets, Octets)>)

  datatype Run = Run(mux: Mux, log: seq<Emission>, told: Option<(Octets, Octets)>)

  function Step(r: Run, f: Frame): Run {
    var m := MuxAfter(r.mux, f);
    match Segments(r.mux, f)
    case None => r.(mux := m)
    case Some(out) =>
      var told := if |out| == 2 then ReadParams(out[0]) else r.told;
      Run(m, r.log + [Emission(Sent(f, m.sps.value, m.pps.value), out[|out| - 1], told)], told)
  }

  function Exec(frames: seq<Frame>): Run {
    if frames == [] then Run(NewMux, [], None)
    else Step(Exec(frames[..|frames| - 1]), frames[|frames| - 1])
  }

  /** The units sent: those with media, from when both parameter sets are known. */
  function Accepted(frames: seq<Frame>): seq<Sent> {
    if frames == [] then []
    else
      var before, f := Accepted(frames[..|frames| - 1]), frames[|frames| - 1];
      var sps, pps := Known(frames, SPS), Known(frames, PPS);
      if sps.Some? && pps.Some? && Media(Nals(f)) != [] then before + [Sent(f, sps.value, pps.value)] else before
  }

  function SentOf(log: seq<Emission>): seq<Sent> {
    if log == [] then [] else SentOf(log[..|log| - 1]) + [log[|log| - 1].sent]
  }

  /** The duration of the `i`-th fragment, from the capture times of it and the one before. */
  function DurationAt(sent: seq<Sent>, i: nat): nat
    requires i < |sent|
  {
    Duration(if i == 0 then None else Some(sent[i - 1].frame.ts), sent[i].frame.ts)
  }

  /** Decode time: the durations of the first `i` fragments, summed. */
  function Total(sent: seq<Sent>, i: nat): nat
    requires i <= |sent|
  {
    if i == 0 then 0 else Total(sent, i - 1) + DurationAt(sent, i - 1)
  }

  lemma {:induction false} TotalExtends(sent: seq<Sent>, more: Sent, i: nat)
    requires i <= |sent|
    ensures Total(sent + [more], i) == Total(sent, i)
  {
    if i > 0 {
      TotalExtends(sent, more, i - 1);
    }
  }

  /** The fragment that belongs at place `i`. */
  function FragmentAt(sent: seq<Sent>, i: nat): Octets
    requires i < |sent|
  {
    FragmentBytes(i + 1, sent[i].frame.keyframe, Total(sent, i), DurationAt(sent, i),
                  LengthPrefixed(Media(Nals(sent[i].frame))))
  }

  ghost predicate Sound(r: Run, frames: seq<Frame>) {
    && r.mux.sps == Known(frames, SPS) && r.mux.pps == Known(frames, PPS)
    && |r.log| == |Accepted(frames)| && r.mux.number == |r.log| + 1
    && r.mux.base == Total(Accepted(frames), |r.log|)
    && r.mux.last == (if r.log == [] then None else Some(Accepted(frames)[|r.log| - 1].frame.ts))
    && forall i :: 0 <= i < |r.log| ==>
         r.log[i].sent == Accepted(frames)[i] && r.log[i].bytes == FragmentAt(Accepted(frames), i)
  }

  lemma EmissionIs(m: Mux, f: Frame)
    ensures var g, nals := Gathering(m, f), Nals(f);
            && g.media == Media(nals) && g.sps == Latest(nals, SPS, m.sps) && g.pps == Latest(nals, PPS, m.pps)
            && (g.changed <==> Touched(nals, SPS, m.sps) || Touched(nals, PPS, m.pps))
            && MuxAfter(m, f).sps == g.sps && MuxAfter(m, f).pps == g.pps
            && (Segments(m, f).Some? <==> Sends(g))
            && (Sends(g) ==> var out := Segments(m, f).value;
                             0 < |out| <= 2 && out[|out| - 1] == FragmentFor(m, f) && (|out| == 2 <==> NeedsInit(m, g, f)))
  {
    hide AnnexB.Split, InitSegment, FragmentBytes, LengthPrefixed;
    var nals := Nals(f);
    GatherIs(Gathered(m.sps, m.pps, false, []), nals);
    assert [] + Media(nals) == Media(nals);
  }

  lemma OneMore(frames: seq<Frame>, f: Frame)
    ensures Known(frames + [f], SPS) == Latest(Nals(f), SPS, Known(frames, SPS))
    ensures Known(frames + [f], PPS) == Latest(Nals(f), PPS, Known(frames, PPS))
    ensures var sps, pps := Known(frames + [f], SPS), Known(frames + [f], PPS);
            Accepted(frames + [f])
            == if sps.Some? && pps.Some? && Media(Nals(f)) != [] then Accepted(frames) + [Sent(f, sps.value, pps.value)]
               else Accepted(frames)
    ensures Exec(frames + [f]) == Step(Exec(frames), f)
  {
    hide Step, Latest, Media, AnnexB.Split;
    var all := frames + [f];
    assert all[..|all| - 1] == frames;
  }

  lemma PlacesStay(sent: seq<Sent>, more: Sent)
    ensures forall i :: 0 <= i < |sent| ==> FragmentAt(sent + [more], i) == FragmentAt(sent, i)
    ensures Total(sent + [more], |sent|) == Total(sent, |sent|)
    ensures Total(sent + [more], |sent| + 1) == Total(sent, |sent|) + DurationAt(sent + [more], |sent|)
  {
    hide AnnexB.Split, FragmentBytes, LengthPrefixed, Media;
    forall i | 0 <= i <= |sent|
      ensures Total(sent + [more], i) == Total(sent, i)
    {
      TotalExtends(sent, more, i);
    }
  }

  lemma StepIsSound(frames: seq<Frame>, f: Frame, r: Run)
    requires Sound(r, frames)
    ensures Sound(Step(r, f), frames + [f])
  {
    hide AnnexB.Split, InitSegment, FragmentBytes, LengthPrefixed, ReadParams, Gather, Media, Latest, Known, Accepted,
         Total, Gathering, Exec, FragmentFor, FragmentAt, DurationAt, Duration, Segments;
    EmissionIs(r.mux, f);
    OneMore(frames, f);
    if Sends(Gathering(r.mux, f)) {
      var more := Accepted(frames + [f])[|Accepted(frames)|];
      PlacesStay(Accepted(frames), more);
      NewFragment(r.mux, f, Accepted(frames) + [more]);
    }
  }

  lemma NewFragment(m: Mux, f: Frame, sent: seq<Sent>)
    requires sent != [] && sent[|sent| - 1].frame == f && m.number == |sent|
    requires m.base == Total(sent, |sent| - 1) && Gathering(m, f).media == Media(Nals(f))
    requires m.last == (if |sent| == 1 then None else Some(sent[|sent| - 2].frame.ts))
    ensures FragmentFor(m, f) == FragmentAt(sent, |sent| - 1)
    ensures Duration(m.last, f.ts) == DurationAt(sent, |sent| - 1)
  {
    hide AnnexB.Split, FragmentBytes, LengthPrefixed, Gather, Media, Total, Gathering;
  }

  lemma NothingRun()
    ensures Sound(Exec([]), []) && Exec([]) == Run(NewMux, [], None)
  {
  }

  lemma {:induction false} RunsAreSound(frames: seq<Frame>)
    ensures Sound(Exec(frames), frames)
  {
    hide Step, Sound, Exec;
    if frames == [] {
      NothingRun();
    } else {
      var before, f := frames[..|frames| - 1], frames[|frames| - 1];
      RunsAreSound(before);
      StepIsSound(before, f, Exec(before));
      OneMore(before, f);
      assert frames == before + [f];
    }
  }

  // ---------------------------------------------------------------- main results

  /** One fragment per accepted unit and nothing else. */
  lemma OneFragmentEach(frames: seq<Frame>)
    ensures SentOf(Exec(frames).log) == Accepted(frames)
  {
    RunsAreSound(frames);
    SentOfIs(Exec(frames).log, Accepted(frames));
  }

  lemma {:induction false} SentOfIs(log: seq<Emission>, sent: seq<Sent>)
    requires |log| == |sent| && forall i :: 0 <= i < |log| ==> log[i].sent == sent[i]
    ensures SentOf(log) == sent
  {
    if log != [] {
      SentOfIs(log[..|log| - 1], sent[..|sent| - 1]);
    }
  }

  /** The fragment as the format's reader should see it. */
  function Expected(sent: seq<Sent>, i: nat): Fragment
    requires i < |sent|
  {
    Fragment(i + 1, SampleFlags(sent[i].frame.keyframe), Total(sent, i), 108, DurationAt(sent, i),
             LengthPrefixed(Media(Nals(sent[i].frame))))
  }

  /** In any run, fragment `i` reads back with the next number, the sum of the
      earlier durations as decode time and its own payload at the data offset, if
      and only if neither the number nor the time spells "trun"; the payload is the
      unit's media NAL units in order. */
  lemma EveryFragmentReadsBack(frames: seq<Frame>, i: nat)
    requires i < |Exec(frames).log| && i < |Accepted(frames)|
    requires i + 1 < U32 && Total(Accepted(frames), i) < U64
    requires |LengthPrefixed(Media(Nals(Accepted(frames)[i].frame)))| + 8 < U32
    ensures ReadFragment(Exec(frames).log[i].bytes) == Some(Expected(Accepted(frames), i))
            <==> Searchable(i + 1, Total(Accepted(frames), i))
    ensures ParsePrefixed(Expected(Accepted(frames), i).sample) == Some(Media(Nals(Accepted(frames)[i].frame)))
  {
    hide Exec, Accepted, ReadFragment, FragmentBytes, Searchable, LengthPrefixed, ParsePrefixed, AnnexB.Split;
    RunsAreSound(frames);
    var sent := Accepted(frames);
    var sample := LengthPrefixed(Media(Nals(sent[i].frame)));
    FragmentReadsBack(i + 1, sent[i].frame.keyframe, Total(sent, i), DurationAt(sent, i), sample);
    PrefixedReadsBack(Media(Nals(sent[i].frame)));
  }

  /** While both stay below 0x7472756e: 1.9 billion frames, six hours of them. */
  lemma EarlyFragmentsReadBack(frames: seq<Frame>, i: nat)
    requires i < |Exec(frames).log| && i < |Accepted(frames)|
    requires i + 1 < TRUN && Total(Accepted(frames), i) < TRUN
    requires |LengthPrefixed(Media(Nals(Accepted(frames)[i].frame)))| + 8 < U32
    ensures ReadFragment(Exec(frames).log[i].bytes) == Some(Expected(Accepted(frames), i))
  {
    hide Exec, Accepted, ReadFragment, Searchable, LengthPrefixed, AnnexB.Split, Total, Expected, Media;
    EveryFragmentReadsBack(frames, i);
    SmallNumbersAreSearchable(i + 1, Total(Accepted(frames), i));
  }

  // ------------------------------------------------------------ a run that spells it

  /** The unit holds both parameter sets and one slice. */
  predicate Whole(f: Frame, sps: Octets, pps: Octets, slice: Octets) {
    && Nals(f) == [sps, pps, slice] && NalType(sps) == SPS && NalType(pps) == PPS
    && NalType(slice) != SPS && NalType(slice) != PPS
  }

  lemma WholeUnit(f: Frame, sps: Octets, pps: Octets, slice: Octets, kind: nat, before: Option<Octets>)
    requires Whole(f, sps, pps, slice)
    ensures Media(Nals(f)) == [slice]
    ensures Latest(Nals(f), SPS, before) == Some(sps) && Latest(Nals(f), PPS, before) == Some(pps)
  {
    hide NalType, AnnexB.Split;
    assert [sps, pps, slice][1..] == [pps, slice] && [pps, slice][1..] == [slice] && [slice][1..] == [];
    assert Media([slice]) == [slice] && Media([pps, slice]) == [slice];
    assert Latest([slice], PPS, Some(pps)) == Some(pps) && Latest([slice], SPS, Some(sps)) == Some(sps);
    assert Latest([pps, slice], PPS, before) == Some(pps) && Latest([pps, slice], SPS, Some(sps)) == Some(sps);
  }

  lemma {:induction false} WholeUnitsAreSent(frames: seq<Frame>, sps: Octets, pps: Octets, slice: Octets)
    requires forall i :: 0 <= i < |frames| ==> Whole(frames[i], sps, pps, slice)
    ensures |Accepted(frames)| == |frames| && forall i :: 0 <= i < |frames| ==> Accepted(frames)[i].frame == frames[i]
  {
    hide Whole, Media, Latest, AnnexB.Split;
    if frames != [] {
      var before, f := frames[..|frames| - 1], frames[|frames| - 1];
      assert frames == before + [f];
      WholeUnitsAreSent(before, sps, pps, slice);
      WholeUnit(f, sps, pps, slice, SPS, Known(before, SPS));
      WholeUnit(f, sps, pps, slice, PPS, Known(before, PPS));
      OneMore(before, f);
    }
  }

  /** Units captured at one time count as 3000 ticks each. */
  lemma {:induction false} EqualTimes(sent: seq<Sent>, n: nat)
    requires n <= |sent| && forall i :: 0 <= i < n ==> sent[i].frame.ts == 0
    ensures Total(sent, n) == 3_000 * n
  {
    if n > 0 {
      EqualTimes(sent, n - 1);
    }
  }

  const STEADY := 651_219

  /** 651 219 units captured at one time, then two 13 578 microseconds later. */
  function SpellingRun(payload: Octets): seq<Frame> {
    seq(STEADY, _ => Frame(payload, true, 0, 2, 2)) + [Frame(payload, true, 13_578, 2, 2), Frame(payload, true, 13_578, 2, 2)]
  }

  /** The decode time of the last fragment spells "trun", and it does not read back. */
  lemma SpellingRunFails(payload: Octets, sps: Octets, pps: Octets, slice: Octets)
    requires Whole(Frame(payload, true, 0, 2, 2), sps, pps, slice) && |LengthPrefixed([slice])| + 8 < U32
    ensures var frames := SpellingRun(payload);
            && |Exec(frames).log| == |Accepted(frames)| == STEADY + 2 && Total(Accepted(frames), STEADY + 1) == TRUN
            && ReadFragment(Exec(frames).log[STEADY + 1].bytes) != Some(Expected(Accepted(frames), STEADY + 1))
  {
    hide Exec, Accepted, Known, ReadFragment, Expected, LengthPrefixed, AnnexB.Split, NalType, Searchable, Sound, Total, Media;
    var frames := SpellingRun(payload);
    forall i | 0 <= i < |frames|
      ensures Whole(frames[i], sps, pps, slice)
    {
    }
    WholeUnitsAreSent(frames, sps, pps, slice);
    var sent := Accepted(frames);
    EqualTimes(sent, STEADY);
    LastStep(sent, STEADY);
    LogLength(frames);
    WholeUnit(frames[STEADY + 1], sps, pps, slice, SPS, None);
    EveryFragmentReadsBack(frames, STEADY + 1);
    TrunSpellsItself(STEADY + 2);
  }

  lemma LastStep(sent: seq<Sent>, n: nat)
    requires 0 < n < |sent| && sent[n - 1].frame.ts == 0 && sent[n].frame.ts == 13_578
    ensures Total(sent, n + 1) == Total(sent, n) + 1_222
  {
  }

  lemma LogLength(frames: seq<Frame>)
    ensures |Exec(frames).log| == |Accepted(frames)|
  {
    hide Exec, Accepted, Known;
    RunsAreSound(frames);
  }

  /** There is such a payload. */
  lemma SuchPayloadExists() returns (payload: Octets, sps: Octets, pps: Octets, slice: Octets)
    ensures Whole(Frame(payload, true, 0, 2, 2), sps, pps, slice) && |LengthPrefixed([slice])| + 8 < U32
  {
    hide AnnexB.Split, AnnexB.Join;
    sps, pps, slice := [0x67, 1, 2, 3], [0x68, 1], [0x65, 1];
    payload := AnnexB.Join([AnnexB.Unit(true, sps), AnnexB.Unit(true, pps), AnnexB.Unit(true, slice)]);
    ThreeUnits(sps, pps, slice);
    OneSample(slice);
  }

  lemma OneSample(slice: Octets)
    requires |slice| == 2
    ensures |LengthPrefixed([slice])| == 6
  {
    assert [slice][1..] == [] && LengthPrefixed([]) == [];
  }

  lemma ThreeUnits(a: Octets, b: Octets, c: Octets)
    requires AnnexB.Unit(true, a).WellFormed() && AnnexB.Unit(true, b).WellFormed() && AnnexB.Unit(true, c).WellFormed()
    ensures AnnexB.Split(AnnexB.Join([AnnexB.Unit(true, a), AnnexB.Unit(true, b), AnnexB.Unit(true, c)])) == [a, b, c]
  {
    hide AnnexB.Split, AnnexB.Join;
    var all := [AnnexB.Unit(true, a), AnnexB.Unit(true, b), AnnexB.Unit(true, c)];
    AnnexB.SplitInvertsJoin(all);
    assert all[1..] == [all[1], all[2]] && all[1..][1..] == [all[2]] && all[1..][1..][1..] == [];
    assert AnnexB.Nals([all[2]]) == [c] && AnnexB.Nals([all[1], all[2]]) == [b, c];
  }

  // ------------------------------------------------------- parameter sets announced

  /** The parameter sets of the unit fit the 16-bit lengths of an init segment. */
  predicate ShortParams(f: Frame) {
    forall n :: n in Nals(f) && (NalType(n) == SPS || NalType(n) == PPS) ==> |n| < 65_536
  }

  /** The unit brings a parameter set that differs from the newest before it. */
  predicate Touches(frames: seq<Frame>, f: Frame) {
    Touched(Nals(f), SPS, Known(frames, SPS)) || Touched(Nals(f), PPS, Known(frames, PPS))
  }

  function Both(frames: seq<Frame>): Option<(Octets, Octets)> {
    if Known(frames, SPS).Some? && Known(frames, PPS).Some?
    then Some((Known(frames, SPS).value, Known(frames, PPS).value)) else None
  }

  predicate ShortKnown(frames: seq<Frame>) {
    && (Known(frames, SPS).Some? ==> |Known(frames, SPS).value| < 65_536)
    && (Known(frames, PPS).Some? ==> |Known(frames, PPS).value| < 65_536)
  }

  lemma {:induction false} LatestIsShort(nals: seq<Octets>, kind: nat, before: Option<Octets>)
    requires before.Some? ==> |before.value| < 65_536
    requires forall n :: n in nals && NalType(n) == kind ==> |n| < 65_536
    ensures Latest(nals, kind, before).Some? ==> |Latest(nals, kind, before).value| < 65_536
    decreases |nals|
  {
    hide NalType;
    if nals != [] {
      assert nals[0] in nals;
      LatestIsShort(nals[1..], kind, if NalType(nals[0]) == kind then Some(nals[0]) else before);
    }
  }

  /** The unit is sent, and an init segment before it. */
  predicate Announces(frames: seq<Frame>, f: Frame) {
    && Both(frames + [f]).Some? && Media(Nals(f)) != []
    && (Touches(frames, f) || (f.keyframe && Accepted(frames) == []))
  }

  /** What one more unit does to what has been told. */
  lemma TellsAfter(frames: seq<Frame>, f: Frame, r: Run)
    requires Sound(r, frames) && ShortKnown(frames) && ShortParams(f)
    ensures ShortKnown(frames + [f])
    ensures var t, both, media := Step(r, f), Both(frames + [f]), Media(Nals(f));
            && t.told == (if Announces(frames, f) then both else r.told)
            && (both.None? || media == [] ==> t.log == r.log)
            && (both.Some? && media != [] ==>
                  && |t.log| == |r.log| + 1 && t.log[..|r.log|] == r.log && t.log[|r.log|].told == t.told
                  && both == Some((t.log[|r.log|].sent.sps, t.log[|r.log|].sent.pps)))
  {
    hide AnnexB.Split, InitSegment, FragmentBytes, LengthPrefixed, ReadParams, Gather, Media, Latest, ShortParams, Touched;
    EmissionIs(r.mux, f);
    hide Known, Accepted, Exec, Gathering, FragmentAt, Total;
    OneMore(frames, f);
    KnownIsShort(frames, f);
    var g := Gathering(r.mux, f);
    if Sends(g) && NeedsInit(r.mux, g, f) {
      InitReadsBack(g.sps.value, g.pps.value, f.width, f.height);
    }
  }

  lemma KnownIsShort(frames: seq<Frame>, f: Frame)
    requires ShortKnown(frames) && ShortParams(f)
    ensures ShortKnown(frames + [f])
  {
    assert (frames + [f])[..|frames|] == frames;
    LatestIsShort(Nals(f), SPS, Known(frames, SPS));
    LatestIsShort(Nals(f), PPS, Known(frames, PPS));
  }

  /** Every fragment so far went out after its own parameter sets were told. */
  ghost predicate ToldInTime(log: seq<Emission>) {
    forall i :: 0 <= i < |log| ==> log[i].told == Some((log[i].sent.sps, log[i].sent.pps))
  }

  /** The parameter sets at the last unit that was sent and either brought a new one
      or was a keyframe and the first unit sent. */
  function Announced(frames: seq<Frame>): Option<(Octets, Octets)> {
    if frames == [] then None
    else
      var before, f := frames[..|frames| - 1], frames[|frames| - 1];
      if Announces(before, f) then Both(frames) else Announced(before)
  }

  /** At every unit sent the newest parameter sets are the announced ones. */
  predicate InTime(frames: seq<Frame>) {
    frames == [] ||
    var before, f := frames[..|frames| - 1], frames[|frames| - 1];
    InTime(before) && (Both(frames).Some? && Media(Nals(f)) != [] ==> Announced(frames) == Both(frames))
  }

  lemma NothingKnown()
    ensures ShortKnown([]) && ToldInTime(Exec([]).log) && Exec([]).told == None
  {
  }

  lemma OneMoreTold(log: seq<Emission>, e: Emission)
    ensures ToldInTime(log + [e]) <==> ToldInTime(log) && e.told == Some((e.sent.sps, e.sent.pps))
  {
    var all := log + [e];
    assert all[..|log|] == log && all[|log|] == e;
    if ToldInTime(all) {
      forall i | 0 <= i < |log|
        ensures log[i].told == Some((log[i].sent.sps, log[i].sent.pps))
      {
        assert all[i] == log[i];
      }
    }
  }

  /** In every run a decoder knows, fragment by fragment, the parameter sets in force
      exactly when at each unit sent the newest sets are the announced ones: when no
      set came in a unit without media and stayed newest until a fragment. */
  lemma {:induction false} ToldIffInTime(frames: seq<Frame>)
    requires forall i :: 0 <= i < |frames| ==> ShortParams(frames[i])
    ensures ToldInTime(Exec(frames).log) <==> InTime(frames)
    ensures ShortKnown(frames) && Exec(frames).told == Announced(frames)
  {
    hide Step, Known, Media, AnnexB.Split, ShortParams, Exec, Accepted, Sound, Announces, ToldInTime;
    if frames == [] {
      NothingKnown();
    } else {
      var before, f := frames[..|frames| - 1], frames[|frames| - 1];
      assert frames == before + [f];
      ToldIffInTime(before);
      RunsAreSound(before);
      OneMore(before, f);
      TellsAfter(before, f, Exec(before));
      var r, t := Exec(before), Exec(frames);
      if Both(frames).Some? && Media(Nals(f)) != [] {
        OneMoreTold(r.log, t.log[|r.log|]);
        assert t.log == r.log + [t.log[|r.log|]];
      }
    }
  }

  lemma OneNal(n: Octets, kind: nat, before: Option<Octets>)
    ensures Media([n]) == if NalType(n) == SPS || NalType(n) == PPS then [] else [n]
    ensures Latest([n], kind, before) == if NalType(n) == kind then Some(n) else before
    ensures Touched([n], kind, before) <==> NalType(n) == kind && Some(n) != before
  {
    hide NalType;
    assert [n][1..] == [];
    assert Media([]) == [] && !Touched([], kind, before) && !Touched([], kind, Some(n));
  }

  lemma TwoSets(sps: Octets, pps: Octets)
    requires NalType(sps) == SPS && NalType(pps) == PPS
    ensures Media([sps, pps]) == []
    ensures Latest([sps, pps], SPS, None) == Some(sps) && Latest([sps, pps], PPS, None) == Some(pps)
  {
    hide NalType, Touched;
    assert [sps, pps][1..] == [pps];
    OneNal(pps, SPS, Some(sps));
    OneNal(pps, PPS, None);
  }

  /** Parameter sets sent by themselves before a delta unit are never announced. */
  lemma SetsAloneGoUnannounced(alone: Frame, delta: Frame, sps: Octets, pps: Octets, slice: Octets)
    requires NalType(sps) == SPS && NalType(pps) == PPS && NalType(slice) != SPS && NalType(slice) != PPS
    requires Nals(alone) == [sps, pps] && Nals(delta) == [slice] && !delta.keyframe
    ensures !InTime([alone, delta]) && |Accepted([alone, delta])| == 1
  {
    hide AnnexB.Split, NalType, Latest, Media, Touched;
    assert [] + [alone] == [alone] && [alone] + [delta] == [alone, delta];
    assert [alone, delta][..1] == [alone] && [alone][..0] == [];
    TwoSets(sps, pps);
    OneNal(slice, SPS, Some(sps));
    OneNal(slice, PPS, Some(pps));
    OneMore([], alone);
    OneMore([alone], delta);
    assert Both([alone, delta]) == Some((sps, pps)) && Announced([alone]) == None;
  }

  lemma TwoUnits(a: Octets, b: Octets)
    requires AnnexB.Unit(true, a).WellFormed() && AnnexB.Unit(true, b).WellFormed()
    ensures AnnexB.Split(AnnexB.Join([AnnexB.Unit(true, a), AnnexB.Unit(true, b)])) == [a, b]
    ensures AnnexB.Split(AnnexB.Join([AnnexB.Unit(true, a)])) == [a]
  {
    hide AnnexB.Split, AnnexB.Join;
    var one, two := [AnnexB.Unit(true, a)], [AnnexB.Unit(true, a), AnnexB.Unit(true, b)];
    AnnexB.SplitInvertsJoin(one);
    AnnexB.SplitInvertsJoin(two);
    assert one[1..] == [] && two[1..] == [two[1]] && two[1..][1..] == [];
  }

  /** There are such units. */
  lemma SuchUnitsExist() returns (alone: Frame, delta: Frame, sps: Octets, pps: Octets, slice: Octets)
    ensures NalType(sps) == SPS && NalType(pps) == PPS && NalType(slice) != SPS && NalType(slice) != PPS
    ensures Nals(alone) == [sps, pps] && Nals(delta) == [slice] && !delta.keyframe
  {
    hide AnnexB.Split, AnnexB.Join;
    sps, pps, slice := [0x67, 1, 2, 3], [0x68, 1], [0x41, 1];
    TwoUnits(sps, pps);
    TwoUnits(slice, slice);
    alone := Frame(AnnexB.Join([AnnexB.Unit(true, sps), AnnexB.Unit(true, pps)]), true, 0, 2, 2);
    delta := Frame(AnnexB.Join([AnnexB.Unit(true, slice)]), false, 0, 2, 2);
  }

  // -------------------------------------------------------------------- the clock

  /** A gap in capture time, in microseconds, that a duration is taken from. */
  predicate Plausible(gap: int) { 1_000 < gap < 1_000_000 }

  /** A duration is the gap to the frame before in 90 kHz ticks, to the nearest; a gap out
      of bounds, or the first frame, counts as a thirtieth of a second. */
  lemma DurationIsGap(sent: seq<Sent>, i: nat)
    requires i < |sent|
    ensures if i > 0 && Plausible(sent[i].frame.ts - sent[i - 1].frame.ts)
            then -50 <= 100 * DurationAt(sent, i) - 9 * (sent[i].frame.ts - sent[i - 1].frame.ts) <= 50
            else DurationAt(sent, i) == 3_000
  {
  }

  /** So decode times follow capture times: while every gap is plausible, the decode time
      of fragment `i` lies the first frame's thirtieth of a second past the capture time
      of the frame before it, to half a tick a frame. */
  lemma {:induction false} ClockFollowsCapture(sent: seq<Sent>, i: nat)
    requires 0 < i <= |sent|
    requires forall j :: 0 < j < i ==> Plausible(sent[j].frame.ts - sent[j - 1].frame.ts)
    ensures -50 * i <= 100 * (Total(sent, i) - 3_000) - 9 * (sent[i - 1].frame.ts - sent[0].frame.ts) <= 50 * i
  {
    hide DurationAt;
    DurationIsGap(sent, i - 1);
    if i > 1 {
      ClockFollowsCapture(sent, i - 1);
    }
  }
}
