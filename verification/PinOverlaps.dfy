/**
 The PIN under single lock accesses. A pairing proof reads the PIN under one lock and,
 when it is decided, marks it used or rotates it under another; in between any other
 connection may do the same. Legacy pairing reads at the confirm, SPAKE2 at the start.
 */
module PinOverlaps {
  import opened Options

  /** One proof: when it read which PIN, and when it was decided. */
  datatype Try = Try(readAt: nat, pin: nat, decidedAt: Option<nat>, paired: bool)

  /** `rotations` are the times at which a new PIN came in, one for each PIN but the
      first; the PIN is their number. */
  datatype State = State(used: bool, rotations: seq<nat>, tries: seq<Try>, clock: nat)

  datatype Choice = Read(expired: bool) | Decide(i: nat, matches: bool) | Rotate

  function Rotated(s: State): State {
    s.(used := false, rotations := s.rotations + [s.clock])
  }

  /** current_pin: a used or expired PIN is rotated before it is given out. */
  function OnRead(s: State, expired: bool): State {
    var t := if s.used || expired then Rotated(s) else s;
    t.(tries := t.tries + [Try(s.clock, |t.rotations|, None, false)])
  }

  /** A match consumes whatever PIN is current, a mismatch rotates it. */
  function OnDecide(s: State, i: nat, matches: bool): State {
    if i >= |s.tries| || s.tries[i].decidedAt.Some? then s
    else
      var t := if matches then s.(used := true) else Rotated(s);
      t.(tries := t.tries[i := t.tries[i].(decidedAt := Some(s.clock), paired := matches)])
  }

  function Step(s: State, c: Choice): State {
    var t := match c
      case Read(expired) => OnRead(s, expired)
      case Decide(i, matches) => OnDecide(s, i, matches)
      case Rotate => Rotated(s);
    t.(clock := s.clock + 1)
  }

  function Exec(run: seq<Choice>): State {
    if run == [] then State(false, [], [], 0) else Step(Exec(run[..|run| - 1]), run[|run| - 1])
  }

  // -------------------------------------------------------------------- invariant

  /** The PIN a try read is the number of rotations up to then. */
  ghost predicate ReadRight(s: State, t: Try) {
    && t.readAt < s.clock && t.pin <= |s.rotations|
    && forall m :: 0 <= m < |s.rotations| ==> (s.rotations[m] <= t.readAt <==> m < t.pin)
  }

  predicate DecidedBy(t: Try, time: nat) {
    t.decidedAt.Some? && t.decidedAt.value <= time
  }

  ghost predicate Timely(s: State) {
    (forall m :: 0 <= m < |s.rotations| ==> s.rotations[m] < s.clock)
    && forall i, j :: 0 <= i < j < |s.tries| ==> s.tries[i].readAt < s.tries[j].readAt
  }

  ghost predicate AllReadRight(s: State) {
    forall i :: 0 <= i < |s.tries| ==> ReadRight(s, s.tries[i])
  }

  /** A decided try's PIN is used up. */
  predicate Settled(s: State, t: Try) {
    t.decidedAt.Some? ==> t.readAt < t.decidedAt.value < s.clock && (s.used || t.pin < |s.rotations|)
  }

  ghost predicate AllSettled(s: State) {
    forall i :: 0 <= i < |s.tries| ==> Settled(s, s.tries[i])
  }

  /** What is read after a decision is another PIN. */
  predicate After(t: Try, u: Try) {
    DecidedBy(t, u.readAt) ==> t.pin < u.pin
  }

  ghost predicate AllAfter(s: State) {
    forall i, j :: 0 <= i < |s.tries| && 0 <= j < |s.tries| ==> After(s.tries[i], s.tries[j])
  }

  ghost predicate Inv(s: State) {
    Timely(s) && AllReadRight(s) && AllSettled(s) && AllAfter(s)
  }

  lemma ReadsStayRight(s: State, t: State, i: nat)
    requires Timely(s) && AllReadRight(s) && i < |s.tries| && i < |t.tries| && s.clock < t.clock
    requires t.rotations == s.rotations || t.rotations == s.rotations + [s.clock]
    requires t.tries[i].readAt == s.tries[i].readAt && t.tries[i].pin == s.tries[i].pin
    ensures ReadRight(t, t.tries[i])
  {
    assert ReadRight(s, s.tries[i]);
  }

  lemma RotateKeeps(s: State)
    requires Inv(s)
    ensures Inv(Step(s, Rotate))
  {
    hide ReadRight, After;
    var t := Step(s, Rotate);
    forall i | 0 <= i < |t.tries|
      ensures ReadRight(t, t.tries[i]) && Settled(t, t.tries[i])
    {
      ReadsStayRight(s, t, i);
      SettledByRotation(s, i);
    }
  }

  lemma SettledByRotation(s: State, i: nat)
    requires AllReadRight(s) && AllSettled(s) && i < |s.tries|
    ensures Settled(Step(s, Rotate), s.tries[i])
  {
    assert ReadRight(s, s.tries[i]) && Settled(s, s.tries[i]);
  }

  lemma ReadKeeps(s: State, expired: bool)
    requires Inv(s)
    ensures Inv(Step(s, Read(expired)))
  {
    hide ReadRight, After, Settled;
    var t, n := Step(s, Read(expired)), |s.tries|;
    forall i | 0 <= i < |t.tries|
      ensures ReadRight(t, t.tries[i]) && Settled(t, t.tries[i])
    {
      if i < n {
        ReadsStayRight(s, t, i);
        SettledByRead(s, expired, i);
      } else {
        NewRead(s, expired);
      }
    }
    forall i, j | 0 <= i < |t.tries| && 0 <= j < |t.tries|
      ensures After(t.tries[i], t.tries[j])
    {
      NewReadAfter(s, expired, i, j);
    }
    ReadIsTimely(s, expired);
  }

  lemma ReadIsTimely(s: State, expired: bool)
    requires Timely(s) && AllReadRight(s)
    ensures Timely(Step(s, Read(expired)))
  {
    forall i | 0 <= i < |s.tries|
      ensures s.tries[i].readAt < s.clock
    {
      assert ReadRight(s, s.tries[i]);
    }
  }

  lemma SettledByRead(s: State, expired: bool, i: nat)
    requires AllReadRight(s) && AllSettled(s) && i < |s.tries|
    ensures Settled(Step(s, Read(expired)), s.tries[i])
  {
    assert ReadRight(s, s.tries[i]) && Settled(s, s.tries[i]);
  }

  lemma NewRead(s: State, expired: bool)
    requires Timely(s)
    ensures var t, n := Step(s, Read(expired)), |s.tries|; ReadRight(t, t.tries[n]) && Settled(t, t.tries[n])
  {
  }

  lemma NewReadAfter(s: State, expired: bool, i: nat, j: nat)
    requires AllReadRight(s) && AllSettled(s) && AllAfter(s) && i <= |s.tries| && j <= |s.tries|
    ensures var t := Step(s, Read(expired)); After(t.tries[i], t.tries[j])
  {
    if i < |s.tries| {
      assert ReadRight(s, s.tries[i]) && Settled(s, s.tries[i]);
      if j < |s.tries| {
        assert After(s.tries[i], s.tries[j]);
      }
    }
  }

  lemma DecideKeeps(s: State, k: nat, matches: bool)
    requires Inv(s)
    ensures Inv(Step(s, Decide(k, matches)))
  {
    hide ReadRight, After, Settled;
    var t := Step(s, Decide(k, matches));
    forall i | 0 <= i < |t.tries|
      ensures ReadRight(t, t.tries[i]) && Settled(t, t.tries[i])
    {
      ReadsStayRight(s, t, i);
      SettledByDecision(s, k, matches, i);
    }
    forall i, j | 0 <= i < |t.tries| && 0 <= j < |t.tries|
      ensures After(t.tries[i], t.tries[j])
    {
      DecidedAfter(s, k, matches, i, j);
    }
  }

  lemma SettledByDecision(s: State, k: nat, matches: bool, i: nat)
    requires AllReadRight(s) && AllSettled(s) && i < |s.tries|
    ensures var t := Step(s, Decide(k, matches)); Settled(t, t.tries[i])
  {
    assert ReadRight(s, s.tries[i]) && Settled(s, s.tries[i]);
  }

  lemma DecidedAfter(s: State, k: nat, matches: bool, i: nat, j: nat)
    requires AllReadRight(s) && AllAfter(s) && i < |s.tries| && j < |s.tries|
    ensures var t := Step(s, Decide(k, matches)); After(t.tries[i], t.tries[j])
  {
    assert After(s.tries[i], s.tries[j]) && ReadRight(s, s.tries[j]);
  }

  lemma {:induction false} EveryRunIsSound(run: seq<Choice>)
    ensures Inv(Exec(run))
  {
    hide Inv, Step;
    if run == [] {
      NothingRead();
    } else {
      var before := run[..|run| - 1];
      EveryRunIsSound(before);
      match run[|run| - 1]
      case Read(expired) => ReadKeeps(Exec(before), expired);
      case Decide(i, matches) => DecideKeeps(Exec(before), i, matches);
      case Rotate => RotateKeeps(Exec(before));
    }
  }

  lemma NothingRead()
    ensures Inv(Exec([]))
  {
  }

  // ---------------------------------------------------------------- main results

  /** A new PIN came in after the first read and by the second. */
  predicate RotatedBetween(s: State, i: nat, j: nat)
    requires i < |s.tries| && j < |s.tries|
  {
    exists m :: 0 <= m < |s.rotations| && s.tries[i].readAt < s.rotations[m] <= s.tries[j].readAt
  }

  /** Over any run two tries read one PIN if and only if none came in between their
      reads. */
  lemma SharedIffNoneBetween(run: seq<Choice>, i: nat, j: nat)
    requires i < j < |Exec(run).tries|
    ensures Exec(run).tries[i].pin == Exec(run).tries[j].pin <==> !RotatedBetween(Exec(run), i, j)
  {
    hide Exec;
    EveryRunIsSound(run);
    var s := Exec(run);
    var a, b := s.tries[i], s.tries[j];
    assert ReadRight(s, a) && ReadRight(s, b);
    assert b.pin < |s.rotations| ==> b.readAt < s.rotations[b.pin];
    assert a.pin <= b.pin;
    if a.pin < b.pin {
      assert a.readAt < s.rotations[a.pin] <= b.readAt;
    }
  }

  /** Over any run each PIN decides at most one proof if and only if no proof is read
      between another's read and its decision with no new PIN in between. When every
      proof reads and decides in one go, there is no such pair. */
  lemma SingleUseIffApart(run: seq<Choice>)
    ensures var s := Exec(run);
            (forall i: nat, j: nat :: i < j < |s.tries| && BothDecided(s, i, j) ==> s.tries[i].pin != s.tries[j].pin)
            <==> (forall i: nat, j: nat :: i < j < |s.tries| && BothDecided(s, i, j) ==> !Overlap(s, i, j))
  {
    hide Exec;
    EveryRunIsSound(run);
    var s := Exec(run);
    forall i: nat, j: nat | i < j < |s.tries| && BothDecided(s, i, j)
      ensures s.tries[i].pin == s.tries[j].pin <==> Overlap(s, i, j)
    {
      SharedIffNoneBetween(run, i, j);
      assert After(s.tries[i], s.tries[j]);
    }
  }

  predicate BothDecided(s: State, i: nat, j: nat)
    requires i < j < |s.tries|
  {
    s.tries[i].decidedAt.Some? && s.tries[j].decidedAt.Some?
  }

  /** Try `j` reads before the earlier try `i` is decided, and no PIN comes in between. */
  predicate Overlap(s: State, i: nat, j: nat)
    requires i < j < |s.tries| && BothDecided(s, i, j)
  {
    s.tries[j].readAt < s.tries[i].decidedAt.value && !RotatedBetween(s, i, j)
  }

  /** Two confirms that both read before either is decided pair on one PIN. */
  lemma TwoReadsPairTwice()
    ensures var s := Exec([Read(false), Read(false), Decide(0, true), Decide(1, true)]);
            |s.tries| == 2 && s.tries[0].paired && s.tries[1].paired && s.tries[0].pin == s.tries[1].pin == 0
  {
    var a, b, c, d := Read(false), Read(false), Decide(0, true), Decide(1, true);
    assert [a][..0] == [] && [a, b][..1] == [a] && [a, b, c][..2] == [a, b] && [a, b, c, d][..3] == [a, b, c];
    assert Exec([a]).tries == [Try(0, 0, None, false)];
    assert Exec([a, b]).tries == [Try(0, 0, None, false), Try(1, 0, None, false)];
    assert Exec([a, b, c]).tries == [Try(0, 0, Some(2), true), Try(1, 0, None, false)];
  }

  /** A proof has matched since the newest PIN came in. */
  predicate MatchedSince(run: seq<Choice>) {
    run != [] &&
    var before, c := run[..|run| - 1], run[|run| - 1];
    var s, t := Exec(before), Exec(run);
    || (c.Decide? && c.matches && c.i < |s.tries| && s.tries[c.i].decidedAt.None?)
    || (|t.rotations| == |s.rotations| && MatchedSince(before))
  }

  lemma {:induction false} UsedIsMatched(run: seq<Choice>)
    ensures Exec(run).used == MatchedSince(run)
  {
    if run != [] {
      UsedIsMatched(run[..|run| - 1]);
    }
  }

  /** A read takes a new PIN exactly when the old one has expired or a proof has matched
      since it came in; else it takes that one, and changes nothing. */
  lemma ReadTakesNewIff(run: seq<Choice>, expired: bool)
    ensures var s, t := Exec(run), Exec(run + [Read(expired)]);
            var isNew := expired || MatchedSince(run);
            && t.tries == s.tries + [Try(s.clock, |s.rotations| + if isNew then 1 else 0, None, false)]
            && (if isNew then t.rotations == s.rotations + [s.clock] && !t.used else t.rotations == s.rotations && t.used == s.used)
  {
    hide MatchedSince;
    UsedIsMatched(run);
    assert (run + [Read(expired)])[..|run|] == run;
  }
}
