/**
 Annex-B byte streams (section B.1 of ITU-T H.264): NAL units behind start codes of
 three or four bytes. Two splitters, one per viewer, and the host's header scan.
 */
module AnnexB {
  import opened Bytes

  /** Length of the start code at `i`; 0 when there is none. */
  function CodeLen(s: Octets, i: nat): (n: nat)
    ensures n > 0 ==> n == 3 || n == 4
    ensures i + n <= |s| || n == 0
  {
    if i + 2 < |s| && s[i] == 0 && s[i + 1] == 0 then
      if s[i + 2] == 1 then 3
      else if s[i + 2] == 0 && i + 3 < |s| && s[i + 3] == 1 then 4
      else 0
    else 0
  }

  /** Where the first start code from `i` on begins; |s| when none does. */
  function NextCode(s: Octets, i: nat): (j: nat)
    ensures i <= j || j == |s|
    ensures j <= |s| && (j < |s| ==> CodeLen(s, j) > 0)
    decreases |s| - i
  {
    if i + 2 >= |s| then |s| else if CodeLen(s, i) > 0 then i else NextCode(s, i + 1)
  }

  /** The NAL units of a stream whose current unit starts at `at`. */
  function UnitsFrom(s: Octets, at: nat): (units: seq<Octets>)
    requires at <= |s|
    decreases |s| - at
  {
    var j := NextCode(s, at);
    if j < |s| then [s[at..j]] + UnitsFrom(s, j + CodeLen(s, j))
    else if at < |s| then [s[at..]]
    else []
  }

  /** The NAL units of a stream; what precedes the first start code is dropped. */
  function Split(s: Octets): seq<Octets> {
    var j := NextCode(s, 0);
    if j < |s| then UnitsFrom(s, j + CodeLen(s, j)) else []
  }

  /** The units before `start` are split off, and no start code lies between
      `start` and `i`; a negative `start` means that none was found yet. */
  ghost predicate Splitting(s: Octets, nals: seq<Octets>, i: nat, start: int)
    requires start <= |s|
  {
    if start < 0 then nals == [] && NextCode(s, i) == NextCode(s, 0)
    else start <= i && NextCode(s, i) == NextCode(s, start) && Split(s) == nals + UnitsFrom(s, start)
  }

  lemma CodeIsNext(s: Octets, i: nat)
    requires CodeLen(s, i) > 0
    ensures NextCode(s, i) == i < |s| && i + CodeLen(s, i) <= |s|
  {
  }

  lemma OneUnit(s: Octets, at: nat)
    requires at <= |s| && NextCode(s, at) < |s|
    ensures var j := NextCode(s, at);
            at <= j && j + CodeLen(s, j) <= |s| && UnitsFrom(s, at) == [s[at..j]] + UnitsFrom(s, j + CodeLen(s, j))
  {
    hide NextCode, CodeLen;
  }

  lemma CodeFound(s: Octets, nals: seq<Octets>, i: nat, start: int)
    requires start <= |s| && CodeLen(s, i) > 0 && Splitting(s, nals, i, start)
    ensures Splitting(s, if start < 0 then nals else nals + [s[start..i]], i + CodeLen(s, i), i + CodeLen(s, i))
  {
    hide NextCode, CodeLen, UnitsFrom;
    CodeIsNext(s, i);
    if start >= 0 {
      OneUnit(s, start);
      Regroup(nals, [s[start..i]], UnitsFrom(s, i + CodeLen(s, i)));
    }
  }

  lemma StartSplitting(s: Octets)
    ensures Splitting(s, [], 0, -1)
  {
  }

  lemma CodeMissed(s: Octets, nals: seq<Octets>, i: nat, start: int)
    requires start <= |s| && i + 2 < |s| && CodeLen(s, i) == 0 && Splitting(s, nals, i, start)
    ensures Splitting(s, nals, i + 1, start)
  {
    hide UnitsFrom, CodeLen;
  }

  /** Too little is left for another start code. */
  lemma SplitEnds(s: Octets, nals: seq<Octets>, i: nat, start: int)
    requires start <= |s| && i + 2 >= |s| && Splitting(s, nals, i, start)
    ensures Split(s) == if 0 <= start < |s| then nals + [s[start..]] else nals
  {
    hide CodeLen;
    if start >= 0 {
      assert NextCode(s, start) == |s|;
      assert UnitsFrom(s, start) == if start < |s| then [s[start..]] else [];
    }
  }

  /** The web viewer's splitter. */
  method SplitNals(data: Octets) returns (nals: seq<Octets>)
    ensures nals == Split(data)
  {
    hide UnitsFrom, NextCode;
    StartSplitting(data);
    nals := [];
    var i: nat, start: int := 0, -1;
    while i + 2 < |data|
      invariant -1 <= start <= |data| && Splitting(data, nals, i, start)
      decreases |data| - i
    {
      if data[i] == 0 && data[i + 1] == 0
         && (data[i + 2] == 1 || (data[i + 2] == 0 && i + 3 < |data| && data[i + 3] == 1)) {
        var codeLen := if data[i + 2] == 1 then 3 else 4;
        CodeFound(data, nals, i, start);
        if start >= 0 {
          nals := nals + [data[start..i]];
        }
        start := i + codeLen;
        i := i + codeLen;
      } else {
        CodeMissed(data, nals, i, start);
        i := i + 1;
      }
    }
    SplitEnds(data, nals, i, start);
    if 0 <= start < |data| {
      nals := nals + [data[start..]];
    }
  }

  // ---------------------------------------------------------------- the iOS splitter

  /** Where the next 00 00 01 from `i` on begins; |s| when none does. */
  function NextThree(s: Octets, i: nat): (j: nat)
    ensures i <= j || j == |s|
    ensures j == |s| || (j + 3 <= |s| && s[j] == 0 && s[j + 1] == 0 && s[j + 2] == 1)
    decreases |s| - i
  {
    if i + 2 >= |s| then |s|
    else if s[i] == 0 && s[i + 1] == 0 && s[i + 2] == 1 then i
    else NextThree(s, i + 1)
  }

  /** As UnitsFrom, with one unit more, empty, after a start code that ends the stream. */
  function AllUnitsFrom(s: Octets, at: nat): seq<Octets>
    requires at <= |s|
  {
    UnitsFrom(s, at) + if EndsOnCode(s, at) then [[]] else []
  }

  /** Nothing follows the last start code from `at` on. */
  predicate EndsOnCode(s: Octets, at: nat)
    requires at <= |s|
    decreases |s| - at
  {
    var j := NextCode(s, at);
    if j < |s| then EndsOnCode(s, j + CodeLen(s, j)) else at == |s|
  }

  /** The units the iOS splitter reports. */
  function SwiftSplit(s: Octets): seq<Octets> {
    var j := NextCode(s, 0);
    if j < |s| then AllUnitsFrom(s, j + CodeLen(s, j)) else []
  }

  /** The two searches find the same start codes: a four-byte code is a zero byte
      and then a three-byte code. */
  lemma {:induction false} SameCodes(s: Octets, i: nat)
    ensures var j := NextCode(s, i);
            NextThree(s, i) == (if j == |s| then j else j + CodeLen(s, j) - 3)
    ensures var t := NextThree(s, i);
            t < |s| ==> (CodeLen(s, NextCode(s, i)) == 4 <==> t > i && s[t - 1] == 0)
    decreases |s| - i
  {
    if i + 2 < |s| && CodeLen(s, i) == 0 {
      SameCodes(s, i + 1);
      assert NextThree(s, i) == NextThree(s, i + 1);
      if NextThree(s, i + 1) == i + 1 && i + 1 < |s| {
        assert s[i] != 0;
      }
    } else if i + 2 < |s| && CodeLen(s, i) == 4 {
      assert NextThree(s, i) == NextThree(s, i + 1) == i + 1;
    }
  }

  ghost predicate SplittingThree(s: Octets, nals: seq<Octets>, i: nat, start: int)
    requires start <= |s|
  {
    if start < 0 then nals == [] && NextThree(s, i) == NextThree(s, 0)
    else 3 <= start <= i && s[start - 1] == 1 && NextThree(s, i) == NextThree(s, start)
         && SwiftSplit(s) == nals + AllUnitsFrom(s, start)
  }

  lemma AllUnitsStep(s: Octets, at: nat)
    requires at <= |s|
    ensures var j := NextCode(s, at);
            AllUnitsFrom(s, at)
            == if j < |s| then [s[at..j]] + AllUnitsFrom(s, j + CodeLen(s, j)) else [s[at..]]
  {
    var j := NextCode(s, at);
    if j < |s| {
      var next := j + CodeLen(s, j);
      Regroup([s[at..j]], UnitsFrom(s, next), if EndsOnCode(s, next) then [[]] else []);
    } else if at < |s| {
      assert AllUnitsFrom(s, at) == [s[at..]] + [];
    } else {
      assert s[at..] == [] && AllUnitsFrom(s, at) == [] + [[]];
    }
  }

  /** Where the code found lies, seen from the start of the current unit. */
  lemma CodeBehind(s: Octets, i: nat, from: nat)
    requires from <= i && i + 3 <= |s| && s[i] == 0 && s[i + 1] == 0 && s[i + 2] == 1
    requires NextThree(s, i) == NextThree(s, from)
    ensures var codeStart := if i > 0 && s[i - 1] == 0 then i - 1 else i;
            (from == 0 || s[from - 1] == 1) ==>
              from <= codeStart == NextCode(s, from) && codeStart + CodeLen(s, codeStart) == i + 3
  {
    assert NextThree(s, from) == i;
    SameCodes(s, from);
  }

  lemma ThreeFound(s: Octets, nals: seq<Octets>, i: nat, start: int)
    requires start <= |s| && i + 3 <= |s| && s[i] == 0 && s[i + 1] == 0 && s[i + 2] == 1
    requires SplittingThree(s, nals, i, start)
    ensures var codeStart := if i > 0 && s[i - 1] == 0 then i - 1 else i;
            && start <= codeStart
            && SplittingThree(s, if start < 0 then nals else nals + [s[start..codeStart]], i + 3, i + 3)
  {
    hide NextCode, CodeLen, UnitsFrom, EndsOnCode, NextThree, AllUnitsFrom;
    var codeStart := if i > 0 && s[i - 1] == 0 then i - 1 else i;
    CodeBehind(s, i, if start < 0 then 0 else start);
    if start >= 0 {
      AllUnitsStep(s, start);
      Regroup(nals, [s[start..codeStart]], AllUnitsFrom(s, i + 3));
    }
  }

  lemma NoneFound(s: Octets, nals: seq<Octets>, i: nat, start: int)
    requires start <= |s| && i + 2 >= |s| && SplittingThree(s, nals, i, start)
    ensures SwiftSplit(s) == if start < 0 then nals else nals + [s[start..]]
  {
    var from := if start < 0 then 0 else start;
    SameCodes(s, from);
    assert NextCode(s, from) == |s|;
    if start >= 0 {
      AllUnitsStep(s, start);
    }
  }

  method SplitAnnexB(data: Octets) returns (nals: seq<Octets>)
    ensures nals == SwiftSplit(data)
  {
    nals := [];
    var i: nat := 0;
    var start: int := -1;
    while i + 2 < |data|
      invariant -1 <= start <= |data| && SplittingThree(data, nals, i, start)
      decreases |data| - i
    {
      if data[i] == 0 && data[i + 1] == 0 && data[i + 2] == 1 {
        ThreeFound(data, nals, i, start);
        var codeStart := if i > 0 && data[i - 1] == 0 then i - 1 else i;
        if start >= 0 {
          nals := nals + [data[start..codeStart]];
        }
        start := i + 3;
        i := i + 3;
      } else {
        i := i + 1;
      }
    }
    NoneFound(data, nals, i, start);
    if start >= 0 {
      nals := nals + [data[start..]];
    }
  }

  /** On every input the splitters agree, but for an empty last unit that only the
      iOS one reports. */
  lemma SplittersAgree(s: Octets)
    ensures SwiftSplit(s) == Split(s)
            || (SwiftSplit(s) == Split(s) + [[]] && |s| >= 3 && s[|s| - 1] == 1)
    ensures s != [] && s[|s| - 1] != 1 ==> SwiftSplit(s) == Split(s)
  {
    var j := NextCode(s, 0);
    if j < |s| && EndsOnCode(s, j + CodeLen(s, j)) {
      EndsWithOne(s, j + CodeLen(s, j));
    }
  }

  lemma {:induction false} EndsWithOne(s: Octets, at: nat)
    requires 3 <= at <= |s| && s[at - 1] == 1 && EndsOnCode(s, at)
    ensures s[|s| - 1] == 1
    decreases |s| - at
  {
    var j := NextCode(s, at);
    if j < |s| {
      EndsWithOne(s, j + CodeLen(s, j));
    }
  }

  // --------------------------------------------------------------- joining units

  /** The bytes 00 00 00 or 00 00 01 at `k`. */
  predicate Forbidden(nal: Octets, k: nat) {
    k + 2 < |nal| && nal[k] == 0 && nal[k + 1] == 0 && nal[k + 2] <= 1
  }

  /** A NAL unit and the length of the start code before it. */
  datatype Unit = Unit(long: bool, nal: Octets) {
    function Code(): (c: Octets)
      ensures |c| == (if long then 4 else 3)
    {
      if long then [0, 0, 0, 1] else [0, 0, 1]
    }

    /** What emulation prevention and the trailing bit of H.264 give every unit. */
    predicate WellFormed() {
      && nal != [] && nal[|nal| - 1] != 0
      && forall k: nat :: k < |nal| ==> !Forbidden(nal, k)
    }
  }

  function Join(units: seq<Unit>): Octets {
    if units == [] then [] else units[0].Code() + (units[0].nal + Join(units[1..]))
  }

  predicate AllWellFormed(units: seq<Unit>) {
    forall i :: 0 <= i < |units| ==> units[i].WellFormed()
  }

  function Nals(units: seq<Unit>): seq<Octets> {
    if units == [] then [] else [units[0].nal] + Nals(units[1..])
  }

  /** The units lie in `s` one behind the other, from `at` to the end. */
  ghost predicate Laid(s: Octets, at: nat, units: seq<Unit>)
    decreases |units|
  {
    if units == [] then at == |s| else Lies(s, at, units[0]) && Laid(s, End(at, units[0]), units[1..])
  }

  ghost predicate Lies(s: Octets, at: nat, u: Unit) {
    End(at, u) <= |s| && CodeLen(s, at) == |u.Code()| && s[at + |u.Code()|..End(at, u)] == u.nal
  }

  function End(at: nat, u: Unit): nat { at + |u.Code()| + |u.nal| }

  lemma Placed(done: Octets, code: Octets, nal: Octets, tail: Octets)
    ensures var s, n := done + (code + (nal + tail)), |done|;
            && s == ((done + code) + nal) + tail
            && s[n + |code|..n + |code| + |nal|] == nal
            && forall i :: 0 <= i < |code| ==> s[n + i] == code[i]
  {
  }

  lemma JoinLaysOne(done: Octets, u: Unit, tail: Octets)
    ensures Lies(done + (u.Code() + (u.nal + tail)), |done|, u)
    ensures done + (u.Code() + (u.nal + tail)) == ((done + u.Code()) + u.nal) + tail
  {
    var s, n, c := done + (u.Code() + (u.nal + tail)), |done|, u.Code();
    Placed(done, c, u.nal, tail);
    assert s[n + 0] == c[0] && s[n + 1] == c[1] && s[n + 2] == c[2] && (u.long ==> s[n + 3] == c[3]);
  }

  lemma {:induction false} JoinLays(done: Octets, units: seq<Unit>)
    ensures Laid(done + Join(units), |done|, units)
    decreases |units|
  {
    if units != [] {
      var u, rest := units[0], units[1..];
      JoinLaysOne(done, u, Join(rest));
      JoinLays((done + u.Code()) + u.nal, rest);
    }
  }

  lemma JoinIsLaid(units: seq<Unit>)
    ensures Laid(Join(units), 0, units)
  {
    JoinLays([], units);
    assert [] + Join(units) == Join(units);
  }

  /** No start code begins inside a well-formed unit, whatever follows it. */
  lemma QuietInside(s: Octets, at: nat, u: Unit, k: nat)
    requires u.WellFormed() && at <= k < at + |u.nal| <= |s| && s[at..at + |u.nal|] == u.nal
    ensures CodeLen(s, k) == 0
  {
    var n, d := |u.nal|, k - at;
    assert forall x :: 0 <= x < n ==> s[at + x] == u.nal[x];
    if d + 2 < n {
      assert !Forbidden(u.nal, d);
    }
  }

  lemma {:induction false} QuietSkips(s: Octets, i: nat, j: nat)
    requires i <= j <= |s| && forall k :: i <= k < j ==> CodeLen(s, k) == 0
    ensures NextCode(s, i) == NextCode(s, j)
    decreases j - i
  {
    if i < j {
      QuietSkips(s, i + 1, j);
    }
  }

  /** Over a unit to what follows it. */
  lemma OverUnit(s: Octets, at: nat, u: Unit)
    requires u.WellFormed() && Lies(s, at, u)
    ensures NextCode(s, at + |u.Code()|) == NextCode(s, End(at, u))
  {
    forall k | at + |u.Code()| <= k < End(at, u)
      ensures CodeLen(s, k) == 0
    {
      QuietInside(s, at + |u.Code()|, u, k);
    }
    QuietSkips(s, at + |u.Code()|, End(at, u));
  }

  lemma UnitStep(s: Octets, at: nat, j: nat, n: nat)
    requires at <= |s| && j == NextCode(s, at) < |s| && n == CodeLen(s, j)
    ensures j + n <= |s| && at <= j
    ensures UnitsFrom(s, at) == [s[at..j]] + UnitsFrom(s, j + n) && EndsOnCode(s, at) == EndsOnCode(s, j + n)
  {
    hide NextCode, CodeLen;
  }

  lemma LastUnit(s: Octets, at: nat)
    requires at < |s| && NextCode(s, at) == |s|
    ensures UnitsFrom(s, at) == [s[at..]] && !EndsOnCode(s, at)
  {
  }

  lemma LaidHead(s: Octets, at: nat, units: seq<Unit>)
    requires units != [] && Laid(s, at, units)
    ensures Lies(s, at, units[0]) && Laid(s, End(at, units[0]), units[1..])
    ensures NextCode(s, at) == at < |s| && CodeLen(s, at) == |units[0].Code()|
    ensures at + |units[0].Code()| <= End(at, units[0]) <= |s|
    ensures s[at + |units[0].Code()|..End(at, units[0])] == units[0].nal
  {
  }

  lemma NalsOne(units: seq<Unit>)
    requires units != [] && AllWellFormed(units)
    ensures units[0].WellFormed() && units[0].nal != [] && AllWellFormed(units[1..])
    ensures Nals(units) == [units[0].nal] + Nals(units[1..])
    ensures |units| == 1 ==> Nals(units) == [units[0].nal]
  {
  }

  lemma NothingLaid(s: Octets, at: nat)
    requires Laid(s, at, [])
    ensures at == |s| == NextCode(s, at)
  {
  }

  lemma {:induction false} UnitsOfLaid(s: Octets, at: nat, units: seq<Unit>)
    requires units != [] && AllWellFormed(units) && Laid(s, at, units)
    ensures at + |units[0].Code()| <= |s|
    ensures UnitsFrom(s, at + |units[0].Code()|) == Nals(units)
    ensures !EndsOnCode(s, at + |units[0].Code()|)
    decreases |units|
  {
    hide NextCode, CodeLen, UnitsFrom, EndsOnCode, Laid, Lies, Nals, Unit.WellFormed, AllWellFormed;
    LaidHead(s, at, units);
    NalsOne(units);
    var u, rest := units[0], units[1..];
    var nalAt, next := at + |u.Code()|, End(at, u);
    OverUnit(s, at, u);
    if |rest| == 0 {
      NothingLaid(s, next);
      LastUnit(s, nalAt);
      assert s[nalAt..] == s[nalAt..next];
    } else {
      LaidHead(s, next, rest);
      UnitStep(s, nalAt, next, |rest[0].Code()|);
      UnitsOfLaid(s, next, rest);
    }
  }

  /** Splitting inverts joining, whatever the mix of start codes. */
  lemma SplitInvertsJoin(units: seq<Unit>)
    requires AllWellFormed(units)
    ensures Split(Join(units)) == Nals(units)
    ensures SwiftSplit(Join(units)) == Nals(units)
  {
    JoinIsLaid(units);
    var s := Join(units);
    if units != [] {
      assert NextCode(s, 0) == 0;
      UnitsOfLaid(s, 0, units);
      assert Split(s) == UnitsFrom(s, |units[0].Code()|);
      assert SwiftSplit(s) == AllUnitsFrom(s, |units[0].Code()|);
    }
  }

  // ------------------------------------------------------------ the header scan

  /** The bytes the host's scan takes for NAL headers. After a start code it moves
      on by that code's length once more, past the first bytes of the unit. */
  function Headers(s: Octets, i: nat): seq<Byte>
    decreases |s| - i
  {
    if i + 3 >= |s| then []
    else if CodeLen(s, i) > 0 && i + CodeLen(s, i) < |s| then
      [s[i + CodeLen(s, i)]] + Headers(s, i + 2 * CodeLen(s, i))
    else Headers(s, i + 1)
  }

  /** The byte at `nalAt` is read after the start code at `i`. */
  lemma HeaderRead(s: Octets, i: nat, nalAt: nat, step: nat, f: Byte -> bool)
    requires i + 3 < |s| && CodeLen(s, i) == step && (step == 3 || step == 4) && nalAt == i + step < |s|
    ensures (exists h :: h in Headers(s, i) && f(h))
            <==> f(s[nalAt]) || exists h :: h in Headers(s, nalAt + step) && f(h)
  {
    hide CodeLen, Headers;
    ReadCode(s, i);
    AnyBehind(s[nalAt], Headers(s, nalAt + step), f);
  }

  lemma AnyBehind(first: Byte, rest: seq<Byte>, f: Byte -> bool)
    ensures (exists h :: h in [first] + rest && f(h)) <==> f(first) || exists h :: h in rest && f(h)
  {
    assert first in [first] + rest;
  }

  lemma NoHeaderRead(s: Octets, i: nat)
    requires i + 3 < |s| && (CodeLen(s, i) == 0 || i + CodeLen(s, i) >= |s|)
    ensures Headers(s, i) == Headers(s, i + 1)
  {
    hide CodeLen;
  }

  method AnnexbAnyNal(data: Octets, f: Byte -> bool) returns (found: bool)
    ensures found <==> exists h :: h in Headers(data, 0) && f(h)
  {
    hide Headers;
    var i: nat := 0;
    while i + 3 < |data|
      invariant (exists h :: h in Headers(data, 0) && f(h)) <==> exists h :: h in Headers(data, i) && f(h)
      decreases |data| - i
    {
      if data[i] == 0 && data[i + 1] == 0 {
        var nalAt, step;
        if data[i + 2] == 1 {
          nalAt, step := i + 3, 3;
        } else if i + 4 < |data| && data[i + 2] == 0 && data[i + 3] == 1 {
          nalAt, step := i + 4, 4;
        } else {
          NoHeaderRead(data, i);
          i := i + 1;
          continue;
        }
        HeaderRead(data, i, nalAt, step, f);
        if nalAt < |data| && f(data[nalAt]) {
          return true;
        }
        i := nalAt + step;
      } else {
        NoHeaderRead(data, i);
        i := i + 1;
      }
    }
    NoHeaders(data, i);
    found := false;
  }

  /** A unit that begins with this byte. */
  predicate HasHead(units: seq<Octets>, h: Byte) {
    exists n :: n in units && n != [] && n[0] == h
  }

  lemma HeaderHeadsUnit(s: Octets, i: nat)
    requires CodeLen(s, i) > 0 && i + CodeLen(s, i) < |s| && s[i + CodeLen(s, i)] != 0
    ensures HasHead(Split(s), s[i + CodeLen(s, i)])
  {
    hide NextCode, UnitsFrom;
    var at, first := i + CodeLen(s, i), NextCode(s, 0);
    FirstCode(s, 0, i);
    if first + CodeLen(s, first) != at {
      CodeHeadsUnit(s, first + CodeLen(s, first), at);
    } else {
      UnitStarts(s, at);
    }
  }

  /** Sound on every stream: a header it finds, unless 0, heads a unit. */
  lemma {:induction false} HeadersAreUnits(s: Octets, i: nat, h: Byte)
    requires h in Headers(s, i) && h != 0
    ensures HasHead(Split(s), h)
    decreases |s| - i
  {
    hide HasHead, Split, CodeLen;
    var c := CodeLen(s, i);
    if c > 0 && i + c < |s| {
      if h == s[i + c] {
        HeaderHeadsUnit(s, i);
      } else {
        HeadersAreUnits(s, i + 2 * c, h);
      }
    } else {
      HeadersAreUnits(s, i + 1, h);
    }
  }

  /** The search does not run past a start code; one it stops short of ends apart. */
  lemma {:induction false} FirstCode(s: Octets, i: nat, k: nat)
    requires i <= k && CodeLen(s, k) > 0
    ensures var j := NextCode(s, i);
            j <= k && (j + CodeLen(s, j) == k + CodeLen(s, k) || j + CodeLen(s, j) <= k)
    decreases k - i
  {
    if i < k && CodeLen(s, i) == 0 {
      FirstCode(s, i + 1, k);
    }
  }

  lemma UnitStarts(s: Octets, at: nat)
    requires at < |s| && s[at] != 0
    ensures HasHead(UnitsFrom(s, at), s[at])
  {
    var j := NextCode(s, at);
    var n := if j < |s| then s[at..j] else s[at..];
    assert UnitsFrom(s, at)[0] == n && n[0] == s[at];
  }

  lemma HeadStays(s: Octets, at: nat, h: Byte)
    requires at <= |s| && NextCode(s, at) < |s|
    ensures var next := NextCode(s, at) + CodeLen(s, NextCode(s, at));
            next <= |s| && (HasHead(UnitsFrom(s, next), h) ==> HasHead(UnitsFrom(s, at), h))
  {
    hide NextCode, CodeLen;
    OneUnit(s, at);
  }

  lemma {:induction false} CodeHeadsUnit(s: Octets, at: nat, end: nat)
    requires at < end < |s| && s[end] != 0
    requires (at + 3 <= end && CodeLen(s, end - 3) == 3) || (at + 4 <= end && CodeLen(s, end - 4) == 4)
    ensures HasHead(UnitsFrom(s, at), s[end])
    decreases end - at
  {
    hide HasHead, UnitsFrom, NextCode, CodeLen;
    var k := if at + 4 <= end && CodeLen(s, end - 4) == 4 then end - 4 else end - 3;
    FirstCode(s, at, k);
    var j := NextCode(s, at);
    var next := j + CodeLen(s, j);
    HeadStays(s, at, s[end]);
    if next == end {
      UnitStarts(s, end);
    } else {
      CodeHeadsUnit(s, next, end);
    }
  }

  /** Bytes of the next start code that the scan passes over after a unit of `n`
      bytes behind a code it read as `code` bytes long. */
  function Overrun(code: nat, n: nat): nat {
    if code <= n then 0 else code - n
  }

  /** Entered `skip` bytes late, the start code of this unit is still found. */
  predicate Read(u: Unit, skip: nat) {
    skip == 0 || (skip == 1 && u.long)
  }

  /** How far into the next start code the scan then is. */
  function SkipAfter(u: Unit, skip: nat): nat {
    if Read(u, skip) then Overrun(|u.Code()| - skip, |u.nal|) else 0
  }

  /** The scan reaches every unit when it starts `skip` bytes into the first code. */
  predicate Reaches(units: seq<Unit>, skip: nat) {
    units == [] || (Read(units[0], skip) && Reaches(units[1..], SkipAfter(units[0], skip)))
  }

  function HeadIf(u: Unit, read: bool): seq<Byte>
    requires u.nal != []
  {
    if read then [u.nal[0]] else []
  }

  /** The headers of the units the scan reaches. */
  function Seen(units: seq<Unit>, skip: nat): seq<Byte>
    requires AllWellFormed(units)
  {
    if units == [] then []
    else HeadIf(units[0], Read(units[0], skip)) + Seen(units[1..], SkipAfter(units[0], skip))
  }

  function Heads(units: seq<Unit>): seq<Byte>
    requires AllWellFormed(units)
  {
    if units == [] then [] else [units[0].nal[0]] + Heads(units[1..])
  }

  /** Where no start code begins the scan reads no header. */
  lemma {:induction false} QuietHeaders(s: Octets, i: nat, j: nat)
    requires i <= j <= |s| && forall k :: i <= k < j ==> CodeLen(s, k) == 0
    ensures Headers(s, i) == Headers(s, j)
    decreases j - i
  {
    if i < j {
      QuietHeaders(s, i + 1, j);
    }
  }

  lemma QuietUnit(s: Octets, at: nat, u: Unit, i: nat)
    requires u.WellFormed() && at <= i <= at + |u.nal| <= |s| && s[at..at + |u.nal|] == u.nal
    ensures Headers(s, i) == Headers(s, at + |u.nal|)
  {
    forall k | i <= k < at + |u.nal|
      ensures CodeLen(s, k) == 0
    {
      QuietInside(s, at, u, k);
    }
    QuietHeaders(s, i, at + |u.nal|);
  }

  /** After the header at `nalAt`, read behind a code of `code` bytes. */
  lemma AfterHeader(s: Octets, nalAt: nat, u: Unit, code: nat)
    requires u.WellFormed() && nalAt + |u.nal| <= |s| && s[nalAt..nalAt + |u.nal|] == u.nal
    ensures Headers(s, nalAt + code) == Headers(s, nalAt + |u.nal| + Overrun(code, |u.nal|))
  {
    if code <= |u.nal| {
      QuietUnit(s, nalAt, u, nalAt + code);
    }
  }

  /** Inside a start code none begins, but a three-byte code in a four-byte one. */
  lemma InsideCode(s: Octets, at: nat, k: nat)
    requires at < k < at + CodeLen(s, at)
    ensures CodeLen(s, k) == if k == at + 1 && CodeLen(s, at) == 4 then 3 else 0
  {
  }

  /** Entered too late to see the start code before `u`, the scan misses `u`. */
  lemma MissedUnit(s: Octets, at: nat, u: Unit, skip: nat)
    requires u.WellFormed() && Lies(s, at, u)
    requires 1 <= skip <= 3 && (skip == 1 ==> !u.long)
    ensures Headers(s, at + skip) == Headers(s, End(at, u))
  {
    hide Headers, Unit.WellFormed, CodeLen, Forbidden;
    var nalAt := at + |u.Code()|;
    forall k | at + skip <= k < nalAt
      ensures CodeLen(s, k) == 0
    {
      InsideCode(s, at, k);
    }
    QuietHeaders(s, at + skip, nalAt);
    QuietUnit(s, nalAt, u, nalAt);
  }

  lemma ReadCode(s: Octets, i: nat)
    requires CodeLen(s, i) > 0 && i + CodeLen(s, i) < |s|
    ensures Headers(s, i) == [s[i + CodeLen(s, i)]] + Headers(s, i + 2 * CodeLen(s, i))
  {
  }

  /** Entered in time, it reads the header behind a code of `code` bytes and goes on. */
  lemma ReadUnit(s: Octets, at: nat, u: Unit, skip: nat)
    requires u.WellFormed() && Lies(s, at, u)
    requires skip == 0 || (skip == 1 && u.long)
    ensures Headers(s, at + skip)
            == [u.nal[0]] + Headers(s, End(at, u) + Overrun(|u.Code()| - skip, |u.nal|))
  {
    hide Headers;
    if skip == 1 {
      InsideCode(s, at, at + 1);
    }
    assert s[at + |u.Code()|] == s[at + |u.Code()|..End(at, u)][0];
    ReadCode(s, at + skip);
    AfterHeader(s, at + |u.Code()|, u, |u.Code()| - skip);
  }

  lemma NoHeaders(s: Octets, i: nat)
    requires i + 3 >= |s|
    ensures Headers(s, i) == []
  {
  }

  lemma ReadOrMissed(s: Octets, at: nat, u: Unit, skip: nat)
    requires u.WellFormed() && Lies(s, at, u) && skip <= 3
    ensures Headers(s, at + skip) == HeadIf(u, Read(u, skip)) + Headers(s, End(at, u) + SkipAfter(u, skip))
  {
    hide Headers, Lies, Unit.WellFormed, End;
    if Read(u, skip) {
      ReadUnit(s, at, u, skip);
    } else {
      MissedUnit(s, at, u, skip);
    }
  }

  lemma SeenOne(units: seq<Unit>, skip: nat)
    requires units != [] && AllWellFormed(units)
    ensures units[0].WellFormed() && AllWellFormed(units[1..])
    ensures Seen(units, skip) == HeadIf(units[0], Read(units[0], skip)) + Seen(units[1..], SkipAfter(units[0], skip))
  {
  }

  lemma NothingSeen(s: Octets, at: nat, skip: nat)
    requires Laid(s, at, [])
    ensures Headers(s, at + skip) == Seen([], skip)
  {
    NothingLaid(s, at);
    NoHeaders(s, at + skip);
  }

  /** What the scan sees on a stream of units, entered `skip` bytes late. */
  lemma {:induction false} HeadersOfLaid(s: Octets, at: nat, units: seq<Unit>, skip: nat)
    requires AllWellFormed(units) && Laid(s, at, units) && skip <= 3
    ensures Headers(s, at + skip) == Seen(units, skip)
    decreases |units|
  {
    hide Seen, Headers, CodeLen, Laid, Lies, Unit.WellFormed, AllWellFormed, NextCode, HeadIf, Read, End;
    if |units| == 0 {
      NothingSeen(s, at, skip);
    } else {
      LaidHead(s, at, units);
      SeenOne(units, skip);
      ReadOrMissed(s, at, units[0], skip);
      HeadersOfLaid(s, End(at, units[0]), units[1..], SkipAfter(units[0], skip));
    }
  }

  lemma HeadersOfJoin(units: seq<Unit>)
    requires AllWellFormed(units)
    ensures Headers(Join(units), 0) == Seen(units, 0)
  {
    JoinIsLaid(units);
    HeadersOfLaid(Join(units), 0, units, 0);
  }

  /** The scan sees every header exactly when the lengths let it. */
  lemma {:induction false} SeesAllIffReaches(units: seq<Unit>, skip: nat)
    requires AllWellFormed(units)
    ensures |Seen(units, skip)| <= |Heads(units)|
    ensures Seen(units, skip) == Heads(units) <==> Reaches(units, skip)
    ensures |Seen(units, skip)| == |Heads(units)| ==> Reaches(units, skip)
  {
    if units != [] {
      var u, rest := units[0], units[1..];
      if skip == 0 {
        SeesAllIffReaches(rest, Overrun(|u.Code()|, |u.nal|));
      } else if skip == 1 && u.long {
        SeesAllIffReaches(rest, Overrun(3, |u.nal|));
      } else {
        SeesAllIffReaches(rest, 0);
      }
      assert Heads(units)[1..] == Heads(rest);
    }
  }

  /** The scan of a joined stream reads the units' first bytes, all of them if and
      only if no unit but the last is shorter than the code read before it, save by
      one byte before a four-byte code. */
  lemma ScanReadsHeads(units: seq<Unit>)
    requires AllWellFormed(units)
    ensures Headers(Join(units), 0) == Heads(units) <==> Reaches(units, 0)
  {
    HeadersOfJoin(units);
    SeesAllIffReaches(units, 0);
  }

  /** Units of four bytes or more are all reached. */
  lemma {:induction false} LongUnitsAreReached(units: seq<Unit>)
    requires forall i :: 0 <= i < |units| ==> |units[i].nal| >= 4
    ensures Reaches(units, 0)
  {
    if units != [] {
      LongUnitsAreReached(units[1..]);
    }
  }

  function NalType(h: Byte): nat { h % 32 }

  /** The IDR test: never a false alarm, and none missed among units it reaches. */
  lemma IdrTest(units: seq<Unit>)
    requires AllWellFormed(units) && Reaches(units, 0)
    ensures (exists h :: h in Headers(Join(units), 0) && NalType(h) == 5)
            <==> exists i :: 0 <= i < |units| && NalType(units[i].nal[0]) == 5
  {
    ScanReadsHeads(units);
    HeadsAt(units);
  }

  lemma {:induction false} HeadsAt(units: seq<Unit>)
    requires AllWellFormed(units)
    ensures |Heads(units)| == |units|
    ensures forall i :: 0 <= i < |units| ==> Heads(units)[i] == units[i].nal[0]
  {
    if units != [] {
      HeadsAt(units[1..]);
      forall i | 0 <= i < |units|
        ensures Heads(units)[i] == units[i].nal[0]
      {
        if i > 0 {
          assert Heads(units)[i] == Heads(units[1..])[i - 1];
        }
      }
    }
  }

  lemma IdrTestIsSound(s: Octets, h: Byte)
    requires h in Headers(s, 0) && NalType(h) == 5
    ensures exists n :: n in Split(s) && n != [] && NalType(n[0]) == 5
  {
    HeadersAreUnits(s, 0, h);
  }

  /** A two-byte access unit delimiter hides the IDR behind it. */
  lemma ShortDelimiterHidesIdr()
    ensures var units := [Unit(true, [0x09, 0xF0]), Unit(true, [0x65])];
            AllWellFormed(units) && !Reaches(units, 0) && Headers(Join(units), 0) == [0x09]
  {
    var units := [Unit(true, [0x09, 0xF0]), Unit(true, [0x65])];
    HeadersOfJoin(units);
    assert units[1..] == [Unit(true, [0x65])];
    assert Seen(units, 0) == [0x09] + Seen(units[1..], 2);
    assert Seen(units[1..], 2) == [];
  }

  /** The type is the low five bits of the header: `forbidden` is its first bit, `ref` the
      two of nal_ref_idc (section 7.3.1 of ITU-T H.264). */
  lemma NalTypeIs(forbidden: nat, ref: nat, kind: nat)
    requires forbidden < 2 && ref < 4 && kind < 32
    ensures NalType(128 * forbidden + 32 * ref + kind) == kind
  {
  }
}
