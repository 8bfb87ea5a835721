/**
 BGRA to I420 / NV12 conversion over dirty row pairs: the frame differ, and the I420
 planes converted in place.

 Frames have even sizes. The meaning of a conversion is `Full`, plane by plane: the
 conversion of every row pair, one after the other.
 */
module ColourConversion {
  import opened Bytes
  import opened Options

  // --------------------------------------------------------- the meaning, per pixel

  /** BT.601 limited-range luma; the u8 cast cannot wrap. */
  function Luma(b: Byte, g: Byte, r: Byte): (y: Byte)
    ensures 16 <= y <= 235
  {
    (66 * r + 129 * g + 25 * b) / 256 + 16
  }

  /** `>> 8` on i32 rounds down, as `/` by a positive number does here. */
  function ChromaU(b: Byte, g: Byte, r: Byte): (u: Byte)
    ensures 16 <= u <= 239
  {
    (-38 * r - 74 * g + 112 * b) / 256 + 128
  }

  function ChromaV(b: Byte, g: Byte, r: Byte): (v: Byte)
    ensures 16 <= v <= 239
  {
    (112 * r - 94 * g - 18 * b) / 256 + 128
  }

  /** Rounded mean of one colour component over a 2 x 2 block. */
  function Mean(a: Byte, b: Byte, c: Byte, d: Byte): Byte {
    (a + b + c + d + 2) / 4
  }

  function LumaAt(src: Octets, k: nat): Byte
    requires 4 * k + 4 <= |src|
  {
    Luma(src[4 * k], src[4 * k + 1], src[4 * k + 2])
  }

  /** Mean of component `c` over the `j`-th block of a row pair `w` pixels wide. */
  function BlockMean(pair: Octets, w: nat, j: nat, c: nat): Byte
    requires |pair| == 8 * w && 2 * j + 1 < w && c < 3
  {
    var p := 8 * j + c;
    Mean(pair[p], pair[p + 4], pair[4 * w + p], pair[4 * w + p + 4])
  }

  function UAt(pair: Octets, w: nat, j: nat): Byte
    requires |pair| == 8 * w && 2 * j + 1 < w
  {
    ChromaU(BlockMean(pair, w, j, 0), BlockMean(pair, w, j, 1), BlockMean(pair, w, j, 2))
  }

  function VAt(pair: Octets, w: nat, j: nat): Byte
    requires |pair| == 8 * w && 2 * j + 1 < w
  {
    ChromaV(BlockMean(pair, w, j, 0), BlockMean(pair, w, j, 1), BlockMean(pair, w, j, 2))
  }

  // ------------------------------------------------ the meaning, per pair and frame

  function PairY(pair: Octets, w: nat): (r: Octets)
    requires |pair| == 8 * w
    ensures |r| == 2 * w
  {
    seq(2 * w, k requires 0 <= k < 2 * w => LumaAt(pair, k))
  }

  function PairU(pair: Octets, w: nat): (r: Octets)
    requires |pair| == 8 * w
    ensures |r| == w / 2
  {
    seq(w / 2, j requires 0 <= j < w / 2 => UAt(pair, w, j))
  }

  function PairV(pair: Octets, w: nat): (r: Octets)
    requires |pair| == 8 * w
    ensures |r| == w / 2
  {
    seq(w / 2, j requires 0 <= j < w / 2 => VAt(pair, w, j))
  }

  /** One row of NV12 chroma: U and V take turns. */
  function PairUV(pair: Octets, w: nat): (r: Octets)
    requires |pair| == 8 * w
    ensures |r| == 2 * (w / 2)
  {
    seq(2 * (w / 2), k requires 0 <= k < 2 * (w / 2) => if k % 2 == 0 then UAt(pair, w, k / 2) else VAt(pair, w, k / 2))
  }

  /** PlaneUV is the chroma plane of NV12. */
  datatype Plane = PlaneY | PlaneU | PlaneV | PlaneUV

  function PairOf(p: Plane, pair: Octets, w: nat): (r: Octets)
    requires |pair| == 8 * w
    ensures |r| == Stride(p, w)
  {
    match p
    case PlaneY => PairY(pair, w)
    case PlaneU => PairU(pair, w)
    case PlaneV => PairV(pair, w)
    case PlaneUV => PairUV(pair, w)
  }

  /** Plane bytes that one row pair yields. */
  function Stride(p: Plane, w: nat): nat {
    match p
    case PlaneY => 2 * w
    case PlaneUV => 2 * (w / 2)
    case _ => w / 2
  }

  /** The conversion of a whole frame into one plane. */
  function Full(p: Plane, bgra: Octets, w: nat): Octets
    requires w > 0
  {
    if |bgra| < 8 * w then []
    else PairOf(p, bgra[..8 * w], w) + Full(p, bgra[8 * w..], w)
  }

  /** Conversion of the dirty pairs only, over a plane left by an earlier frame.
      Pairs beyond the map count as dirty. */
  function Partial(p: Plane, bgra: Octets, was: Octets, dirty: seq<bool>, w: nat): (r: Octets)
    requires w > 0 && |was| == |Full(p, bgra, w)|
    ensures |r| == |was|
  {
    if |bgra| < 8 * w then []
    else
      (if dirty == [] || dirty[0] then PairOf(p, bgra[..8 * w], w) else was[..Stride(p, w)])
      + Partial(p, bgra[8 * w..], was[Stride(p, w)..], if dirty == [] then [] else dirty[1..], w)
  }

  /** Which row pairs differ. */
  function Diff(prev: Octets, bgra: Octets, w: nat): seq<bool>
    requires w > 0 && |prev| == |bgra|
  {
    if |bgra| < 8 * w then []
    else [prev[..8 * w] != bgra[..8 * w]] + Diff(prev[8 * w..], bgra[8 * w..], w)
  }

  /** The cache law: converting what changed, over the conversion of the previous
      frame, is converting everything. */
  lemma {:induction false} PartialIsFull(p: Plane, prev: Octets, bgra: Octets, w: nat)
    requires w > 0 && |prev| == |bgra| && |Full(p, prev, w)| == |Full(p, bgra, w)|
    ensures Partial(p, bgra, Full(p, prev, w), Diff(prev, bgra, w), w) == Full(p, bgra, w)
    decreases |bgra|
  {
    if |bgra| >= 8 * w {
      var was := Full(p, prev, w);
      assert was[..Stride(p, w)] == PairOf(p, prev[..8 * w], w);
      assert was[Stride(p, w)..] == Full(p, prev[8 * w..], w);
      PartialIsFull(p, prev[8 * w..], bgra[8 * w..], w);
    }
  }

  lemma {:induction false} AllDirtyIsFull(p: Plane, was: Octets, bgra: Octets, dirty: seq<bool>, w: nat)
    requires w > 0 && |was| == |Full(p, bgra, w)| && forall i :: 0 <= i < |dirty| ==> dirty[i]
    ensures Partial(p, bgra, was, dirty, w) == Full(p, bgra, w)
    decreases |bgra|
  {
    if |bgra| >= 8 * w {
      AllDirtyIsFull(p, was[Stride(p, w)..], bgra[8 * w..], if dirty == [] then [] else dirty[1..], w);
    }
  }

  // --------------------------------------------------------------------- sizes

  predicate EvenSize(w: nat, h: nat) {
    w > 0 && w % 2 == 0 && h % 2 == 0
  }

  /** How many whole row pairs `n` bytes hold. */
  function Pairs(n: nat, w: nat): nat
    requires w > 0
  {
    if n < 8 * w then 0 else 1 + Pairs(n - 8 * w, w)
  }

  predicate Whole(n: nat, w: nat)
    requires w > 0
  {
    n == 0 || (n >= 8 * w && Whole(n - 8 * w, w))
  }

  /** How many of `n` bytes lie in whole row pairs; a last odd row does not. */
  function Covered(n: nat, w: nat): (c: nat)
    requires w > 0
    ensures c <= n
  {
    if n < 8 * w then 0 else 8 * w + Covered(n - 8 * w, w)
  }

  lemma {:induction false} WholeIsCovered(n: nat, w: nat)
    requires w > 0
    ensures Whole(n, w) <==> Covered(n, w) == n
  {
    if n >= 8 * w {
      WholeIsCovered(n - 8 * w, w);
    }
  }

  /** Every frame has h / 2 row pairs, and exactly an even height leaves no row over. */
  lemma {:induction false} FramePairs(w: nat, h: nat)
    requires w > 0
    ensures Pairs(w * h * 4, w) == h / 2 && (Whole(w * h * 4, w) <==> h % 2 == 0)
  {
    if h >= 2 {
      ProductStep(w, h);
      FramePairs(w, h - 2);
    } else if h == 1 {
      assert w * h * 4 == 4 * w;
    } else {
      assert w * h * 4 == 0;
    }
  }

  lemma EvenFramesAreWhole(w: nat, h: nat)
    requires EvenSize(w, h)
    ensures Whole(w * h * 4, w) && Pairs(w * h * 4, w) == h / 2 && Covered(w * h * 4, w) == w * h * 4
  {
    FramePairs(w, h);
    WholeIsCovered(w * h * 4, w);
  }

  lemma ProductStep(w: nat, h: nat)
    requires h >= 2
    ensures w * h * 4 == w * (h - 2) * 4 + 8 * w && w * (h - 2) * 4 >= 0
  {
    assert w * h == w * (h - 2) + 2 * w;
    assert w * (h - 2) >= 0;
  }

  lemma TimesOneMore(a: nat, n: nat)
    ensures a * (n + 1) == a * n + a
  {
  }

  lemma FullOne(p: Plane, bgra: Octets, w: nat)
    requires w > 0
    ensures if |bgra| < 8 * w then |Full(p, bgra, w)| == 0 && Pairs(|bgra|, w) == 0
            else |Full(p, bgra, w)| == Stride(p, w) + |Full(p, bgra[8 * w..], w)|
                 && Pairs(|bgra|, w) == Pairs(|bgra[8 * w..]|, w) + 1
  {
    hide PairY, PairU, PairV, PairUV, Stride;
  }

  lemma {:induction false} FullLength(p: Plane, bgra: Octets, w: nat)
    requires w > 0
    ensures |Full(p, bgra, w)| == Stride(p, w) * Pairs(|bgra|, w)
  {
    hide Full, Pairs, Stride;
    FullOne(p, bgra, w);
    if |bgra| < 8 * w {
      assert Stride(p, w) * 0 == 0;
    } else {
      FullLength(p, bgra[8 * w..], w);
      TimesOneMore(Stride(p, w), Pairs(|bgra[8 * w..]|, w));
    }
  }

  lemma PlaneSize(p: Plane, w: nat, h: nat)
    requires EvenSize(w, h)
    ensures Stride(p, w) * (h / 2) == if p.PlaneY? then w * h else if p.PlaneUV? then w * h / 2 else w * h / 4
  {
    HalfProduct(w, h, w / 2, h / 2);
    assert (w / 2) * (h / 2) * 4 == w * h && w * (h / 2) * 2 == w * h;
    assert 2 * (w / 2) == w;
  }

  lemma FrameSizes(p: Plane, bgra: Octets, w: nat, h: nat)
    requires EvenSize(w, h) && |bgra| == w * h * 4
    ensures |Full(p, bgra, w)| == if p.PlaneY? then w * h else if p.PlaneUV? then w * h / 2 else w * h / 4
  {
    hide Full, Whole, Covered, Pairs, Stride;
    EvenFramesAreWhole(w, h);
    FullLength(p, bgra, w);
    PlaneSize(p, w, h);
  }

  lemma HalfProduct(w: nat, h: nat, halfW: nat, halfH: nat)
    requires w == 2 * halfW && h == 2 * halfH
    ensures w * h == 2 * w * halfH && w * h == 4 * (halfW * halfH)
  {
    assert w * h == w * (2 * halfH);
    assert w * halfH == 2 * (halfW * halfH);
  }

  lemma {:induction false} DiffLength(prev: Octets, bgra: Octets, w: nat)
    requires w > 0 && |prev| == |bgra|
    ensures |Diff(prev, bgra, w)| == Pairs(|bgra|, w)
    decreases |bgra|
  {
    if |bgra| >= 8 * w {
      DiffLength(prev[8 * w..], bgra[8 * w..], w);
    }
  }

  function Dirty(pairs: seq<bool>): nat {
    if pairs == [] then 0 else Dirty(pairs[..|pairs| - 1]) + if pairs[|pairs| - 1] then 1 else 0
  }

  /** No pair is dirty exactly when all whole pairs are the previous frame's: no false
      clean pairs, and none falsely dirty. */
  lemma {:induction false} NoneDirtyMeansEqual(prev: Octets, bgra: Octets, w: nat)
    requires w > 0 && |prev| == |bgra|
    ensures (forall i :: 0 <= i < |Diff(prev, bgra, w)| ==> !Diff(prev, bgra, w)[i])
            <==> prev[..Covered(|bgra|, w)] == bgra[..Covered(|bgra|, w)]
    decreases |bgra|
  {
    if |bgra| >= 8 * w {
      var c, rest := Covered(|bgra| - 8 * w, w), Diff(prev[8 * w..], bgra[8 * w..], w);
      NoneDirtyMeansEqual(prev[8 * w..], bgra[8 * w..], w);
      FirstAndRest([prev[..8 * w] != bgra[..8 * w]], rest);
      CutEqual(prev, bgra, 8 * w, c);
      assert Diff(prev, bgra, w) == [prev[..8 * w] != bgra[..8 * w]] + rest;
    } else {
      assert prev[..0] == bgra[..0];
    }
  }

  lemma FirstAndRest(first: seq<bool>, rest: seq<bool>)
    requires |first| == 1
    ensures (forall i :: 0 <= i < |first + rest| ==> !(first + rest)[i])
            <==> !first[0] && forall i :: 0 <= i < |rest| ==> !rest[i]
  {
    var all := first + rest;
    assert forall i :: 0 <= i < |rest| ==> rest[i] == all[i + 1];
    assert first[0] == all[0];
  }

  lemma CutEqual(s: Octets, t: Octets, n: nat, c: nat)
    requires n + c <= |s| && |s| == |t|
    ensures s[..n + c] == t[..n + c] <==> s[..n] == t[..n] && s[n..][..c] == t[n..][..c]
  {
    SliceOn(s, n, c);
    SliceOn(t, n, c);
    assert s[..n + c] == s[..n] + s[n..][..c] by { assert s[..n + c] == s[..n] + s[n..n + c]; }
    assert t[..n + c] == t[..n] + t[n..][..c] by { assert t[..n + c] == t[..n] + t[n..n + c]; }
    if s[..n + c] == t[..n + c] {
      assert s[..n] == s[..n + c][..n] && s[n..n + c] == s[..n + c][n..];
      assert t[..n] == t[..n + c][..n] && t[n..n + c] == t[..n + c][n..];
    }
  }

  /** For whole frames a clean map means the same frame. */
  lemma CleanMeansSameFrame(prev: Octets, bgra: Octets, w: nat, pairs: seq<bool>)
    requires w > 0 && |prev| == |bgra| && Whole(|bgra|, w) && pairs == Diff(prev, bgra, w)
    ensures (forall i :: 0 <= i < |pairs| ==> !pairs[i]) <==> prev == bgra
  {
    hide Diff, Whole, Covered;
    WholeIsCovered(|bgra|, w);
    NoneDirtyMeansEqual(prev, bgra, w);
    assert prev[..|prev|] == prev && bgra[..|bgra|] == bgra;
  }

  /** And only for them: at any other size two frames that differ in the last row can
      have a clean map. */
  lemma LastRowGoesUnseen(n: nat, w: nat) returns (prev: Octets, bgra: Octets)
    requires w > 0 && !Whole(n, w)
    ensures |prev| == |bgra| == n && prev != bgra
    ensures forall i :: 0 <= i < |Diff(prev, bgra, w)| ==> !Diff(prev, bgra, w)[i]
  {
    WholeIsCovered(n, w);
    prev := seq(n, _ => 0);
    bgra := prev[n - 1 := 1];
    assert prev[n - 1] != bgra[n - 1];
    NoneDirtyMeansEqual(prev, bgra, w);
  }

  lemma {:induction false} CountZero(pairs: seq<bool>)
    ensures Dirty(pairs) == 0 <==> forall i :: 0 <= i < |pairs| ==> !pairs[i]
  {
    if pairs != [] {
      CountZero(pairs[..|pairs| - 1]);
    }
  }

  lemma {:induction false} CountAll(pairs: seq<bool>)
    ensures Dirty(pairs) <= |pairs| && (Dirty(pairs) == |pairs| <==> forall i :: 0 <= i < |pairs| ==> pairs[i])
  {
    if pairs != [] {
      CountAll(pairs[..|pairs| - 1]);
    }
  }

  lemma {:induction false} DiffOfEqual(bgra: Octets, w: nat)
    requires w > 0
    ensures forall i :: 0 <= i < |Diff(bgra, bgra, w)| ==> !Diff(bgra, bgra, w)[i]
    decreases |bgra|
  {
    if |bgra| >= 8 * w {
      DiffOfEqual(bgra[8 * w..], w);
    }
  }

  // ------------------------------------------------------------- the frame differ

  datatype DirtyMap = DirtyMap(pairs: seq<bool>, dirtyPairs: nat, totalPairs: nat) {
    predicate IsStatic() { dirtyPairs == 0 }
  }

  /** Pixel rows of the dirty span; None on a static frame. */
  method RowBounds(d: DirtyMap) returns (r: Option<(nat, nat)>)
    ensures r.None? <==> forall i :: 0 <= i < |d.pairs| ==> !d.pairs[i]
    ensures r.Some? ==>
              && r.value.0 % 2 == 0 && r.value.1 % 2 == 0 && r.value.0 < r.value.1 <= 2 * |d.pairs|
              && d.pairs[r.value.0 / 2] && d.pairs[r.value.1 / 2 - 1]
              && forall i :: 0 <= i < |d.pairs| && d.pairs[i] ==> r.value.0 <= 2 * i < r.value.1
  {
    var first := 0;
    while first < |d.pairs| && !d.pairs[first]
      invariant 0 <= first <= |d.pairs| && forall i :: 0 <= i < first ==> !d.pairs[i]
    {
      first := first + 1;
    }
    if first == |d.pairs| {
      return None;
    }
    var last := |d.pairs| - 1;
    while !d.pairs[last]
      decreases last
      invariant first <= last < |d.pairs| && forall i :: last < i < |d.pairs| ==> !d.pairs[i]
    {
      last := last - 1;
    }
    r := Some((2 * first, 2 * (last + 1)));
  }

  class DirtyTracker {
    var prev: Octets
    var w: nat
    var h: nat
    var valid: bool
    var flags: seq<bool>

    predicate Valid()
      reads this
    {
      valid ==> w > 0 && |prev| == w * h * 4
    }

    constructor ()
      ensures Valid() && !valid
    {
      prev, w, h, valid, flags := [], 0, 0, false, [];
    }

    /** Everything is dirty on the first frame and after a change of size. */
    predicate Fresh(w: nat, h: nat)
      reads this
    {
      !valid || this.w != w || this.h != h
    }

    /** Frames of any height and of any width but 0, at which the cut into pairs
        panics. A last odd row is retained once and then neither compared nor copied. */
    method Update(bgra: Octets, w: nat, h: nat) returns (d: DirtyMap)
      requires Valid() && w > 0 && |bgra| == w * h * 4
      modifies this
      ensures Valid() && valid && this.w == w && this.h == h
      ensures prev == if old(Fresh(w, h)) then bgra else Caught(old(prev), bgra, w)
      ensures |d.pairs| == d.totalPairs == h / 2 && d.dirtyPairs == Dirty(d.pairs)
      ensures if old(Fresh(w, h)) then forall i :: 0 <= i < |d.pairs| ==> d.pairs[i]
              else |old(prev)| == |bgra| && d.pairs == Diff(old(prev), bgra, w)
    {
      hide Diff, Dirty, Pairs, Covered, Whole;
      var pairBytes, totalPairs := w * 4 * 2, h / 2;
      if this.w != w || this.h != h {
        this.w, this.h, valid, prev := w, h, false, [];
      }
      flags := seq(totalPairs, _ => false);
      if !valid {
        prev, valid := bgra, true;
        flags := seq(totalPairs, _ => true);
        AllDirtyCount(flags);
        return DirtyMap(flags, totalPairs, totalPairs);
      }
      FramePairs(w, h);
      var dirtyPairs := DiffPairs(bgra, pairBytes);
      d := DirtyMap(flags, dirtyPairs, totalPairs);
    }

    /** Compare one pair with the retained copy `ours`; copy and flag it if it changed. */
    method ComparePair(done: Octets, ours: Octets, cur: Octets, i: nat) returns (changed: bool)
      requires prev == done + ours && |cur| <= |ours| && i < |flags| && !flags[i]
      modifies `prev, `flags
      ensures changed == (ours[..|cur|] != cur)
      ensures prev == (done + cur) + ours[|cur|..]
      ensures flags == old(flags)[i := changed]
    {
      assert ours == ours[..|cur|] + ours[|cur|..];
      changed := cur != ours[..|cur|];
      if changed {
        prev := done + cur + ours[|cur|..];
        flags := flags[i := true];
      }
    }

    /** The compare-and-copy loop, over both frames cut into row pairs. */
    method DiffPairs(bgra: Octets, pairBytes: nat) returns (dirtyPairs: nat)
      requires w > 0 && |bgra| == |prev| && pairBytes == 8 * w
      requires |flags| == Pairs(|bgra|, w) && forall i :: 0 <= i < |flags| ==> !flags[i]
      modifies `prev, `flags
      ensures prev == Caught(old(prev), bgra, w)
      ensures flags == Diff(old(prev), bgra, w) && |flags| == old(|flags|) && dirtyPairs == Dirty(flags)
    {
      hide Diff, Dirty, Pairs, Covered, Caught;
      ghost var d, caught := Diff(prev, bgra, w), Caught(prev, bgra, w);
      DiffLength(prev, bgra, w);
      NothingSeen(d);
      var i, done, ours, theirs := 0, [], prev, bgra;
      dirtyPairs := 0;
      while |theirs| >= pairBytes
        invariant |ours| == |theirs|
        invariant prev == done + ours && done + Caught(ours, theirs, w) == caught
        invariant 0 <= i <= |flags| == |d| == old(|flags|)
        invariant Diff(ours, theirs, w) == d[i..]
        invariant forall k :: 0 <= k < |flags| ==> flags[k] == (k < i && d[k])
        invariant dirtyPairs == Dirty(d[..i])
        decreases |theirs|
      {
        DiffHead(ours, theirs, w, d, i);
        FlagStep(d, i);
        CaughtHead(done, ours, theirs, w);
        var changed := ComparePair(done, ours, theirs[..pairBytes], i);
        dirtyPairs := dirtyPairs + if changed then 1 else 0;
        i, done, ours, theirs := i + 1, done + theirs[..pairBytes], ours[pairBytes..], theirs[pairBytes..];
      }
      AllSeen(ours, theirs, w, d, i);
      assert flags == d;
    }
  }

  /** What the tracker retains of two frames: the new one's pairs, the old one's rest. */
  function Caught(prev: Octets, bgra: Octets, w: nat): (r: Octets)
    requires w > 0 && |prev| == |bgra|
    ensures |r| == |bgra|
  {
    bgra[..Covered(|bgra|, w)] + prev[Covered(|bgra|, w)..]
  }

  lemma CaughtWhole(prev: Octets, bgra: Octets, w: nat, h: nat)
    requires EvenSize(w, h) && |prev| == |bgra| == w * h * 4
    ensures Caught(prev, bgra, w) == bgra
  {
    EvenFramesAreWhole(w, h);
  }

  lemma CaughtOne(ours: Octets, theirs: Octets, w: nat)
    requires w > 0 && |ours| == |theirs| >= 8 * w
    ensures Caught(ours, theirs, w) == theirs[..8 * w] + Caught(ours[8 * w..], theirs[8 * w..], w)
  {
    hide Covered;
    CoveredOne(|theirs|, w);
    SplitCaught(ours, theirs, 8 * w, Covered(|theirs| - 8 * w, w));
  }

  lemma SplitCaught(ours: Octets, theirs: Octets, n: nat, c: nat)
    requires n + c <= |ours| == |theirs|
    ensures theirs[..n + c] + ours[n + c..] == theirs[..n] + (theirs[n..][..c] + ours[n..][c..])
  {
    SliceOn(theirs, n, c);
    SliceOn(ours, n, c);
    Regroup(theirs[..n], theirs[n..n + c], ours[n + c..]);
  }

  lemma CoveredOne(n: nat, w: nat)
    requires w > 0 && n >= 8 * w
    ensures Covered(n, w) == 8 * w + Covered(n - 8 * w, w) <= n
  {
  }

  lemma CaughtHead(done: Octets, ours: Octets, theirs: Octets, w: nat)
    requires w > 0 && |ours| == |theirs| >= 8 * w
    ensures done + Caught(ours, theirs, w) == (done + theirs[..8 * w]) + Caught(ours[8 * w..], theirs[8 * w..], w)
  {
    hide Caught;
    CaughtOne(ours, theirs, w);
    Regroup(done, theirs[..8 * w], Caught(ours[8 * w..], theirs[8 * w..], w));
  }

  lemma NothingSeen(d: seq<bool>)
    ensures d[..0] == [] && Dirty(d[..0]) == 0 && d[0..] == d
  {
  }

  lemma AllSeen(ours: Octets, theirs: Octets, w: nat, d: seq<bool>, i: nat)
    requires w > 0 && |ours| == |theirs| < 8 * w && i <= |d| && Diff(ours, theirs, w) == d[i..]
    ensures i == |d| && d[..i] == d && Caught(ours, theirs, w) == ours
  {
  }

  lemma DiffHead(ours: Octets, theirs: Octets, w: nat, d: seq<bool>, i: nat)
    requires w > 0 && |ours| == |theirs| >= 8 * w && i <= |d| && Diff(ours, theirs, w) == d[i..]
    ensures i < |d| && d[i] == (ours[..8 * w] != theirs[..8 * w])
    ensures d[i + 1..] == Diff(ours[8 * w..], theirs[8 * w..], w)
  {
    var rest := Diff(ours[8 * w..], theirs[8 * w..], w);
    assert d[i..] == [ours[..8 * w] != theirs[..8 * w]] + rest;
    assert d[i] == d[i..][0] && d[i + 1..] == d[i..][1..];
  }

  lemma FlagStep(flags: seq<bool>, i: nat)
    requires i < |flags|
    ensures flags[..i + 1] == flags[..i] + [flags[i]]
    ensures Dirty(flags[..i + 1]) == Dirty(flags[..i]) + if flags[i] then 1 else 0
  {
    assert flags[..i + 1][..i] == flags[..i];
  }

  lemma {:induction false} AllDirtyCount(pairs: seq<bool>)
    requires forall i :: 0 <= i < |pairs| ==> pairs[i]
    ensures Dirty(pairs) == |pairs|
  {
    if pairs != [] {
      AllDirtyCount(pairs[..|pairs| - 1]);
    }
  }

  // -------------------------------------------------------- planes, filled in place

  /** Two columns of both rows of a pair put in place. */
  function PutTwoRows(s: Octets, at: nat, image: Octets, w: nat, n: nat): Octets
    requires |image| == 2 * w && n + 2 <= w && at + 2 * w <= |s|
  {
    s[at + n := image[n]][at + n + 1 := image[n + 1]][at + w + n := image[w + n]][at + w + n + 1 := image[w + n + 1]]
  }

  /** The four luma bytes of a 2 x 2 block. */
  method PutLuma(pair: Octets, w: nat, j: nat, y: array<Byte>, yo: nat)
    requires |pair| == 8 * w && 2 * j + 1 < w && yo + 2 * w <= y.Length
    modifies y
    ensures y[..] == PutTwoRows(old(y[..]), yo, PairY(pair, w), w, 2 * j)
  {
    y[yo + 2 * j] := LumaAt(pair, 2 * j);
    y[yo + 2 * j + 1] := LumaAt(pair, 2 * j + 1);
    y[yo + w + 2 * j] := LumaAt(pair, w + 2 * j);
    y[yo + w + 2 * j + 1] := LumaAt(pair, w + 2 * j + 1);
  }

  /** `s` holds `image` at `at` for the columns done, and is `was` elsewhere. */
  ghost predicate Written(s: Octets, was: Octets, at: nat, image: Octets, n: nat) {
    && |s| == |was| && at + |image| <= |s| && n <= |image|
    && (forall k :: at <= k < at + n ==> s[k] == image[k - at])
    && (forall k :: 0 <= k < |s| && !(at <= k < at + n) ==> s[k] == was[k])
  }

  lemma WrittenAll(s: Octets, was: Octets, at: nat, image: Octets)
    requires Written(s, was, at, image, |image|)
    ensures s == was[..at] + image + was[at + |image|..]
  {
  }

  /** The two rows of a pair advance together. */
  ghost predicate RowsWritten(s: Octets, was: Octets, at: nat, image: Octets, w: nat, n: nat) {
    && |s| == |was| && |image| == 2 * w && at + 2 * w <= |s| && n <= w
    && (forall k :: at <= k < at + n || at + w <= k < at + w + n ==> s[k] == image[k - at])
    && (forall k :: 0 <= k < |s| && !(at <= k < at + n) && !(at + w <= k < at + w + n) ==> s[k] == was[k])
  }

  lemma WrittenStep(s: Octets, was: Octets, at: nat, image: Octets, n: nat)
    requires Written(s, was, at, image, n) && n < |image|
    ensures Written(s[at + n := image[n]], was, at, image, n + 1)
  {
  }

  lemma RowsWrittenStep(s: Octets, was: Octets, at: nat, image: Octets, w: nat, n: nat)
    requires RowsWritten(s, was, at, image, w, n) && n + 2 <= w
    ensures RowsWritten(PutTwoRows(s, at, image, w, n), was, at, image, w, n + 2)
  {
  }

  /** The inner loop: one row pair into its places in the three planes. */
  method ConvertPair(pair: Octets, w: nat, y: array<Byte>, yo: nat, u: array<Byte>, v: array<Byte>, co: nat)
    requires |pair| == 8 * w && w % 2 == 0 && y != u && y != v && u != v
    requires yo + 2 * w <= y.Length && co + w / 2 <= u.Length && co + w / 2 <= v.Length
    modifies y, u, v
    ensures y[..] == old(y[..yo]) + PairY(pair, w) + old(y[yo + 2 * w..])
    ensures u[..] == old(u[..co]) + PairU(pair, w) + old(u[co + w / 2..])
    ensures v[..] == old(v[..co]) + PairV(pair, w) + old(v[co + w / 2..])
  {
    ghost var y0, u0, v0 := y[..], u[..], v[..];
    var j := 0;
    while j < w / 2
      invariant 0 <= j <= w / 2
      invariant RowsWritten(y[..], y0, yo, PairY(pair, w), w, 2 * j)
      invariant Written(u[..], u0, co, PairU(pair, w), j)
      invariant Written(v[..], v0, co, PairV(pair, w), j)
    {
      RowsWrittenStep(y[..], y0, yo, PairY(pair, w), w, 2 * j);
      WrittenStep(u[..], u0, co, PairU(pair, w), j);
      WrittenStep(v[..], v0, co, PairV(pair, w), j);
      PutLuma(pair, w, j, y, yo);
      var b, g, r := BlockMean(pair, w, j, 0), BlockMean(pair, w, j, 1), BlockMean(pair, w, j, 2);
      u[co + j] := ChromaU(b, g, r);
      v[co + j] := ChromaV(b, g, r);
      j := j + 1;
    }
    assert Written(y[..], y0, yo, PairY(pair, w), 2 * w);
    WrittenAll(y[..], y0, yo, PairY(pair, w));
    WrittenAll(u[..], u0, co, PairU(pair, w));
    WrittenAll(v[..], v0, co, PairV(pair, w));
  }

  /** `done` is final, and dealing with the pairs of `rest` turns `left` into the
      remainder of `target`. */
  ghost predicate Progress(p: Plane, done: Octets, left: Octets, rest: Octets, dirty: seq<bool>, w: nat, target: Octets)
    requires w > 0
  {
    |left| == |Full(p, rest, w)| && done + Partial(p, rest, left, dirty, w) == target
  }

  lemma PairProgress(p: Plane, done: Octets, left: Octets, rest: Octets, dirty: seq<bool>, w: nat, target: Octets)
    requires w > 0 && |rest| >= 8 * w && Progress(p, done, left, rest, dirty, w, target)
    ensures Stride(p, w) <= |left|
    ensures var now := if dirty == [] || dirty[0] then PairOf(p, rest[..8 * w], w) else left[..Stride(p, w)];
            Progress(p, done + now, left[Stride(p, w)..], rest[8 * w..], if dirty == [] then [] else dirty[1..], w, target)
  {
    var n, tail := Stride(p, w), if dirty == [] then [] else dirty[1..];
    var now := if dirty == [] || dirty[0] then PairOf(p, rest[..8 * w], w) else left[..n];
    Regroup(done, now, Partial(p, rest[8 * w..], left[n..], tail, w));
  }

  lemma Replace(done: Octets, left: Octets, now: Octets, n: nat)
    requires n <= |left|
    ensures (done + left)[..|done|] + now + (done + left)[|done| + n..] == (done + now) + left[n..]
    ensures done + left == (done + left[..n]) + left[n..]
  {
    assert (done + left)[..|done|] == done && (done + left)[|done| + n..] == left[n..];
    assert left == left[..n] + left[n..];
    Regroup(done, left[..n], left[n..]);
  }

  function Size(w: nat, h: nat): nat { w * h }

  datatype Planes = Planes(y: Octets, u: Octets, v: Octets) {
    function Join(later: Planes): Planes {
      Planes(y + later.y, u + later.u, v + later.v)
    }

    function Take(w: nat): Planes
      requires Holds(w)
    {
      Planes(y[..2 * w], u[..w / 2], v[..w / 2])
    }

    function Drop(w: nat): Planes
      requires Holds(w)
    {
      Planes(y[2 * w..], u[w / 2..], v[w / 2..])
    }

    /** At least one row pair is left in each plane. */
    predicate Holds(w: nat) {
      2 * w <= |y| && w / 2 <= |u| && w / 2 <= |v|
    }
  }

  function PairPlanes(pair: Octets, w: nat): (r: Planes)
    requires |pair| == 8 * w
    ensures |r.y| == 2 * w && |r.u| == |r.v| == w / 2
  {
    Planes(PairY(pair, w), PairU(pair, w), PairV(pair, w))
  }

  /** The planes fit the conversion of the frame. */
  predicate Fit(planes: Planes, bgra: Octets, w: nat)
    requires w > 0
  {
    && |planes.y| == |Full(PlaneY, bgra, w)|
    && |planes.u| == |Full(PlaneU, bgra, w)| && |planes.v| == |Full(PlaneV, bgra, w)|
  }

  lemma FitPlanes(planes: Planes, bgra: Octets, w: nat, h: nat)
    requires EvenSize(w, h) && |bgra| == w * h * 4
    requires |planes.y| == Size(w, h) && |planes.u| == |planes.v| == Size(w, h) / 4
    ensures Fit(planes, bgra, w)
  {
    FrameSizes(PlaneY, bgra, w, h);
    FrameSizes(PlaneU, bgra, w, h);
    FrameSizes(PlaneV, bgra, w, h);
  }

  function ResizedPlanes(planes: Planes, w: nat, h: nat): (r: Planes)
    ensures |r.y| == Size(w, h) && |r.u| == |r.v| == Size(w, h) / 4
  {
    Planes(Resized(planes.y, Size(w, h)), Resized(planes.u, Size(w, h) / 4), Resized(planes.v, Size(w, h) / 4))
  }

  /** Partial on all three planes; a plane that does not fit is left alone. */
  function PartialPlanes(bgra: Octets, was: Planes, dirty: seq<bool>, w: nat): Planes
    requires w > 0
  {
    if !Fit(was, bgra, w) then was
    else Planes(Partial(PlaneY, bgra, was.y, dirty, w), Partial(PlaneU, bgra, was.u, dirty, w),
                Partial(PlaneV, bgra, was.v, dirty, w))
  }

  lemma FillingStart(planes: Planes, bgra: Octets, dirty: seq<bool>, w: nat)
    requires w > 0 && Fit(planes, bgra, w)
    ensures Filling(Planes([], [], []), planes, bgra, dirty, w, PartialPlanes(bgra, planes, dirty, w))
  {
  }

  ghost predicate Filling(done: Planes, left: Planes, rest: Octets, dirty: seq<bool>, w: nat, target: Planes)
    requires w > 0
  {
    && Progress(PlaneY, done.y, left.y, rest, dirty, w, target.y)
    && Progress(PlaneU, done.u, left.u, rest, dirty, w, target.u)
    && Progress(PlaneV, done.v, left.v, rest, dirty, w, target.v)
  }

  lemma FillingStep(done: Planes, left: Planes, rest: Octets, dirty: seq<bool>, w: nat, target: Planes)
    requires w > 0 && |rest| >= 8 * w && Filling(done, left, rest, dirty, w, target)
    ensures left.Holds(w)
    ensures var now := if dirty == [] || dirty[0] then PairPlanes(rest[..8 * w], w) else left.Take(w);
            Filling(done.Join(now), left.Drop(w), rest[8 * w..], if dirty == [] then [] else dirty[1..], w, target)
  {
    PairProgress(PlaneY, done.y, left.y, rest, dirty, w, target.y);
    PairProgress(PlaneU, done.u, left.u, rest, dirty, w, target.u);
    PairProgress(PlaneV, done.v, left.v, rest, dirty, w, target.v);
  }

  lemma NothingJoins(left: Planes)
    ensures Planes([], [], []).Join(left) == left
  {
  }

  lemma SkipJoins(done: Planes, left: Planes, w: nat)
    requires left.Holds(w)
    ensures done.Join(left.Take(w)).Join(left.Drop(w)) == done.Join(left)
  {
    Replace(done.y, left.y, [], 2 * w);
    Replace(done.u, left.u, [], w / 2);
    Replace(done.v, left.v, [], w / 2);
  }

  lemma FillingEnd(done: Planes, left: Planes, rest: Octets, dirty: seq<bool>, w: nat, target: Planes)
    requires w > 0 && |rest| < 8 * w && Filling(done, left, rest, dirty, w, target)
    ensures done.Join(left) == target
  {
  }

  function FullPlanes(bgra: Octets, w: nat): Planes
    requires w > 0
  {
    Planes(Full(PlaneY, bgra, w), Full(PlaneU, bgra, w), Full(PlaneV, bgra, w))
  }

  /** The pairs of a map from `i` on; without a map every pair is due. */
  function PairsFrom(dirty: Option<DirtyMap>, i: nat): seq<bool> {
    if dirty.None? || i >= |dirty.value.pairs| then [] else dirty.value.pairs[i..]
  }

  class I420Buffer {
    var y: array<Byte>
    var u: array<Byte>
    var v: array<Byte>
    var w: nat
    var h: nat

    predicate Valid()
      reads this
    {
      && y != u && y != v && u != v
      && y.Length == Size(w, h) && u.Length == Size(w, h) / 4 && v.Length == Size(w, h) / 4
    }

    constructor ()
      ensures Valid() && w == 0 && h == 0 && fresh(y) && fresh(u) && fresh(v)
    {
      y, u, v := new Byte[0], new Byte[0], new Byte[0];
      w, h := 0, 0;
    }

    function Contents(): Planes
      reads this, y, u, v
    {
      Planes(y[..], u[..], v[..])
    }

    /** Vec::resize on each plane when the size changes. */
    method Ensure(w: nat, h: nat)
      requires Valid()
      modifies this
      ensures Valid() && this.w == w && this.h == h
      ensures unchanged(this) || (fresh(y) && fresh(u) && fresh(v))
      ensures Contents() == ResizedPlanes(old(Contents()), w, h)
    {
      if this.w != w || this.h != h {
        this.w, this.h := w, h;
        y := ResizedArray(y, Size(w, h));
        u := ResizedArray(u, Size(w, h) / 4);
        v := ResizedArray(v, Size(w, h) / 4);
      }
    }

    method ResizedArray(a: array<Byte>, n: nat) returns (b: array<Byte>)
      ensures fresh(b) && b[..] == Resized(a[..], n)
    {
      b := new Byte[n];
      forall i | 0 <= i < n { b[i] := if i < a.Length then a[i] else 0; }
    }

    method FillFromBgra(bgra: Octets, w: nat, h: nat, dirty: Option<DirtyMap>)
      requires Valid() && EvenSize(w, h) && |bgra| == w * h * 4
      modifies this, y, u, v
      ensures Valid() && this.w == w && this.h == h
      ensures (y == old(y) && u == old(u) && v == old(v)) || (fresh(y) && fresh(u) && fresh(v))
      ensures Contents() == PartialPlanes(bgra, ResizedPlanes(old(Contents()), w, h), PairsFrom(dirty, 0), w)
    {
      Ensure(w, h);
      FitPlanes(Contents(), bgra, w, h);
      FillingStart(Contents(), bgra, PairsFrom(dirty, 0), w);
      FillPairs(bgra, dirty, PartialPlanes(bgra, Contents(), PairsFrom(dirty, 0), w));
    }

    /** Convert the row pair that follows the finished parts of the planes. */
    method ConvertNext(pair: Octets, yo: nat, co: nat, ghost done: Planes, ghost left: Planes)
      requires y != u && y != v && u != v && w % 2 == 0 && |pair| == 8 * w && left.Holds(w)
      requires Contents() == done.Join(left) && |done.y| == yo && |done.u| == |done.v| == co
      modifies y, u, v
      ensures Contents() == done.Join(PairPlanes(pair, w)).Join(left.Drop(w))
    {
      Replace(done.y, left.y, PairY(pair, w), 2 * w);
      Replace(done.u, left.u, PairU(pair, w), w / 2);
      Replace(done.v, left.v, PairV(pair, w), w / 2);
      ConvertPair(pair, w, y, yo, u, v, co);
    }

    /** The outer loop over row pairs, skipping the clean ones. */
    method FillPairs(bgra: Octets, dirty: Option<DirtyMap>, ghost target: Planes)
      requires y != u && y != v && u != v && w > 0 && w % 2 == 0
      requires Filling(Planes([], [], []), Contents(), bgra, PairsFrom(dirty, 0), w, target)
      modifies y, u, v
      ensures Contents() == target
    {
      hide Full, Partial, Filling, PairPlanes, PairsFrom;
      var rest := bgra;
      var i: nat, yo: nat, co: nat := 0, 0, 0;
      ghost var done, left := Planes([], [], []), Contents();
      NothingJoins(left);
      while |rest| >= 8 * w
        invariant Contents() == done.Join(left) && |done.y| == yo && |done.u| == |done.v| == co
        invariant Filling(done, left, rest, PairsFrom(dirty, i), w, target)
        decreases |rest|
      {
        FillingStep(done, left, rest, PairsFrom(dirty, i), w, target);
        ghost var now := left.Take(w);
        if dirty.None? || i >= |dirty.value.pairs| || dirty.value.pairs[i] {
          ConvertNext(rest[..8 * w], yo, co, done, left);
          now := PairPlanes(rest[..8 * w], w);
        } else {
          SkipJoins(done, left, w);
        }
        NextPairs(dirty, i);
        done, left := done.Join(now), left.Drop(w);
        rest, i, yo, co := rest[8 * w..], i + 1, yo + 2 * w, co + w / 2;
      }
      FillingEnd(done, left, rest, PairsFrom(dirty, i), w, target);
    }
  }

  lemma NextPairs(dirty: Option<DirtyMap>, i: nat)
    ensures var due := PairsFrom(dirty, i);
            && PairsFrom(dirty, i + 1) == (if due == [] then [] else due[1..])
            && (due == [] || due[0] <==> dirty.None? || i >= |dirty.value.pairs| || dirty.value.pairs[i])
  {
  }
}
