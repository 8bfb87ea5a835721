/**
 The staging buffer of the hardware encoder: one array holding the luma plane and
 then a chroma plane in which U and V alternate.
 */
module Nv12 {
  import opened Bytes
  import opened ColourConversion
  import opened Options

  /** Two planes of equal length taking turns. */
  function Interleave(u: Octets, v: Octets): (r: Octets)
    requires |u| == |v|
    ensures |r| == 2 * |u|
  {
    seq(2 * |u|, k requires 0 <= k < 2 * |u| => if k % 2 == 0 then u[k / 2] else v[k / 2])
  }

  lemma InterleaveJoins(u: Octets, v: Octets, moreU: Octets, moreV: Octets)
    requires |u| == |v| && |moreU| == |moreV|
    ensures Interleave(u + moreU, v + moreV) == Interleave(u, v) + Interleave(moreU, moreV)
  {
  }

  /** NV12 chroma is I420 chroma, interleaved. */
  lemma {:induction false} ChromaIsInterleaved(bgra: Octets, w: nat)
    requires w > 0
    ensures |Full(PlaneU, bgra, w)| == |Full(PlaneV, bgra, w)|
    ensures Full(PlaneUV, bgra, w) == Interleave(Full(PlaneU, bgra, w), Full(PlaneV, bgra, w))
  {
    if |bgra| >= 8 * w {
      var pair, rest := bgra[..8 * w], bgra[8 * w..];
      ChromaIsInterleaved(rest, w);
      assert PairUV(pair, w) == Interleave(PairU(pair, w), PairV(pair, w));
      InterleaveJoins(PairU(pair, w), PairV(pair, w), Full(PlaneU, rest, w), Full(PlaneV, rest, w));
    }
  }

  /** `x` written over `s` at `at`. */
  function Splice(s: Octets, at: nat, x: Octets): (r: Octets)
    requires at + |x| <= |s|
    ensures |r| == |s|
  {
    s[..at] + x + s[at + |x|..]
  }

  lemma SpliceLeft(a: Octets, b: Octets, at: nat, x: Octets)
    requires at + |x| <= |a|
    ensures Splice(a + b, at, x) == Splice(a, at, x) + b
  {
  }

  lemma SpliceRight(a: Octets, b: Octets, at: nat, x: Octets)
    requires at + |x| <= |b|
    ensures Splice(a + b, |a| + at, x) == a + Splice(b, at, x)
  {
  }

  lemma SpliceBetween(done: Octets, left: Octets, now: Octets)
    requires |now| <= |left|
    ensures Splice(done + left, |done|, now) == (done + now) + left[|now|..]
  {
  }

  /** One 2 x 2 block: four luma bytes and two chroma bytes. */
  function PutBlock(s: Octets, yo: nat, luma: Octets, co: nat, chroma: Octets, w: nat, n: nat): Octets
    requires |luma| == 2 * w && |chroma| == w && n + 2 <= w && yo + 2 * w <= co && co + w <= |s|
  {
    PutTwoRows(s, yo, luma, w, n)[co + n := chroma[n]][co + n + 1 := chroma[n + 1]]
  }

  /** The first `n` columns of a row pair are in place at `yo` and `co`; the rest
      of the array is as it was. */
  ghost predicate Put(s: Octets, was: Octets, yo: nat, luma: Octets, co: nat, chroma: Octets, w: nat, n: nat) {
    && |s| == |was| && |luma| == 2 * w && |chroma| == w && n <= w && yo + 2 * w <= co && co + w <= |s|
    && (forall k :: yo <= k < yo + n || yo + w <= k < yo + w + n ==> s[k] == luma[k - yo])
    && (forall k :: co <= k < co + n ==> s[k] == chroma[k - co])
    && (forall k :: 0 <= k < |s| && !(yo <= k < yo + n) && !(yo + w <= k < yo + w + n) && !(co <= k < co + n)
          ==> s[k] == was[k])
  }

  lemma PutStep(s: Octets, was: Octets, yo: nat, luma: Octets, co: nat, chroma: Octets, w: nat, n: nat)
    requires Put(s, was, yo, luma, co, chroma, w, n) && n + 2 <= w
    ensures Put(PutBlock(s, yo, luma, co, chroma, w, n), was, yo, luma, co, chroma, w, n + 2)
  {
  }

  lemma PutAll(s: Octets, was: Octets, yo: nat, luma: Octets, co: nat, chroma: Octets, w: nat)
    requires Put(s, was, yo, luma, co, chroma, w, w)
    ensures s == Splice(Splice(was, yo, luma), co, chroma)
  {
  }

  lemma EvenAndOdd(j: nat, w: nat)
    requires 2 * j + 1 < w
    ensures 2 * j + 1 < 2 * (w / 2)
    ensures (2 * j) / 2 == j && (2 * j) % 2 == 0 && (2 * j + 1) / 2 == j && (2 * j + 1) % 2 == 1
  {
  }

  lemma ChromaAt(pair: Octets, w: nat, j: nat)
    requires |pair| == 8 * w && 2 * j + 1 < w
    ensures |PairUV(pair, w)| > 2 * j + 1
    ensures PairUV(pair, w)[2 * j] == UAt(pair, w, j) && PairUV(pair, w)[2 * j + 1] == VAt(pair, w, j)
  {
    hide UAt, VAt;
    EvenAndOdd(j, w);
  }

  method PutChroma(data: array<Byte>, at: nat, u: Byte, v: Byte)
    requires at + 2 <= data.Length
    modifies data
    ensures data[..] == old(data[..])[at := u][at + 1 := v]
  {
    data[at] := u;
    data[at + 1] := v;
  }

  method ConvertBlock(pair: Octets, w: nat, j: nat, data: array<Byte>, yo: nat, co: nat)
    requires |pair| == 8 * w && w % 2 == 0 && 2 * j + 1 < w && yo + 2 * w <= co && co + w <= data.Length
    modifies data
    ensures data[..] == PutBlock(old(data[..]), yo, PairY(pair, w), co, PairUV(pair, w), w, 2 * j)
  {
    PutLuma(pair, w, j, data, yo);
    ChromaAt(pair, w, j);
    var b, g, r := BlockMean(pair, w, j, 0), BlockMean(pair, w, j, 1), BlockMean(pair, w, j, 2);
    PutChroma(data, co + 2 * j, ChromaU(b, g, r), ChromaV(b, g, r));
  }

  /** The inner loop: one row pair into its places in the array. */
  method ConvertNv12Pair(pair: Octets, w: nat, data: array<Byte>, yo: nat, co: nat)
    requires |pair| == 8 * w && w % 2 == 0 && yo + 2 * w <= co && co + w <= data.Length
    modifies data
    ensures data[..] == Splice(Splice(old(data[..]), yo, PairY(pair, w)), co, PairUV(pair, w))
  {
    ghost var was := data[..];
    var j := 0;
    while j < w / 2
      invariant 0 <= j <= w / 2
      invariant Put(data[..], was, yo, PairY(pair, w), co, PairUV(pair, w), w, 2 * j)
    {
      PutStep(data[..], was, yo, PairY(pair, w), co, PairUV(pair, w), w, 2 * j);
      ConvertBlock(pair, w, j, data, yo, co);
      j := j + 1;
    }
    PutAll(data[..], was, yo, PairY(pair, w), co, PairUV(pair, w), w);
  }

  /** Both planes under conversion: finished parts and what is left of the old. */
  datatype Halves = Halves(y: Octets, restY: Octets, uv: Octets, restUV: Octets) {
    function All(): Octets { (y + restY) + (uv + restUV) }
  }

  ghost predicate Staging(p: Halves, rest: Octets, dirty: seq<bool>, w: nat, luma: Octets, chroma: Octets)
    requires w > 0
  {
    && Progress(PlaneY, p.y, p.restY, rest, dirty, w, luma)
    && Progress(PlaneUV, p.uv, p.restUV, rest, dirty, w, chroma)
  }

  /** The halves after one more pair, converted or left. */
  function Next(p: Halves, pair: Octets, w: nat, due: bool): Halves
    requires |pair| == 8 * w && w % 2 == 0 && 2 * w <= |p.restY| && w <= |p.restUV|
  {
    Halves(p.y + if due then PairY(pair, w) else p.restY[..2 * w], p.restY[2 * w..],
           p.uv + if due then PairUV(pair, w) else p.restUV[..w], p.restUV[w..])
  }

  lemma StagingStep(p: Halves, rest: Octets, dirty: seq<bool>, w: nat, luma: Octets, chroma: Octets)
    requires w > 0 && w % 2 == 0 && |rest| >= 8 * w && Staging(p, rest, dirty, w, luma, chroma)
    ensures 2 * w <= |p.restY| && w <= |p.restUV|
    ensures Staging(Next(p, rest[..8 * w], w, dirty == [] || dirty[0]), rest[8 * w..],
                    if dirty == [] then [] else dirty[1..], w, luma, chroma)
  {
    PairProgress(PlaneY, p.y, p.restY, rest, dirty, w, luma);
    PairProgress(PlaneUV, p.uv, p.restUV, rest, dirty, w, chroma);
  }

  lemma StagingEnd(p: Halves, rest: Octets, dirty: seq<bool>, w: nat, luma: Octets, chroma: Octets)
    requires w > 0 && |rest| < 8 * w && Staging(p, rest, dirty, w, luma, chroma)
    ensures p.All() == luma + chroma
  {
    hide PairsFrom;
    assert p.y + p.restY == luma && p.uv + p.restUV == chroma;
  }

  lemma SpliceBoth(y: Octets, restY: Octets, uv: Octets, restUV: Octets, luma: Octets, chroma: Octets)
    requires |luma| <= |restY| && |chroma| <= |restUV|
    ensures Splice(Splice((y + restY) + (uv + restUV), |y|, luma), |y| + |restY| + |uv|, chroma)
            == ((y + luma) + restY[|luma|..]) + ((uv + chroma) + restUV[|chroma|..])
  {
    var a, b := y + restY, uv + restUV;
    SpliceLeft(a, b, |y|, luma);
    SpliceBetween(y, restY, luma);
    SpliceRight(Splice(a, |y|, luma), b, |uv|, chroma);
    SpliceBetween(uv, restUV, chroma);
  }

  lemma NextInPlace(p: Halves, pair: Octets, w: nat)
    requires |pair| == 8 * w && w % 2 == 0 && 2 * w <= |p.restY| && w <= |p.restUV|
    ensures Splice(Splice(p.All(), |p.y|, PairY(pair, w)), |p.y| + |p.restY| + |p.uv|, PairUV(pair, w))
            == Next(p, pair, w, true).All()
  {
    SpliceBoth(p.y, p.restY, p.uv, p.restUV, PairY(pair, w), PairUV(pair, w));
  }

  lemma NextSkipped(p: Halves, pair: Octets, w: nat)
    requires |pair| == 8 * w && w % 2 == 0 && 2 * w <= |p.restY| && w <= |p.restUV|
    ensures Next(p, pair, w, false).All() == p.All()
  {
    SpliceBetween(p.y, p.restY, p.restY[..2 * w]);
    SpliceBetween(p.uv, p.restUV, p.restUV[..w]);
  }

  /** The planes of NV12 after partial conversion over the bytes `was`. */
  function PartialNv12(bgra: Octets, was: Octets, dirty: seq<bool>, w: nat, h: nat): Octets
    requires w > 0
  {
    if Size(w, h) > |was| || |Full(PlaneY, bgra, w)| != Size(w, h)
       || |Full(PlaneUV, bgra, w)| != |was| - Size(w, h) then was
    else Partial(PlaneY, bgra, was[..Size(w, h)], dirty, w) + Partial(PlaneUV, bgra, was[Size(w, h)..], dirty, w)
  }

  lemma Nv12Sizes(bgra: Octets, w: nat, h: nat)
    requires EvenSize(w, h) && |bgra| == w * h * 4
    ensures |Full(PlaneY, bgra, w)| == Size(w, h) <= Size(w, h) * 3 / 2
    ensures |Full(PlaneUV, bgra, w)| == Size(w, h) * 3 / 2 - Size(w, h)
  {
    FrameSizes(PlaneY, bgra, w, h);
    FrameSizes(PlaneUV, bgra, w, h);
    HalfProduct(w, h, w / 2, h / 2);
  }

  lemma StagingStart(y: Octets, uv: Octets, bgra: Octets, dirty: seq<bool>, w: nat)
    requires w > 0 && |Full(PlaneY, bgra, w)| == |y| && |Full(PlaneUV, bgra, w)| == |uv|
    ensures Staging(Halves([], y, [], uv), bgra, dirty, w,
                    Partial(PlaneY, bgra, y, dirty, w), Partial(PlaneUV, bgra, uv, dirty, w))
    ensures Halves([], y, [], uv).All() == y + uv
  {
    EmptyFirst(y);
    EmptyFirst(uv);
    EmptyFirst(Partial(PlaneY, bgra, y, dirty, w));
    EmptyFirst(Partial(PlaneUV, bgra, uv, dirty, w));
  }

  lemma EmptyFirst(s: Octets)
    ensures [] + s == s
  {
  }

  /** Nothing finished yet, on an array cut after the luma plane. */
  function Cut(s: Octets, n: nat): Halves
    requires n <= |s|
  {
    Halves([], s[..n], [], s[n..])
  }

  lemma StagingCut(was: Octets, bgra: Octets, dirty: seq<bool>, w: nat, h: nat)
    requires EvenSize(w, h) && |bgra| == w * h * 4 && |was| == Size(w, h) * 3 / 2
    ensures Size(w, h) <= |was| && Cut(was, Size(w, h)).All() == was
    ensures var start := Cut(was, Size(w, h));
            && |Full(PlaneY, bgra, w)| == |start.restY| && |Full(PlaneUV, bgra, w)| == |start.restUV|
            && Staging(start, bgra, dirty, w, Partial(PlaneY, bgra, start.restY, dirty, w),
                       Partial(PlaneUV, bgra, start.restUV, dirty, w))
            && PartialNv12(bgra, was, dirty, w, h)
               == Partial(PlaneY, bgra, start.restY, dirty, w) + Partial(PlaneUV, bgra, start.restUV, dirty, w)
  {
    Nv12Sizes(bgra, w, h);
    var n := Size(w, h);
    StagingStart(was[..n], was[n..], bgra, dirty, w);
    assert was == was[..n] + was[n..];
  }

  class Nv12Buffer {
    var data: array<Byte>
    var w: nat
    var h: nat

    predicate Valid()
      reads this
    {
      data.Length == Size(w, h) * 3 / 2
    }

    constructor ()
      ensures Valid() && w == 0 && h == 0 && fresh(data)
    {
      data, w, h := new Byte[0], 0, 0;
    }

    method Ensure(w: nat, h: nat)
      requires Valid()
      modifies this
      ensures Valid() && this.w == w && this.h == h
      ensures unchanged(this) || fresh(data)
      ensures data[..] == Resized(old(data[..]), Size(w, h) * 3 / 2)
    {
      if this.w != w || this.h != h {
        this.w, this.h := w, h;
        var was, n := data, Size(w, h) * 3 / 2;
        data := new Byte[n];
        forall i | 0 <= i < n { data[i] := if i < was.Length then was[i] else 0; }
      }
    }

    method FillFromBgra(bgra: Octets, w: nat, h: nat, dirty: Option<DirtyMap>)
      requires Valid() && EvenSize(w, h) && |bgra| == w * h * 4
      modifies this, data
      ensures Valid() && this.w == w && this.h == h && (data == old(data) || fresh(data))
      ensures data[..] == PartialNv12(bgra, Resized(old(data[..]), Size(w, h) * 3 / 2), PairsFrom(dirty, 0), w, h)
    {
      Ensure(w, h);
      ghost var start := Cut(data[..], Size(w, h));
      StagingCut(data[..], bgra, PairsFrom(dirty, 0), w, h);
      FillPairs(bgra, dirty, start, Partial(PlaneY, bgra, start.restY, PairsFrom(dirty, 0), w),
                Partial(PlaneUV, bgra, start.restUV, PairsFrom(dirty, 0), w));
    }

    /** One pair, converted into its place when it is due. */
    method FillPair(pair: Octets, due: bool, yo: nat, co: nat, ghost p: Halves)
      requires |pair| == 8 * w && w % 2 == 0 && 2 * w <= |p.restY| && w <= |p.restUV|
      requires data[..] == p.All() && |p.y| == yo && |p.y| + |p.restY| + |p.uv| == co
      modifies data
      ensures data[..] == Next(p, pair, w, due).All()
    {
      hide PairY, PairUV, Splice, Next;
      if due {
        assert data.Length == |p.All()| == |p.y| + |p.restY| + |p.uv| + |p.restUV|;
        NextInPlace(p, pair, w);
        ConvertNv12Pair(pair, w, data, yo, co);
      } else {
        NextSkipped(p, pair, w);
      }
    }

    /** The outer loop over row pairs, skipping the clean ones. */
    method FillPairs(bgra: Octets, dirty: Option<DirtyMap>, ghost start: Halves, ghost luma: Octets, ghost chroma: Octets)
      requires w > 0 && w % 2 == 0 && data[..] == start.All() && start.y == start.uv == []
      requires |start.restY| == Size(w, h) && Staging(start, bgra, PairsFrom(dirty, 0), w, luma, chroma)
      modifies data
      ensures data[..] == luma + chroma
    {
      hide Full, Partial, PairY, PairUV, Size;
      var rest := bgra;
      var i: nat, yo: nat, co: nat := 0, 0, Size(w, h);
      ghost var p := start;
      while |rest| >= 8 * w
        invariant data[..] == p.All() && |p.y| == yo && |p.y| + |p.restY| + |p.uv| == co
        invariant Staging(p, rest, PairsFrom(dirty, i), w, luma, chroma)
        decreases |rest|
      {
        StagingStep(p, rest, PairsFrom(dirty, i), w, luma, chroma);
        NextPairs(dirty, i);
        var due := dirty.None? || i >= |dirty.value.pairs| || dirty.value.pairs[i];
        FillPair(rest[..8 * w], due, yo, co, p);
        p := Next(p, rest[..8 * w], w, due);
        rest, i, yo, co := rest[8 * w..], i + 1, yo + 2 * w, co + w;
      }
      StagingEnd(p, rest, PairsFrom(dirty, i), w, luma, chroma);
    }
  }

  /** The cache law for NV12: the changed pairs over the previous frame's planes
      give the luma plane of I420 followed by its chroma planes interleaved. */
  lemma PartialIsFullNv12(prev: Octets, bgra: Octets, w: nat, h: nat)
    requires EvenSize(w, h) && |prev| == |bgra| == w * h * 4
    ensures |Full(PlaneU, bgra, w)| == |Full(PlaneV, bgra, w)|
    ensures PartialNv12(bgra, Full(PlaneY, prev, w) + Full(PlaneUV, prev, w), Diff(prev, bgra, w), w, h)
            == Full(PlaneY, bgra, w) + Interleave(Full(PlaneU, bgra, w), Full(PlaneV, bgra, w))
  {
    Nv12Sizes(prev, w, h);
    Nv12Sizes(bgra, w, h);
    var was := Full(PlaneY, prev, w) + Full(PlaneUV, prev, w);
    assert was[..Size(w, h)] == Full(PlaneY, prev, w) && was[Size(w, h)..] == Full(PlaneUV, prev, w);
    PartialIsFull(PlaneY, prev, bgra, w);
    PartialIsFull(PlaneUV, prev, bgra, w);
    ChromaIsInterleaved(bgra, w);
  }
}
