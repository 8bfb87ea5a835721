/**
 The control flow of the hardware encoder around its frame differ and its NV12 array.
 One encoder serves one frame size; the transform's outcome is chosen outside.
 */
module HardwareEncoder {
  import opened Bytes
  import opened ColourConversion
  import opened Nv12
  import opened Options
  import VideoEncoder

  datatype Transform = Failed | NoOutput | Output(key: bool)

  datatype Call = Call(bgra: Octets, w: nat, h: nat, force: bool, transform: Transform)

  datatype Encoded = Error | Nothing | Payload(key: bool)

  /** A whole frame in NV12. */
  function FullNv12(bgra: Octets, w: nat): Octets
    requires w > 0
  {
    Full(PlaneY, bgra, w) + Full(PlaneUV, bgra, w)
  }

  /** It is the I420 frame with its chroma planes interleaved. */
  lemma FullNv12IsI420(bgra: Octets, w: nat)
    requires w > 0
    ensures var i420 := FullPlanes(bgra, w);
            |i420.u| == |i420.v| && FullNv12(bgra, w) == i420.y + Interleave(i420.u, i420.v)
  {
    ChromaIsInterleaved(bgra, w);
  }

  /** Partial conversion of any map of the tracker over the array is the whole frame. */
  lemma ArrayIsExact(was: Octets, wasFresh: bool, prev: Octets, bgra: Octets, w: nat, h: nat, d: DirtyMap)
    requires EvenSize(w, h) && |bgra| == w * h * 4 && VideoEncoder.MapOf(wasFresh, prev, bgra, w, h, d)
    requires !wasFresh && h > 0 ==> was == FullNv12(prev, w)
    ensures PartialNv12(bgra, Resized(was, Size(w, h) * 3 / 2), PairsFrom(Some(d), 0), w, h) == FullNv12(bgra, w)
  {
    hide Full, Partial, Diff, Dirty;
    var n, start := Size(w, h), Resized(was, Size(w, h) * 3 / 2);
    Nv12Sizes(bgra, w, h);
    if !wasFresh && h > 0 {
      Nv12Sizes(prev, w, h);
      CutJoined(Full(PlaneY, prev, w), Full(PlaneUV, prev, w));
    }
    VideoEncoder.PlaneIsExact(PlaneY, start[..n], wasFresh, prev, bgra, w, h, d);
    VideoEncoder.PlaneIsExact(PlaneUV, start[n..], wasFresh, prev, bgra, w, h, d);
    assert PairsFrom(Some(d), 0) == d.pairs;
  }

  lemma CutJoined(a: Octets, b: Octets)
    ensures Resized(a + b, |a| + |b|) == a + b && (a + b)[..|a|] == a && (a + b)[|a|..] == b
  {
  }

  /** Rows `first` to `end` are those from the first flagged row pair to the last. */
  ghost predicate RowsSpan(first: nat, end: nat, flags: seq<bool>) {
    && first % 2 == 0 && end % 2 == 0 && first < end <= 2 * |flags|
    && flags[first / 2] && flags[end / 2 - 1]
    && forall i :: 0 <= i < |flags| && flags[i] ==> first <= 2 * i < end
  }

  class MfVideoEncoder {
    const width: nat
    const height: nat
    const roiSupported: bool
    const tracker: DirtyTracker
    const nv12: Nv12Buffer
    var frameIndex: nat

    ghost function Footprint(): set<object>
      reads this, nv12
    {
      {this, tracker, nv12, nv12.data}
    }

    /** The array is the conversion of the last frame the differ saw. */
    ghost predicate Valid()
      reads this, tracker, nv12, nv12.data
    {
      && EvenSize(width, height) && tracker.Valid() && nv12.Valid()
      && (tracker.valid ==> tracker.w == width && tracker.h == height)
      && (tracker.valid && height > 0 ==>
            nv12.w == width && nv12.h == height && nv12.data[..] == FullNv12(tracker.prev, width))
    }

    constructor (width: nat, height: nat, roiSupported: bool)
      requires EvenSize(width, height)
      ensures Valid() && fresh(Footprint()) && !tracker.valid
      ensures this.width == width && this.height == height
    {
      this.width, this.height, this.roiSupported, frameIndex := width, height, roiSupported, 0;
      tracker := new DirtyTracker();
      nv12 := new Nv12Buffer();
    }

    /** Diff, elide, convert. None means the frame is elided. */
    method Feed(bgra: Octets, force: bool) returns (fed: Option<Octets>, dirty: DirtyMap)
      requires Valid() && |bgra| == width * height * 4
      modifies tracker, nv12, nv12.data
      ensures Valid() && fresh(Footprint() - old(Footprint()))
      ensures fed.Some? ==> fed.value == FullNv12(bgra, width)
      ensures force ==> fed.Some?
      ensures height > 0 ==> (fed.None? <==> !force && old(tracker.valid) && old(tracker.prev) == bgra)
      ensures tracker.valid && tracker.prev == bgra
      ensures old(tracker.valid) ==> |old(tracker.prev)| == |bgra| && dirty.pairs == Diff(old(tracker.prev), bgra, width)
      ensures dirty.dirtyPairs == Dirty(dirty.pairs) && dirty.totalPairs == |dirty.pairs|
      ensures !old(tracker.valid) ==> forall i :: 0 <= i < |dirty.pairs| ==> dirty.pairs[i]
    {
      hide Full, Diff, Dirty, Size, Caught;
      ghost var wasFresh, prev := tracker.Fresh(width, height), tracker.prev;
      ghost var was := nv12.data[..];
      dirty := tracker.Update(bgra, width, height);
      assert VideoEncoder.MapOf(wasFresh, prev, bgra, width, height, dirty);
      if !wasFresh {
        CaughtWhole(prev, bgra, width, height);
      }
      VideoEncoder.DirtyDecides(wasFresh, prev, bgra, width, height, dirty);
      if dirty.IsStatic() && !force {
        return None, dirty;
      }
      assert nv12.data[..] == was && nv12.Valid();
      ArrayIsExact(was, wasFresh, prev, bgra, width, height, dirty);
      nv12.FillFromBgra(bgra, width, height, Some(dirty));
      fed := Some(nv12.data[..]);
    }

    /** `fed` is what the transform is given and `roi` the rows it is told to favour:
        none changed outside them. */
    method Encode(c: Call) returns (r: Encoded, fed: Option<Octets>, roi: Option<(nat, nat)>)
      requires Valid()
      modifies Footprint()
      ensures Valid() && fresh(Footprint() - old(Footprint()))
      ensures r == match fed
                   case Some(_) => (match c.transform
                                    case Failed => Error
                                    case NoOutput => Nothing
                                    case Output(key) => Payload(key))
                   case None => if |c.bgra| != c.w * c.h * 4 || c.w != width || c.h != height then Error else Nothing
      ensures fed.Some? ==> c.w == width && |c.bgra| == c.w * c.h * 4 && fed.value == FullNv12(c.bgra, c.w)
      ensures c.force && !r.Error? ==> fed.Some?
      ensures c.h > 0 && !r.Error? ==> (fed.None? <==> !c.force && old(tracker.valid) && old(tracker.prev) == c.bgra)
      ensures if fed.Some? || r.Nothing? then tracker.valid && tracker.prev == c.bgra else unchanged(tracker)
      ensures roi.Some? ==> fed.Some? && roiSupported && !c.force
      ensures fed.Some? && old(tracker.valid) ==> |old(tracker.prev)| == |c.bgra| && c.w > 0
      ensures fed.Some? && old(tracker.valid) && |old(tracker.prev)| == |c.bgra| && c.w > 0 ==>
                var changed := Diff(old(tracker.prev), c.bgra, c.w);
                && (roi.Some? <==> roiSupported && !c.force && !(forall i :: 0 <= i < |changed| ==> changed[i])
                                   && !(forall i :: 0 <= i < |changed| ==> !changed[i]))
                && (roi.Some? ==> RowsSpan(roi.value.0, roi.value.1, changed))
    {
      hide Full, Diff, Dirty, FullNv12;
      r, fed, roi := Error, None, None;
      if |c.bgra| != c.w * c.h * 4 || c.w != width || c.h != height {
        return;
      }
      var dirty;
      fed, dirty := Feed(c.bgra, c.force);
      if fed.None? {
        r := Nothing;
        return;
      }
      CountAll(dirty.pairs);
      if roiSupported && !c.force && dirty.dirtyPairs != dirty.totalPairs {
        roi := RowBounds(dirty);
      }
      frameIndex := frameIndex + 1;
      r := match c.transform case Failed => Error case NoOutput => Nothing case Output(key) => Payload(key);
    }
  }

  // ------------------------------------------------------------------------- runs

  datatype Entry = Entry(c: Call, r: Encoded, fed: Option<Octets>)

  ghost predicate Faithful(e: Entry) {
    && (e.fed.Some? ==> e.c.w > 0 && |e.c.bgra| == e.c.w * e.c.h * 4 && e.fed.value == FullNv12(e.c.bgra, e.c.w))
    && (e.r.Payload? || (e.c.force && !e.r.Error?) ==> e.fed.Some?)
  }

  ghost predicate AllFaithful(log: seq<Entry>) {
    forall i :: 0 <= i < |log| ==> Faithful(log[i])
  }

  /** Any run of one encoder: whenever the transform runs it is given the whole
      conversion of that call's frame. */
  method EncodeAll(width: nat, height: nat, roiSupported: bool, calls: seq<Call>) returns (log: seq<Entry>)
    requires EvenSize(width, height)
    ensures |log| == |calls| && forall i :: 0 <= i < |calls| ==> log[i].c == calls[i]
    ensures AllFaithful(log)
  {
    hide FullNv12, Diff;
    var encoder := new MfVideoEncoder(width, height, roiSupported);
    log := [];
    while |log| < |calls|
      invariant |log| <= |calls| && forall i :: 0 <= i < |log| ==> log[i].c == calls[i]
      invariant encoder.Valid() && fresh(encoder.Footprint())
      invariant AllFaithful(log)
    {
      var c := calls[|log|];
      var r, fed, roi := encoder.Encode(c);
      log := log + [Entry(c, r, fed)];
    }
  }
}
