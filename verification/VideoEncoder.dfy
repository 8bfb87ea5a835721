/**
 The control flow of the software H.264 encoder around its frame differ and its
 planes: rebuilds, forced keyframes, elided static frames, partial conversion.
 The codec, its rate-control calls and its rebuilds are outcomes chosen outside.
 */
module VideoEncoder {
  import opened Bytes
  import opened ColourConversion
  import opened Options

  /** apply_targets: rates taken over, the encoder rebuilt instead, or an error. */
  datatype Targets = Applied | Rebuilt | RateError

  datatype Codec = CodecError | FrameSkipped | Coded(key: bool)

  /** One `encode` call and what the codec does during it. */
  datatype Call = Call(bgra: Octets, w: nat, h: nat, force: bool,
                       rebuildWorks: bool, targets: Targets, codec: Codec, tuned: bool)

  datatype Encoded = Error | Nothing | Payload(key: bool)

  class H264Encoder {
    const tracker: DirtyTracker
    const yuv: I420Buffer
    var width: nat
    var height: nat
    var forceKeyNext: bool
    var ceilingLifted: bool
    var rebuilds: nat

    ghost function Footprint(): set<object>
      reads this, yuv
    {
      {this, tracker, yuv, yuv.y, yuv.u, yuv.v}
    }

    ghost predicate Valid()
      reads this, tracker, yuv, yuv.y, yuv.u, yuv.v
    {
      tracker.Valid() && yuv.Valid() && InSync()
    }

    /** The cached planes are the conversion of the last frame the differ saw. */
    ghost predicate InSync()
      reads this, tracker, yuv, yuv.y, yuv.u, yuv.v
    {
      tracker.valid && tracker.w > 0 && tracker.h > 0 ==>
        yuv.w == tracker.w && yuv.h == tracker.h && yuv.Contents() == FullPlanes(tracker.prev, tracker.w)
    }

    constructor ()
      ensures Valid() && fresh(Footprint())
      ensures !tracker.valid && !forceKeyNext && width == height == 0
    {
      tracker := new DirtyTracker();
      yuv := new I420Buffer();
      width, height, forceKeyNext, ceilingLifted, rebuilds := 0, 0, false, false, 0;
    }

    method Rebuild()
      modifies this
      ensures forceKeyNext && !ceilingLifted && rebuilds == old(rebuilds) + 1
      ensures width == old(width) && height == old(height)
    {
      forceKeyNext, ceilingLifted, rebuilds := true, false, rebuilds + 1;
    }

    /** A size the encoder was not made for: only a rebuild will do. */
    predicate Resizes(c: Call)
      reads this
    {
      (width != c.w || height != c.h) && (width != 0 || height != 0)
    }

    /** The frame of the call is the one the differ saw last. */
    predicate Compared(c: Call)
      reads this, tracker
    {
      tracker.valid && tracker.w == c.w && tracker.h == c.h && tracker.prev == c.bgra
    }

    /** Follow a new frame size and new rate targets; false ends the call. */
    method Prepare(c: Call) returns (ok: bool)
      modifies this
      ensures ok == ((old(Resizes(c)) ==> c.rebuildWorks) && !c.targets.RateError?)
      ensures !old(Resizes(c)) || c.rebuildWorks ==> width == c.w && height == c.h
      ensures old(Resizes(c)) && !c.rebuildWorks ==> unchanged(this)
      ensures ok ==> rebuilds == old(rebuilds) + (if old(Resizes(c)) then 1 else 0) + (if c.targets.Rebuilt? then 1 else 0)
      ensures rebuilds >= old(rebuilds)
      ensures forceKeyNext == (old(forceKeyNext) || rebuilds > old(rebuilds))
      ensures ceilingLifted == (old(ceilingLifted) && rebuilds == old(rebuilds))
    {
      if width != c.w || height != c.h {
        if width != 0 || height != 0 {
          if !c.rebuildWorks {
            return false;
          }
          Rebuild();
        }
        width, height := c.w, c.h;
      }
      if c.targets.RateError? {
        return false;
      }
      if c.targets.Rebuilt? {
        Rebuild();
      }
      ok := true;
    }

    /** Diff, elide, convert. None means the frame is elided. */
    method Feed(bgra: Octets, w: nat, h: nat, wantKey: bool) returns (fed: Option<Planes>)
      requires Valid() && EvenSize(w, h) && |bgra| == w * h * 4
      modifies tracker, yuv, yuv.y, yuv.u, yuv.v
      ensures Valid() && fresh(Footprint() - old(Footprint()))
      ensures fed.Some? ==> fed.value == FullPlanes(bgra, w)
      ensures wantKey ==> fed.Some?
      ensures h > 0 ==> (fed.None? <==> !wantKey && !old(tracker.Fresh(w, h)) && old(tracker.prev) == bgra)
      ensures tracker.valid && tracker.w == w && tracker.h == h && tracker.prev == bgra
    {
      hide Full, Diff, Dirty, Size, Caught;
      ghost var wasFresh, prev := tracker.Fresh(w, h), tracker.prev;
      ghost var was := yuv.Contents();
      var dirty := tracker.Update(bgra, w, h);
      assert MapOf(wasFresh, prev, bgra, w, h, dirty);
      if !wasFresh {
        CaughtWhole(prev, bgra, w, h);
      }
      DirtyDecides(wasFresh, prev, bgra, w, h, dirty);
      if dirty.IsStatic() && !wantKey {
        return None;
      }
      assert yuv.Contents() == was && yuv.Valid();
      var planes := Convert(bgra, w, h, dirty, was, wasFresh, prev);
      fed := Some(planes);
    }

    /** Partial conversion brings the planes up to the frame just compared. */
    method Convert(bgra: Octets, w: nat, h: nat, dirty: DirtyMap, ghost was: Planes, ghost wasFresh: bool, ghost prev: Octets)
      returns (planes: Planes)
      requires yuv.Valid() && yuv.Contents() == was && EvenSize(w, h) && |bgra| == w * h * 4
      requires MapOf(wasFresh, prev, bgra, w, h, dirty) && (!wasFresh && h > 0 ==> was == FullPlanes(prev, w))
      modifies yuv, yuv.y, yuv.u, yuv.v
      ensures yuv.Valid() && yuv.w == w && yuv.h == h && planes == yuv.Contents() == FullPlanes(bgra, w)
      ensures fresh({yuv.y, yuv.u, yuv.v} - old({yuv.y, yuv.u, yuv.v}))
    {
      hide Full, Diff, Dirty, Partial;
      CacheIsExact(was, wasFresh, prev, bgra, w, h, dirty);
      yuv.FillFromBgra(bgra, w, h, Some(dirty));
      planes := Planes(yuv.y[..], yuv.u[..], yuv.v[..]);
    }

    /** `fed` is what the codec is given, when it runs, and `forced` says it was
        asked for an intra frame first: exactly when the caller asks, when one is
        owed from before, or when the codec was rebuilt. An owed keyframe stays
        owed until the codec runs. A frame is elided exactly when nothing asks for
        a keyframe and it is the frame last compared. */
    method Encode(c: Call) returns (r: Encoded, fed: Option<Planes>, forced: bool)
      requires Valid() && EvenSize(c.w, c.h)
      modifies Footprint()
      ensures Valid() && fresh(Footprint() - old(Footprint()))
      ensures Faithful(c, r, fed)
      ensures c.h > 0 && !r.Error? ==>
                (fed.None? <==> !c.force && !old(forceKeyNext) && rebuilds == old(rebuilds)
                                && !old(tracker.Fresh(c.w, c.h)) && old(tracker.prev) == c.bgra)
      ensures if fed.Some? || r.Nothing? then Compared(c) else unchanged(tracker)
      ensures r == match fed
                   case Some(_) => (match c.codec
                                    case CodecError => Error
                                    case FrameSkipped => Nothing
                                    case Coded(key) => Payload(key))
                   case None => if |c.bgra| != c.w * c.h * 4 || (old(Resizes(c)) && !c.rebuildWorks) || c.targets.RateError?
                                then Error else Nothing
      ensures fed.Some? || r.Nothing? ==>
                && width == c.w && height == c.h
                && rebuilds == old(rebuilds) + (if old(Resizes(c)) then 1 else 0) + (if c.targets.Rebuilt? then 1 else 0)
      ensures rebuilds >= old(rebuilds)
      ensures forced == (fed.Some? && (c.force || old(forceKeyNext) || rebuilds > old(rebuilds)))
      ensures forceKeyNext
              == if fed.None? then old(forceKeyNext) || rebuilds > old(rebuilds)
                 else !c.codec.CodecError? && c.tuned && !(old(ceilingLifted) && rebuilds == old(rebuilds))
    {
      r, fed, forced := Error, None, false;
      if |c.bgra| != c.w * c.h * 4 {
        return;
      }
      var ok := Prepare(c);
      if !ok {
        return;
      }
      var wantKey := c.force || forceKeyNext;
      fed := Feed(c.bgra, c.w, c.h, wantKey);
      if fed.None? {
        r := Nothing;
        return;
      }
      if wantKey {
        forced, forceKeyNext := true, false;
      }
      if c.codec.CodecError? {
        return;
      }
      if !ceilingLifted && c.tuned {
        forceKeyNext, ceilingLifted := true, true;
      }
      r := if c.codec.FrameSkipped? then Nothing else Payload(c.codec.key);
    }
  }

  /** When the codec ran, it was given the full conversion of this call's frame;
      it ran for every payload and every forced call that met no error. */
  ghost predicate Faithful(c: Call, r: Encoded, fed: Option<Planes>) {
    && (fed.Some? ==> c.w > 0 && |c.bgra| == c.w * c.h * 4 && fed.value == FullPlanes(c.bgra, c.w))
    && (r.Payload? || (c.force && !r.Error?) ==> fed.Some?)
  }

  /** What the dirty map of an update says about the frame. */
  ghost predicate MapOf(wasFresh: bool, prev: Octets, bgra: Octets, w: nat, h: nat, d: DirtyMap)
    requires w > 0
  {
    && |d.pairs| == h / 2 && d.dirtyPairs == Dirty(d.pairs)
    && (if wasFresh then forall i :: 0 <= i < |d.pairs| ==> d.pairs[i]
        else |prev| == |bgra| && d.pairs == Diff(prev, bgra, w))
  }

  /** A static map, on a frame with rows, says that the frame is the previous one. */
  lemma DirtyDecides(wasFresh: bool, prev: Octets, bgra: Octets, w: nat, h: nat, d: DirtyMap)
    requires EvenSize(w, h) && |bgra| == w * h * 4 && MapOf(wasFresh, prev, bgra, w, h, d)
    ensures h > 0 ==> (d.IsStatic() <==> !wasFresh && prev == bgra)
  {
    hide Diff, Dirty;
    if h > 0 {
      var first := d.pairs[0];
      CountZero(d.pairs);
      EvenFramesAreWhole(w, h);
      if !wasFresh {
        CleanMeansSameFrame(prev, bgra, w, d.pairs);
      }
    }
  }

  /** After partial conversion one plane of the cache is the whole frame's. */
  lemma PlaneIsExact(p: Plane, start: Octets, wasFresh: bool, prev: Octets, bgra: Octets, w: nat, h: nat, d: DirtyMap)
    requires EvenSize(w, h) && |bgra| == w * h * 4 && MapOf(wasFresh, prev, bgra, w, h, d)
    requires |start| == |Full(p, bgra, w)| && (!wasFresh && h > 0 ==> start == Full(p, prev, w))
    ensures Partial(p, bgra, start, d.pairs, w) == Full(p, bgra, w)
  {
    if wasFresh || h == 0 {
      AllDirtyIsFull(p, start, bgra, d.pairs, w);
    } else {
      PartialIsFull(p, prev, bgra, w);
    }
  }

  lemma SameSizeKeepsPlanes(prev: Octets, w: nat, h: nat)
    requires EvenSize(w, h) && |prev| == w * h * 4
    ensures ResizedPlanes(FullPlanes(prev, w), w, h) == FullPlanes(prev, w)
  {
    FrameSizes(PlaneY, prev, w, h);
    FrameSizes(PlaneU, prev, w, h);
    FrameSizes(PlaneV, prev, w, h);
  }

  lemma CacheIsExact(was: Planes, wasFresh: bool, prev: Octets, bgra: Octets, w: nat, h: nat, d: DirtyMap)
    requires EvenSize(w, h) && |bgra| == w * h * 4 && MapOf(wasFresh, prev, bgra, w, h, d)
    requires !wasFresh && h > 0 ==> was == FullPlanes(prev, w)
    ensures PartialPlanes(bgra, ResizedPlanes(was, w, h), PairsFrom(Some(d), 0), w) == FullPlanes(bgra, w)
  {
    var start := ResizedPlanes(was, w, h);
    FitPlanes(start, bgra, w, h);
    if !wasFresh && h > 0 {
      SameSizeKeepsPlanes(prev, w, h);
    }
    PlaneIsExact(PlaneY, start.y, wasFresh, prev, bgra, w, h, d);
    PlaneIsExact(PlaneU, start.u, wasFresh, prev, bgra, w, h, d);
    PlaneIsExact(PlaneV, start.v, wasFresh, prev, bgra, w, h, d);
    assert PairsFrom(Some(d), 0) == d.pairs;
  }

  predicate Accepts(c: Call) {
    EvenSize(c.w, c.h)
  }

  // ------------------------------------------------------------------------- runs

  /** A call, its result and what the codec was given. */
  datatype Entry = Entry(c: Call, r: Encoded, fed: Option<Planes>)

  ghost predicate AllFaithful(log: seq<Entry>) {
    forall i :: 0 <= i < |log| ==> Faithful(log[i].c, log[i].r, log[i].fed)
  }

  predicate Elided(e: Entry) {
    e.r.Nothing? && e.fed.None?
  }

  predicate SameFrame(a: Call, b: Call) {
    a.w == b.w && a.h == b.h && a.bgra == b.bgra
  }

  /** The newest call for which the codec ran. */
  function LastFed(log: seq<Entry>): Option<Entry> {
    if log == [] then None
    else if log[|log| - 1].fed.Some? then Some(log[|log| - 1])
    else LastFed(log[..|log| - 1])
  }

  /** The newest call that yielded a payload: the frame decoders hold. */
  function NewestPayload(log: seq<Entry>): Option<Entry> {
    if log == [] then None
    else if log[|log| - 1].r.Payload? then Some(log[|log| - 1])
    else NewestPayload(log[..|log| - 1])
  }

  /** An elided frame with rows is the one the codec was given last. */
  ghost predicate ElidesLastFed(log: seq<Entry>) {
    forall i :: 0 <= i < |log| && Elided(log[i]) && log[i].c.h > 0 ==>
      LastFed(log[..i]).Some? && SameFrame(LastFed(log[..i]).value.c, log[i].c)
  }

  lemma OneMore(log: seq<Entry>, e: Entry)
    requires AllFaithful(log) && Faithful(e.c, e.r, e.fed) && ElidesLastFed(log)
    requires Elided(e) && e.c.h > 0 ==> LastFed(log).Some? && SameFrame(LastFed(log).value.c, e.c)
    ensures AllFaithful(log + [e]) && ElidesLastFed(log + [e])
    ensures LastFed(log + [e]) == if e.fed.Some? then Some(e) else LastFed(log)
  {
    hide Faithful;
    var all := log + [e];
    assert all[..|log|] == log;
    forall i | 0 <= i < |all| && Elided(all[i]) && all[i].c.h > 0
      ensures LastFed(all[..i]).Some? && SameFrame(LastFed(all[..i]).value.c, all[i].c)
    {
      if i < |log| {
        assert all[..i] == log[..i];
      }
    }
  }

  /** Any run of a fresh encoder, whatever sizes, forced keyframes, elided frames,
      rebuilds and errors it meets. */
  method EncodeAll(calls: seq<Call>) returns (log: seq<Entry>)
    requires forall i :: 0 <= i < |calls| ==> Accepts(calls[i])
    ensures |log| == |calls| && forall i :: 0 <= i < |calls| ==> log[i].c == calls[i]
    ensures AllFaithful(log) && ElidesLastFed(log)
  {
    hide Faithful, LastFed, FullPlanes, Full, Diff, Size, Caught, ElidesLastFed;
    var encoder := new H264Encoder();
    log := [];
    NothingFed();
    while |log| < |calls|
      invariant |log| <= |calls| && forall i :: 0 <= i < |log| ==> log[i].c == calls[i]
      invariant encoder.Valid() && fresh(encoder.Footprint())
      invariant AllFaithful(log) && ElidesLastFed(log)
      invariant encoder.tracker.valid && encoder.tracker.h > 0 ==>
                  LastFed(log).Some? && encoder.Compared(LastFed(log).value.c)
    {
      assert Accepts(calls[|log|]);
      var r, fed, forced := encoder.Encode(calls[|log|]);
      OneMore(log, Entry(calls[|log|], r, fed));
      log := log + [Entry(calls[|log|], r, fed)];
    }
  }

  lemma NothingFed()
    ensures LastFed([]) == None && ElidesLastFed([])
  {
  }

  lemma {:induction false} PayloadsAreFed(log: seq<Entry>)
    requires AllFaithful(log)
    ensures NewestPayload(log).Some? ==> LastFed(log).Some?
    ensures LastFed(log).Some? && LastFed(log).value.r.Payload? ==> NewestPayload(log) == LastFed(log)
  {
    hide Faithful;
    if log != [] {
      var last := log[|log| - 1];
      assert last.r.Payload? ==> last.fed.Some? by { FaithfulPayload(last); }
      PayloadsAreFed(log[..|log| - 1]);
    }
  }

  lemma FaithfulPayload(e: Entry)
    requires Faithful(e.c, e.r, e.fed)
    ensures e.r.Payload? ==> e.fed.Some?
  {
  }

  /** Decoders hold the elided frame exactly when the codec's last run made a payload
      of it, or skipped a frame that was again the one of the newest payload. */
  lemma ElidedIsShownIff(log: seq<Entry>, i: nat)
    requires AllFaithful(log) && ElidesLastFed(log)
    requires i < |log| && Elided(log[i]) && log[i].c.h > 0
    ensures LastFed(log[..i]).Some?
    ensures var fed, shown := LastFed(log[..i]).value, NewestPayload(log[..i]);
            shown.Some? && SameFrame(shown.value.c, log[i].c)
            <==> fed.r.Payload? || (shown.Some? && SameFrame(shown.value.c, fed.c))
  {
    hide Faithful, LastFed, NewestPayload;
    PayloadsAreFed(log[..i]);
  }

  /** A frame the rate controller skips is elided when it comes again, though the
      newest payload shows another. */
  method SkippedThenElided() returns (log: seq<Entry>)
    ensures |log| == 3 && log[0].r.Payload? && log[1].r == Nothing && Elided(log[2])
    ensures log[1].c == log[2].c && !SameFrame(log[0].c, log[2].c)
  {
    hide Faithful, FullPlanes;
    var black, white := seq(16, _ => 0 as Byte), seq(16, _ => 255 as Byte);
    assert black[0] != white[0];
    var first := Call(black, 2, 2, false, true, Applied, Coded(true), false);
    var again := Call(white, 2, 2, false, true, Applied, FrameSkipped, false);
    var encoder := new H264Encoder();
    var r0, fed0, forced0 := encoder.Encode(first);
    var r1, fed1, forced1 := encoder.Encode(again);
    var r2, fed2, forced2 := encoder.Encode(again);
    log := [Entry(first, r0, fed0), Entry(again, r1, fed1), Entry(again, r2, fed2)];
  }
}
