/**
 The web viewer's muxer: Annex-B access units in, init segments and movie fragments
 out, with a sequence number and a decode time that run on.
 */
module Muxer {
  import opened Bytes
  import opened Boxes
  import opened Fragments
  import opened Options
  import AnnexB

  datatype Frame = Frame(payload: Octets, keyframe: bool, ts: int, width: nat, height: nat)

  datatype Mux = Mux(sps: Option<Octets>, pps: Option<Octets>, number: nat, base: nat, last: Option<int>)

  const NewMux := Mux(None, None, 1, 0, None)

  /** The type bits of the first byte; an empty unit counts as type 0. */
  function NalType(nal: Octets): nat {
    if nal == [] then 0 else AnnexB.NalType(nal[0])
  }

  const SPS := 7
  const PPS := 8

  /** The parameter sets and media units met so far in one access unit. */
  datatype Gathered = Gathered(sps: Option<Octets>, pps: Option<Octets>, changed: bool, media: seq<Octets>)

  function Take(g: Gathered, nal: Octets): Gathered {
    if NalType(nal) == SPS then
      if g.sps == Some(nal) then g else g.(sps := Some(nal), changed := true)
    else if NalType(nal) == PPS then
      if g.pps == Some(nal) then g else g.(pps := Some(nal), changed := true)
    else g.(media := g.media + [nal])
  }

  function Gather(g: Gathered, nals: seq<Octets>): Gathered
    decreases |nals|
  {
    if nals == [] then g else Gather(Take(g, nals[0]), nals[1..])
  }

  /** Frame duration in 1/90000 s: the capture distance when it is plausible. */
  function Duration(last: Option<int>, ts: int): (d: nat)
    ensures 90 <= d <= 90_000
  {
    var us := if last.Some? && 1_000 < ts - last.value < 1_000_000 then ts - last.value else 33_333;
    (us * 9 + 50) / 100
  }

  function Silent(m: Mux, g: Gathered): Mux {
    m.(sps := g.sps, pps := g.pps)
  }

  predicate Sends(g: Gathered) {
    g.sps.Some? && g.pps.Some? && g.media != []
  }

  function Gathering(m: Mux, f: Frame): Gathered {
    Gather(Gathered(m.sps, m.pps, false, []), AnnexB.Split(f.payload))
  }

  predicate NeedsInit(m: Mux, g: Gathered, f: Frame) {
    g.changed || (f.keyframe && m.number == 1)
  }

  function MuxAfter(m: Mux, f: Frame): Mux {
    var g := Gathering(m, f);
    if !Sends(g) then Silent(m, g)
    else
      Silent(m, g).(number := m.number + 1, base := m.base + Duration(m.last, f.ts), last := Some(f.ts))
  }

  function FragmentFor(m: Mux, f: Frame): Octets {
    FragmentBytes(m.number, f.keyframe, m.base, Duration(m.last, f.ts), LengthPrefixed(Gathering(m, f).media))
  }

  function Segments(m: Mux, f: Frame): Option<seq<Octets>> {
    var g := Gathering(m, f);
    if !Sends(g) then None
    else
      Some((if NeedsInit(m, g, f) then [InitSegment(g.sps.value, g.pps.value, f.width, f.height)] else [])
           + [FragmentFor(m, f)])
  }

  class Fmp4Muxer {
    var sps: Option<Octets>
    var pps: Option<Octets>
    var number: nat
    var baseDts: nat
    var lastTsUs: Option<int>

    constructor ()
      ensures State() == NewMux
    {
      sps, pps, number, baseDts, lastTsUs := None, None, 1, 0, None;
    }

    function State(): Mux
      reads this
    {
      Mux(sps, pps, number, baseDts, lastTsUs)
    }

    method Push(f: Frame) returns (out: Option<seq<Octets>>)
      modifies this
      ensures State() == MuxAfter(old(State()), f) && out == Segments(old(State()), f)
    {
      hide FragmentBytes, InitSegment, Gather, LengthPrefixed, AnnexB.Split;
      var nals := AnnexB.SplitNals(f.payload);
      var media, changed := Sort(nals);
      if sps.None? || pps.None? || media == [] {
        return None;
      }
      var segments := [];
      if changed || (f.keyframe && number == 1) {
        segments := [InitSegment(sps.value, pps.value, f.width, f.height)];
      }
      var durUs := 33_333;
      if lastTsUs.Some? {
        var d := f.ts - lastTsUs.value;
        if d > 1_000 && d < 1_000_000 {
          durUs := d;
        }
      }
      lastTsUs := Some(f.ts);
      var sample := Prefix(media);
      var fragment := AppendFragment(sample, (durUs * 9 + 50) / 100, f.keyframe);
      out := Some(segments + [fragment]);
    }

    /** Keep parameter sets, collect the rest. */
    method Sort(nals: seq<Octets>) returns (media: seq<Octets>, changed: bool)
      modifies `sps, `pps
      ensures Gathered(sps, pps, changed, media) == Gather(Gathered(old(sps), old(pps), false, []), nals)
    {
      media, changed := [], false;
      var left := nals;
      while left != []
        invariant Gather(Gathered(sps, pps, changed, media), left) == Gather(Gathered(old(sps), old(pps), false, []), nals)
      {
        var nal := left[0];
        if NalType(nal) == SPS {
          if sps != Some(nal) {
            sps, changed := Some(nal), true;
          }
        } else if NalType(nal) == PPS {
          if pps != Some(nal) {
            pps, changed := Some(nal), true;
          }
        } else {
          media := media + [nal];
        }
        left := left[1..];
      }
    }

    method Prefix(media: seq<Octets>) returns (sample: Octets)
      ensures sample == LengthPrefixed(media)
    {
      sample := [];
      var left := media;
      while left != []
        invariant sample + LengthPrefixed(left) == LengthPrefixed(media)
      {
        Regroup(sample, Be32(|left[0]|), left[0] + LengthPrefixed(left[1..]));
        Regroup(sample + Be32(|left[0]|), left[0], LengthPrefixed(left[1..]));
        sample, left := sample + Be32(|left[0]|) + left[0], left[1..];
      }
    }

    method AppendFragment(sample: Octets, duration: nat, key: bool) returns (bytes: Octets)
      modifies `number, `baseDts
      ensures bytes == FragmentBytes(old(number), key, old(baseDts), duration, sample)
      ensures number == old(number) + 1 && baseDts == old(baseDts) + duration
    {
      var box := Print(MoofOf(number, key, baseDts, 0, duration, |sample|));
      number := number + 1;
      baseDts := baseDts + duration;
      var moof := new Byte[|box|](i requires 0 <= i < |box| => box[i]);
      assert moof[..] == box;
      var _ := PatchTrunDataOffset(moof, moof.Length + 8);
      bytes := moof[..] + Box(MDAT, sample);
    }
  }

  // -------------------------------------------------------------- the init segment

  function Be16(v: nat): (r: Octets)
    ensures |r| == 2
  {
    BigEndian(v, 2)
  }

  function Zeros(n: nat): (r: Octets)
    ensures |r| == n
  {
    seq(n, _ => 0)
  }

  /** A byte of a parameter set; 0 when it is too short. */
  function At(s: Octets, i: nat): Byte {
    if i < |s| then s[i] else 0
  }

  const FTYP := 0x66747970
  const MVHD := 0x6d766864
  const TKHD := 0x746b6864
  const MDHD := 0x6d646864
  const HDLR := 0x68646c72
  const VMHD := 0x766d6864
  const DREF := 0x64726566
  const URL := 0x75726c20
  const STSD := 0x73747364
  const STTS := 0x73747473
  const STSC := 0x73747363
  const STSZ := 0x7374737a
  const STCO := 0x7374636f
  const TREX := 0x74726578
  const AVC1 := 0x61766331
  const AVCC := 0x61766343
  const TIMESCALE := 90_000

  function AvccBody(sps: Octets, pps: Octets): Octets {
    [1, At(sps, 1), At(sps, 2), At(sps, 3), 0xff, 0xe1] + Be16(|sps|) + sps + ([1] + Be16(|pps|) + pps)
  }

  function Avc1Fields(w: nat, h: nat): (r: Octets)
    ensures |r| == 78
  {
    Zeros(6) + Be16(1) + Zeros(16) + Be16(w) + Be16(h) + Be32(0x00480000) + Be32(0x00480000) + Be32(0)
    + Be16(1) + Zeros(32) + Be16(0x0018) + [0xff, 0xff]
  }

  function Avc1(sps: Octets, pps: Octets, w: nat, h: nat): Tree {
    Leaf(AVC1, Avc1Fields(w, h) + Print(Leaf(AVCC, AvccBody(sps, pps))))
  }

  function Stsd(sps: Octets, pps: Octets, w: nat, h: nat): Tree {
    Leaf(STSD, Version(0, 0) + Be32(1) + Print(Avc1(sps, pps, w, h)))
  }

  function Stbl(sps: Octets, pps: Octets, w: nat, h: nat): Tree {
    Node(STBL, [Stsd(sps, pps, w, h), Leaf(STTS, Version(0, 0) + Be32(0)), Leaf(STSC, Version(0, 0) + Be32(0)),
                Leaf(STSZ, Version(0, 0) + Be32(0) + Be32(0)), Leaf(STCO, Version(0, 0) + Be32(0))])
  }

  function Minf(sps: Octets, pps: Octets, w: nat, h: nat): Tree {
    Node(MINF, [Leaf(VMHD, Version(0, 1) + Zeros(8)),
                Node(DINF, [Leaf(DREF, Version(0, 0) + Be32(1) + Box(URL, Version(0, 1)))]),
                Stbl(sps, pps, w, h)])
  }

  /** "vide", the handler's name and the reserved bytes around them. */
  function HdlrBody(): (r: Octets)
    ensures |r| == 36
  {
    Version(0, 0) + Be32(0) + Be32(0x76696465) + Zeros(12)
    + [0x4e, 0x65, 0x62, 0x75, 0x6c, 0x61, 0x56, 0x69, 0x64, 0x65, 0x6f, 0]
  }

  function Mdia(sps: Octets, pps: Octets, w: nat, h: nat): Tree {
    Node(MDIA, [Leaf(MDHD, Version(0, 0) + Be32(0) + Be32(0) + Be32(TIMESCALE) + Be32(0) + Be16(0x55c4) + Be16(0)),
                Leaf(HDLR, HdlrBody()), Minf(sps, pps, w, h)])
  }

  function Identity(): (r: Octets)
    ensures |r| == 36
  {
    Be32(0x00010000) + Zeros(12) + Be32(0x00010000) + Zeros(12) + Be32(0x40000000)
  }

  /** `width << 16` keeps the low 16 bits of the size in the high half. */
  function TkhdBody(w: nat, h: nat): (r: Octets)
    ensures |r| == 84
  {
    Version(0, 7) + Be32(0) + Be32(0) + Be32(1) + Zeros(24) + Identity() + (Be16(w) + Be16(0)) + (Be16(h) + Be16(0))
  }

  function MvhdBody(): (r: Octets)
    ensures |r| == 100
  {
    Version(0, 0) + Be32(0) + Be32(0) + Be32(TIMESCALE) + Be32(0) + Be32(0x00010000) + Be16(0x0100) + Be16(0)
    + Zeros(8) + Identity() + Zeros(24) + Be32(2)
  }

  function Trak(sps: Octets, pps: Octets, w: nat, h: nat): Tree {
    Node(TRAK, [Leaf(TKHD, TkhdBody(w, h)), Mdia(sps, pps, w, h)])
  }

  function Mvex(): Tree {
    Node(MVEX, [Leaf(TREX, Version(0, 0) + Be32(1) + Be32(1) + Be32(0) + Be32(0) + Be32(0x00010000))])
  }

  function Ftyp(): Tree {
    Leaf(FTYP, Be32(0x69736f6d) + Be32(0x200) + Be32(0x69736f6d) + Be32(0x69736f35) + Be32(AVC1) + Be32(0x6d703431))
  }

  function InitTrees(sps: Octets, pps: Octets, w: nat, h: nat): seq<Tree> {
    [Ftyp(), Node(MOOV, [Leaf(MVHD, MvhdBody()), Trak(sps, pps, w, h), Mvex()])]
  }

  function InitSegment(sps: Octets, pps: Octets, w: nat, h: nat): Octets {
    PrintAll(InitTrees(sps, pps, w, h))
  }

  // ------------------------------------------------------- reading an init segment

  /** The parameter sets of a decoder configuration record. */
  function ReadAvcc(body: Octets): Option<(Octets, Octets)> {
    if |body| < 8 then None
    else
      var n := Field(body, 6, 2);
      if |body| < 11 + n || body[8 + n] != 1 then None
      else
        var m := Field(body, 9 + n, 2);
        if |body| < 11 + n + m then None else Some((body[8..8 + n], body[11 + n..11 + n + m]))
  }

  /** The body of the one leaf of type `kind` that tiles `s`. */
  function OneLeaf(s: Octets, kind: FourCC): Option<Octets> {
    match Parse(s)
    case None => None
    case Some(ts) => if |ts| == 1 && ts[0].Leaf? && ts[0].kind == kind then Some(ts[0].body) else None
  }

  function ReadStsd(body: Octets): Option<(Octets, Octets)> {
    if |body| < 8 then None
    else
      match OneLeaf(body[8..], AVC1)
      case None => None
      case Some(avc1) =>
        if |avc1| < 78 then None
        else
          match OneLeaf(avc1[78..], AVCC) case None => None case Some(avcc) => ReadAvcc(avcc)
  }

  /** The boxes inside the first container of type `kind`. */
  function Inside(ts: seq<Tree>, kind: FourCC): seq<Tree> {
    if ts == [] then []
    else if ts[0].Node? && ts[0].kind == kind then ts[0].kids
    else Inside(ts[1..], kind)
  }

  function LeafBody(ts: seq<Tree>, kind: FourCC): Option<Octets> {
    if ts == [] then None
    else if ts[0].Leaf? && ts[0].kind == kind then Some(ts[0].body)
    else LeafBody(ts[1..], kind)
  }

  /** The parameter sets a decoder finds in an init segment. */
  function ReadParams(s: Octets): Option<(Octets, Octets)> {
    match Parse(s)
    case None => None
    case Some(ts) =>
      var stbl := Inside(Inside(Inside(Inside(Inside(ts, MOOV), TRAK), MDIA), MINF), STBL);
      match LeafBody(stbl, STSD) case None => None case Some(body) => ReadStsd(body)
  }

  lemma Be16Reads(v: nat)
    ensures FromBigEndian(Be16(v)) == v % 65_536
  {
    var high, low := v / 256 % 256, v % 256;
    assert BigEndian(v / 256, 1) == [] + [high];
    assert Be16(v) == [high] + [low] && Be16(v)[..1] == [high] && [high][..0] == [];
    assert FromBigEndian([high]) == high;
  }

  lemma AvccLies(sps: Octets, pps: Octets)
    ensures var b, n := AvccBody(sps, pps), |sps|;
            && |b| == 11 + n + |pps| && b[8 + n] == 1
            && b[6..8] == Be16(n) && b[8..8 + n] == sps
            && b[9 + n..11 + n] == Be16(|pps|) && b[11 + n..11 + n + |pps|] == pps
  {
    hide BigEndian;
  }

  lemma AvccReadsBack(sps: Octets, pps: Octets)
    requires |sps| < 65_536 && |pps| < 65_536
    ensures ReadAvcc(AvccBody(sps, pps)) == Some((sps, pps))
  {
    hide AvccBody, Be16, FromBigEndian, BigEndian, At;
    Be16Reads(|sps|);
    Be16Reads(|pps|);
    AvccLies(sps, pps);
    var b, n := AvccBody(sps, pps), |sps|;
    assert Field(b, 6, 2) == n && Field(b, 9 + n, 2) == |pps|;
  }

  lemma OneLeafReads(kind: FourCC, body: Octets)
    requires kind < U32 && 8 + |body| < U32 && !Container(kind)
    ensures OneLeaf(Print(Leaf(kind, body)), kind) == Some(body)
  {
    hide BigEndian, Parse;
    PrintFew(Leaf(kind, body), Leaf(kind, body), Leaf(kind, body));
    ParseInvertsPrint([Leaf(kind, body)]);
  }

  lemma StsdReadsBack(sps: Octets, pps: Octets, w: nat, h: nat)
    requires |sps| < 65_536 && |pps| < 65_536
    ensures ReadStsd(Stsd(sps, pps, w, h).body) == Some((sps, pps))
    ensures |Print(Stsd(sps, pps, w, h))| < 200_000
  {
    hide BigEndian, FromBigEndian, Parse, ReadAvcc, OneLeaf;
    var avcc := AvccBody(sps, pps);
    AvccReadsBack(sps, pps);
    OneLeafReads(AVCC, avcc);
    var avc1 := Avc1(sps, pps, w, h);
    assert avc1.body[78..] == Print(Leaf(AVCC, avcc));
    OneLeafReads(AVC1, avc1.body);
    assert Stsd(sps, pps, w, h).body[8..] == Print(avc1);
  }

  predicate Small(t: Tree, bound: nat) {
    Proper(t) && |Print(t)| <= bound
  }

  lemma OneMoreBound(n: nat, bound: nat)
    ensures (n + 1) * bound == n * bound + bound
  {
  }

  lemma {:induction false} AllSmall(ts: seq<Tree>, bound: nat)
    requires forall t :: t in ts ==> Small(t, bound)
    ensures AllProper(ts) && |PrintAll(ts)| <= |ts| * bound
  {
    hide Print, Proper;
    if ts != [] {
      assert Small(ts[0], bound);
      assert forall t :: t in ts[1..] ==> t in ts;
      AllSmall(ts[1..], bound);
      OneMoreBound(|ts[1..]|, bound);
    }
  }

  lemma SmallNode(kind: FourCC, kids: seq<Tree>, bound: nat, total: nat)
    requires Container(kind) && 8 + |kids| * bound <= total < U32
    requires forall t :: t in kids ==> Small(t, bound)
    ensures Small(Node(kind, kids), total)
  {
    hide BigEndian, Small;
    AllSmall(kids, bound);
    assert Small(Node(kind, kids), total) by { NodeSize(kind, kids, total); }
  }

  lemma NodeSize(kind: FourCC, kids: seq<Tree>, total: nat)
    requires Container(kind) && AllProper(kids) && 8 + |PrintAll(kids)| <= total < U32
    ensures Small(Node(kind, kids), total)
  {
  }

  lemma SmallLeaf(kind: FourCC, body: Octets, bound: nat)
    requires kind < U32 && !Container(kind) && 8 + |body| <= bound < U32
    ensures Small(Leaf(kind, body), bound)
  {
  }

  lemma SmallGrows(t: Tree, bound: nat, more: nat)
    requires Small(t, bound) && bound <= more
    ensures Small(t, more)
  {
  }

  lemma SmallStbl(sps: Octets, pps: Octets, w: nat, h: nat)
    requires |sps| < 65_536 && |pps| < 65_536
    ensures Small(Stbl(sps, pps, w, h), 1_000_008)
  {
    hide BigEndian, Small, Avc1, Print;
    StsdReadsBack(sps, pps, w, h);
    var kids := Stbl(sps, pps, w, h).kids;
    StsdIs(sps, pps, w, h);
    SmallLeaf(STSD, kids[0].body, 200_000);
    SmallLeaf(STTS, kids[1].body, 200_000);
    SmallLeaf(STSC, kids[2].body, 200_000);
    SmallLeaf(STSZ, kids[3].body, 200_000);
    SmallLeaf(STCO, kids[4].body, 200_000);
    SmallNode(STBL, kids, 200_000, 1_000_008);
  }

  lemma StsdIs(sps: Octets, pps: Octets, w: nat, h: nat)
    ensures Stsd(sps, pps, w, h).Leaf? && Stsd(sps, pps, w, h).kind == STSD
    ensures |Print(Stsd(sps, pps, w, h))| == 8 + |Stsd(sps, pps, w, h).body|
  {
  }

  lemma SmallMinf(sps: Octets, pps: Octets, w: nat, h: nat)
    requires |sps| < 65_536 && |pps| < 65_536
    ensures Small(Minf(sps, pps, w, h), 4_000_000)
  {
    hide BigEndian, Small, Stbl;
    SmallStbl(sps, pps, w, h);
    SmallGrows(Stbl(sps, pps, w, h), 1_000_008, 1_100_000);
    var kids := Minf(sps, pps, w, h).kids;
    SmallLeaf(VMHD, kids[0].body, 1_100_000);
    var dref := kids[1].kids;
    SmallLeaf(DREF, dref[0].body, 1_000);
    SmallNode(DINF, dref, 1_000, 1_100_000);
    SmallNode(MINF, kids, 1_100_000, 4_000_000);
  }

  lemma SmallMdia(sps: Octets, pps: Octets, w: nat, h: nat)
    requires |sps| < 65_536 && |pps| < 65_536
    ensures Small(Mdia(sps, pps, w, h), 13_000_000)
  {
    hide BigEndian, Small, Minf;
    SmallMinf(sps, pps, w, h);
    var kids := Mdia(sps, pps, w, h).kids;
    SmallLeaf(MDHD, kids[0].body, 4_000_000);
    SmallLeaf(HDLR, kids[1].body, 4_000_000);
    SmallNode(MDIA, kids, 4_000_000, 13_000_000);
  }

  lemma InitIsProper(sps: Octets, pps: Octets, w: nat, h: nat)
    requires |sps| < 65_536 && |pps| < 65_536
    ensures AllProper(InitTrees(sps, pps, w, h))
  {
    hide BigEndian, Small, Mdia;
    SmallMdia(sps, pps, w, h);
    var trak := Trak(sps, pps, w, h).kids;
    SmallLeaf(TKHD, trak[0].body, 13_000_000);
    SmallNode(TRAK, trak, 13_000_000, 27_000_000);
    SmallLeaf(TREX, Mvex().kids[0].body, 1_000);
    SmallNode(MVEX, Mvex().kids, 1_000, 27_000_000);
    var ts := InitTrees(sps, pps, w, h);
    SmallLeaf(MVHD, ts[1].kids[0].body, 27_000_000);
    SmallNode(MOOV, ts[1].kids, 27_000_000, 90_000_000);
    SmallLeaf(FTYP, Ftyp().body, 90_000_000);
    AllSmall(ts, 90_000_000);
  }

  /** Where the boxes of an init segment are found again. */
  lemma BoxesAreFound(sps: Octets, pps: Octets, w: nat, h: nat)
    requires |sps| < 65_536 && |pps| < 65_536
    ensures Parse(InitSegment(sps, pps, w, h)) == Some(InitTrees(sps, pps, w, h))
    ensures var trak := Inside(Inside(InitTrees(sps, pps, w, h), MOOV), TRAK);
            && LeafBody(trak, TKHD) == Some(TkhdBody(w, h))
            && Inside(trak, MDIA) == Mdia(sps, pps, w, h).kids
            && LeafBody(Inside(Inside(Inside(trak, MDIA), MINF), STBL), STSD) == Some(Stsd(sps, pps, w, h).body)
  {
    hide BigEndian, Parse, Print, PrintAll, Stsd, TkhdBody, MvhdBody, HdlrBody;
    InitIsProper(sps, pps, w, h);
    ParseInvertsPrint(InitTrees(sps, pps, w, h));
    StsdIs(sps, pps, w, h);
    var ts := InitTrees(sps, pps, w, h);
    assert ts[1..][0] == ts[1];
    var moov := ts[1].kids;
    assert Inside(ts, MOOV) == moov;
    assert moov[1..][0] == moov[1] && Inside(moov, TRAK) == moov[1].kids;
    var trak := moov[1].kids;
    assert trak[1..][0] == trak[1] && Inside(trak, MDIA) == trak[1].kids;
    var mdia := trak[1].kids;
    assert mdia[1..][1..][0] == mdia[2] && mdia[1..][0] == mdia[1];
    assert Inside(mdia[1..], MINF) == Inside(mdia[1..][1..], MINF) == mdia[2].kids;
    var minf := mdia[2].kids;
    assert minf[1..][1..][0] == minf[2] && minf[1..][0] == minf[1];
    assert Inside(minf[1..], STBL) == Inside(minf[1..][1..], STBL) == minf[2].kids;
  }

  /** A decoder finds in the init segment the parameter sets it was made from,
      exactly when their lengths fit 16 bits. */
  lemma InitReadsBack(sps: Octets, pps: Octets, w: nat, h: nat)
    ensures |sps| < 65_536 && |pps| < 65_536 ==> ReadParams(InitSegment(sps, pps, w, h)) == Some((sps, pps))
    ensures ReadParams(InitSegment(sps, pps, w, h)) == Some((sps, pps)) ==> |sps| < 65_536 && |pps| < 65_536
  {
    hide Parse, ReadStsd, Stsd, InitSegment, InitTrees, Inside, LeafBody;
    if |sps| < 65_536 && |pps| < 65_536 {
      BoxesAreFound(sps, pps, w, h);
      StsdReadsBack(sps, pps, w, h);
    }
    ReadsAreShort(InitSegment(sps, pps, w, h));
  }

  lemma AvccReadsShort(body: Octets)
    requires ReadAvcc(body).Some?
    ensures |ReadAvcc(body).value.0| < 65_536 && |ReadAvcc(body).value.1| < 65_536
  {
    assert Span(2) == 65_536;
    FromBigEndianBound(body[6..8]);
    var n := Field(body, 6, 2);
    FromBigEndianBound(body[9 + n..11 + n]);
  }

  lemma ReadsAreShort(s: Octets)
    ensures ReadParams(s).Some? ==> |ReadParams(s).value.0| < 65_536 && |ReadParams(s).value.1| < 65_536
  {
    hide Parse, ReadAvcc;
    forall body | ReadAvcc(body).Some?
      ensures |ReadAvcc(body).value.0| < 65_536 && |ReadAvcc(body).value.1| < 65_536
    {
      AvccReadsShort(body);
    }
  }

  // ------------------------------------------------------------ size and time scale

  /** Width and height of the one sample entry. */
  function ReadSize(s: Octets): Option<(nat, nat)> {
    match Parse(s)
    case None => None
    case Some(ts) =>
      match LeafBody(Inside(Inside(Inside(Inside(Inside(ts, MOOV), TRAK), MDIA), MINF), STBL), STSD)
      case None => None
      case Some(stsd) =>
        if |stsd| < 8 then None
        else
          match OneLeaf(stsd[8..], AVC1)
          case None => None
          case Some(avc1) => if |avc1| < 28 then None else Some((Field(avc1, 24, 2), Field(avc1, 26, 2)))
  }

  /** Units per second of the track's decode times. */
  function ReadTimescale(s: Octets): Option<nat> {
    match Parse(s)
    case None => None
    case Some(ts) =>
      match LeafBody(Inside(Inside(Inside(ts, MOOV), TRAK), MDIA), MDHD)
      case None => None
      case Some(mdhd) => if |mdhd| < 16 then None else Some(Field(mdhd, 12, 4))
  }

  lemma Avc1Says(w: nat, h: nat, rest: Octets)
    ensures Field(Avc1Fields(w, h) + rest, 24, 2) == w % 65_536 && Field(Avc1Fields(w, h) + rest, 26, 2) == h % 65_536
  {
    hide BigEndian, FromBigEndian;
    var b := Avc1Fields(w, h) + rest;
    assert b[24..26] == Be16(w) && b[26..28] == Be16(h);
    Be16Reads(w);
    Be16Reads(h);
  }

  lemma MdhdSays(sps: Octets, pps: Octets, w: nat, h: nat)
    ensures Mdia(sps, pps, w, h).kids[0].Leaf? && Mdia(sps, pps, w, h).kids[0].kind == MDHD
    ensures |Mdia(sps, pps, w, h).kids[0].body| == 24 && Field(Mdia(sps, pps, w, h).kids[0].body, 12, 4) == TIMESCALE
  {
    hide BigEndian, FromBigEndian, Minf;
    assert Mdia(sps, pps, w, h).kids[0].body[12..16] == Be32(TIMESCALE);
    Be32Reads(TIMESCALE);
  }

  /** The init segment also tells the picture size, as far as 16 bits hold it, and the
      90 kHz clock in which durations and decode times are counted. */
  lemma InitTellsSizeAndClock(sps: Octets, pps: Octets, w: nat, h: nat)
    requires |sps| < 65_536 && |pps| < 65_536
    ensures ReadSize(InitSegment(sps, pps, w, h)) == Some((w % 65_536, h % 65_536))
    ensures ReadTimescale(InitSegment(sps, pps, w, h)) == Some(90_000)
  {
    hide Parse, OneLeaf, Stsd, InitSegment, InitTrees, Inside, Minf, Field;
    BoxesAreFound(sps, pps, w, h);
    Avc1Reads(sps, pps, w, h);
    MdhdSays(sps, pps, w, h);
  }

  /** Width and height at which the track is to be shown, in pixels and fractions. */
  function ReadTrackSize(s: Octets): Option<(nat, nat)> {
    match Parse(s)
    case None => None
    case Some(ts) =>
      match LeafBody(Inside(Inside(ts, MOOV), TRAK), TKHD)
      case None => None
      case Some(tkhd) => if |tkhd| < 84 then None else Some((Field(tkhd, 76, 4), Field(tkhd, 80, 4)))
  }

  lemma TkhdSays(w: nat, h: nat)
    requires w < 65_536 && h < 65_536
    ensures |TkhdBody(w, h)| == 84 && Field(TkhdBody(w, h), 76, 4) == 65_536 * w && Field(TkhdBody(w, h), 80, 4) == 65_536 * h
  {
    hide BigEndian, FromBigEndian, Version, Zeros, Identity;
    var b := TkhdBody(w, h);
    assert b[76..80] == Be16(w) + Be16(0) && b[80..84] == Be16(h) + Be16(0);
    FixedReads(w);
    FixedReads(h);
  }

  lemma FixedReads(v: nat)
    requires v < 65_536
    ensures FromBigEndian(Be16(v) + Be16(0)) == 65_536 * v
  {
    Be16Reads(v);
    hide FromBigEndian;
    assert Be16(0) == [0, 0] by { assert BigEndian(0, 1) == [] + [0]; }
    var s := Be16(v);
    assert (s + [0, 0])[..3] == s + [0] && (s + [0])[..2] == s;
    OneMoreByte(s, 0);
    OneMoreByte(s + [0], 0);
    assert s + [0] + [0] == s + [0, 0];
  }

  lemma OneMoreByte(s: Octets, b: Byte)
    ensures FromBigEndian(s + [b]) == FromBigEndian(s) * 256 + b
  {
    assert (s + [b])[..|s|] == s;
  }

  /** The decoder configuration (section 5.3.3 of ISO/IEC 14496-15). */
  function ReadConfig(s: Octets): Option<Octets> {
    match Parse(s)
    case None => None
    case Some(ts) =>
      match LeafBody(Inside(Inside(Inside(Inside(Inside(ts, MOOV), TRAK), MDIA), MINF), STBL), STSD)
      case None => None
      case Some(stsd) =>
        if |stsd| < 8 then None
        else
          match OneLeaf(stsd[8..], AVC1)
          case None => None
          case Some(avc1) => if |avc1| < 78 then None else OneLeaf(avc1[78..], AVCC)
  }

  /** It names the profile, its constraints and the level of the sequence parameter set,
      lengths of four bytes before each unit, and one set of either kind; the track has
      the picture's size. */
  lemma InitTellsProfile(sps: Octets, pps: Octets, w: nat, h: nat)
    requires 4 <= |sps| < 65_536 && |pps| < 65_536 && w < 65_536 && h < 65_536
    ensures ReadTrackSize(InitSegment(sps, pps, w, h)) == Some((65_536 * w, 65_536 * h))
    ensures ReadConfig(InitSegment(sps, pps, w, h)).Some?
    ensures var c := ReadConfig(InitSegment(sps, pps, w, h)).value;
            && |c| >= 9 + |sps| && c[0] == 1 && c[1..4] == sps[1..4] && c[4] % 4 + 1 == 4
            && c[5] % 32 == 1 && c[8 + |sps|] == 1
  {
    hide Parse, OneLeaf, Stsd, InitSegment, InitTrees, Inside, LeafBody, TkhdBody, AvccBody, Field;
    BoxesAreFound(sps, pps, w, h);
    TkhdSays(w, h);
    ConfigIsFound(sps, pps, w, h);
    ConfigSays(sps, pps);
  }

  lemma ConfigSays(sps: Octets, pps: Octets)
    requires |sps| >= 4
    ensures var c := AvccBody(sps, pps);
            && |c| >= 9 + |sps| && c[0] == 1 && c[1..4] == sps[1..4] && c[4] % 4 + 1 == 4
            && c[5] % 32 == 1 && c[8 + |sps|] == 1
  {
    hide BigEndian;
  }

  lemma ConfigIsFound(sps: Octets, pps: Octets, w: nat, h: nat)
    requires |sps| < 65_536 && |pps| < 65_536
    ensures var stsd := Stsd(sps, pps, w, h).body;
            && |stsd| >= 8 && OneLeaf(stsd[8..], AVC1).Some?
            && var avc1 := OneLeaf(stsd[8..], AVC1).value;
               |avc1| >= 78 && OneLeaf(avc1[78..], AVCC) == Some(AvccBody(sps, pps))
  {
    hide BigEndian, FromBigEndian, Parse, OneLeaf, AvccBody;
    AvccSize(sps, pps);
    var avc1 := Avc1(sps, pps, w, h);
    OneLeafReads(AVCC, AvccBody(sps, pps));
    OneLeafReads(AVC1, avc1.body);
    assert Stsd(sps, pps, w, h).body[8..] == Print(avc1);
    assert avc1.body[78..] == Print(Leaf(AVCC, AvccBody(sps, pps)));
  }

  lemma AvccSize(sps: Octets, pps: Octets)
    ensures |AvccBody(sps, pps)| == 11 + |sps| + |pps|
  {
    hide BigEndian;
  }

  lemma Avc1Reads(sps: Octets, pps: Octets, w: nat, h: nat)
    requires |sps| < 65_536 && |pps| < 65_536
    ensures var stsd := Stsd(sps, pps, w, h).body;
            && |stsd| >= 8 && OneLeaf(stsd[8..], AVC1).Some?
            && var avc1 := OneLeaf(stsd[8..], AVC1).value;
               |avc1| >= 28 && Field(avc1, 24, 2) == w % 65_536 && Field(avc1, 26, 2) == h % 65_536
  {
    hide BigEndian, FromBigEndian, Parse, OneLeaf;
    var avc1 := Avc1(sps, pps, w, h);
    OneLeafReads(AVC1, avc1.body);
    assert Stsd(sps, pps, w, h).body[8..] == Print(avc1);
    Avc1Says(w, h, Print(Leaf(AVCC, AvccBody(sps, pps))));
  }
}
