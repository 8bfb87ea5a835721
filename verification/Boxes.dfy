/**
 ISO base media boxes (section 4.2 of ISO/IEC 14496-12): the writer, and a reader
 of box trees that the writer is proved against.
 */
module Boxes {
  import opened Bytes
  import opened Options

  function Be32(v: nat): (r: Octets)
    ensures |r| == 4
  {
    BigEndian(v, 4)
  }

  /** A box type as the number its four characters spell. */
  type FourCC = nat

  const MOOF := 0x6d6f6f66
  const MFHD := 0x6d666864
  const TRAF := 0x74726166
  const TFHD := 0x74666864
  const TFDT := 0x74666474
  const TRUN := 0x7472756e
  const MDAT := 0x6d646174
  const MOOV := 0x6d6f6f76
  const TRAK := 0x7472616b
  const MDIA := 0x6d646961
  const MINF := 0x6d696e66
  const STBL := 0x7374626c
  const DINF := 0x64696e66
  const MVEX := 0x6d766578

  /** Boxes whose body is boxes and nothing else. */
  predicate Container(kind: FourCC) {
    kind == MOOF || kind == TRAF || kind == MOOV || kind == TRAK || kind == MDIA
    || kind == MINF || kind == STBL || kind == DINF || kind == MVEX
  }

  /** Size, type, payload. */
  function Box(kind: FourCC, body: Octets): (r: Octets)
    ensures |r| == 8 + |body|
  {
    Be32(8 + |body|) + Be32(kind) + body
  }

  /** The version byte and the three flag bytes that open a full box. */
  function Version(version: Byte, flags: nat): (r: Octets)
    ensures |r| == 4
  {
    [version] + BigEndian(flags, 3)
  }

  datatype Tree = Leaf(kind: FourCC, body: Octets) | Node(kind: FourCC, kids: seq<Tree>)

  function Print(t: Tree): (r: Octets)
    ensures |r| >= 8
  {
    Box(t.kind, match t case Leaf(_, body) => body case Node(_, kids) => PrintAll(kids))
  }

  function PrintAll(ts: seq<Tree>): Octets {
    if ts == [] then [] else Print(ts[0]) + PrintAll(ts[1..])
  }

  /** What a tree must meet to be readable: sizes and types fit their fields, and
      exactly the containers hold boxes. */
  predicate Proper(t: Tree) {
    && t.kind < U32 && |Print(t)| < U32 && (t.Node? <==> Container(t.kind))
    && (t.Node? ==> AllProper(t.kids))
  }

  predicate AllProper(ts: seq<Tree>) {
    ts == [] || (Proper(ts[0]) && AllProper(ts[1..]))
  }

  /** The size field of the box `s` starts with; 0 when there is none that fits. */
  function SizeOf(s: Octets): (n: nat)
    ensures n == 0 || 8 <= n <= |s|
  {
    if |s| < 8 then 0
    else
      var n := FromBigEndian(s[..4]);
      if 8 <= n <= |s| then n else 0
  }

  function KindOf(s: Octets): FourCC
    requires |s| >= 8
  {
    FromBigEndian(s[4..8])
  }

  /** The boxes that tile `s` exactly. */
  function Parse(s: Octets): Option<seq<Tree>>
    decreases |s|
  {
    if s == [] then Some([])
    else if SizeOf(s) == 0 then None
    else
      var n := SizeOf(s);
      match Parse(s[n..])
      case None => None
      case Some(rest) =>
        if !Container(KindOf(s)) then Some([Leaf(KindOf(s), s[8..n])] + rest)
        else
          match Parse(s[8..n])
          case None => None
          case Some(kids) => Some([Node(KindOf(s), kids)] + rest)
  }

  lemma Be32Reads(v: nat)
    requires v < U32
    ensures FromBigEndian(Be32(v)) == v
  {
    Spans();
    BigEndianRoundTrip(v, 4);
  }

  lemma FieldBound(s: Octets)
    requires |s| == 4
    ensures FromBigEndian(s) < U32 && Be32(FromBigEndian(s)) == s
  {
    Spans();
    FromBigEndianBound(s);
    WriteReads(s);
  }

  lemma {:induction false} WriteReads(s: Octets)
    ensures BigEndian(FromBigEndian(s), |s|) == s
  {
    if s != [] {
      var init := s[..|s| - 1];
      WriteReads(init);
      assert FromBigEndian(s) / 256 == FromBigEndian(init) && FromBigEndian(s) % 256 == s[|s| - 1];
      assert s == init + [s[|s| - 1]];
    }
  }

  /** A box read off the front of a stream. */
  lemma BoxReads(kind: FourCC, body: Octets, rest: Octets)
    requires kind < U32 && 8 + |body| < U32
    ensures var s, n := Box(kind, body) + rest, 8 + |body|;
            SizeOf(s) == n && KindOf(s) == kind && s[8..n] == body && s[n..] == rest
  {
    var s, n := Box(kind, body) + rest, 8 + |body|;
    assert s[..4] == Be32(n) && s[4..8] == Be32(kind) && s[8..n] == body && s[n..] == rest;
    Be32Reads(n);
    Be32Reads(kind);
  }

  /** Reading inverts writing. */
  lemma {:induction false} ParseInvertsPrint(ts: seq<Tree>)
    requires AllProper(ts)
    ensures Parse(PrintAll(ts)) == Some(ts)
    decreases |PrintAll(ts)|
  {
    if ts != [] {
      var t, rest := ts[0], ts[1..];
      var body := match t case Leaf(_, body) => body case Node(_, kids) => PrintAll(kids);
      BoxReads(t.kind, body, PrintAll(rest));
      ParseInvertsPrint(rest);
      if t.Node? {
        ParseInvertsPrint(t.kids);
      }
      assert PrintAll(ts) != [] && ts == [t] + rest;
    }
  }

  lemma BoxWrites(s: Octets)
    requires SizeOf(s) > 0
    ensures KindOf(s) < U32 && s == Box(KindOf(s), s[8..SizeOf(s)]) + s[SizeOf(s)..]
  {
    hide BigEndian, FromBigEndian;
    var n := SizeOf(s);
    FieldBound(s[..4]);
    FieldBound(s[4..8]);
    assert s == s[..4] + s[4..8] + s[8..n] + s[n..];
  }

  /** Writing inverts reading: the boxes read tile every byte. */
  lemma {:induction false} PrintInvertsParse(s: Octets)
    requires Parse(s).Some?
    ensures PrintAll(Parse(s).value) == s
    decreases |s|
  {
    hide SizeOf, KindOf, Box;
    if s != [] {
      var n, ts := SizeOf(s), Parse(s).value;
      PrintInvertsParse(s[n..]);
      if Container(KindOf(s)) {
        PrintInvertsParse(s[8..n]);
      }
      BoxWrites(s);
      assert ts[1..] == Parse(s[n..]).value;
    }
  }

  lemma PrintFew(a: Tree, b: Tree, c: Tree)
    ensures PrintAll([a]) == Print(a) && PrintAll([a, b]) == Print(a) + Print(b)
    ensures PrintAll([a, b, c]) == Print(a) + (Print(b) + Print(c))
    ensures Proper(a) ==> AllProper([a])
    ensures Proper(a) && Proper(b) ==> AllProper([a, b])
    ensures Proper(a) && Proper(b) && Proper(c) ==> AllProper([a, b, c])
  {
    hide Print, Proper;
    assert [a][1..] == [] && [b][1..] == [] && [c][1..] == [];
    assert [a, b][1..] == [b] && [b, c][1..] == [c] && [a, b, c][1..] == [b, c];
    assert Print(a) + [] == Print(a) && Print(b) + [] == Print(b) && Print(c) + [] == Print(c);
    assert PrintAll([]) == [] && PrintAll([c]) == Print(c) && PrintAll([b, c]) == Print(b) + Print(c);
    assert Proper(c) ==> AllProper([c]);
    assert Proper(b) && Proper(c) ==> AllProper([b, c]);
  }

  // ------------------------------------------------- NAL units behind their lengths

  function LengthPrefixed(nals: seq<Octets>): Octets {
    if nals == [] then [] else Be32(|nals[0]|) + (nals[0] + LengthPrefixed(nals[1..]))
  }

  function ParsePrefixed(s: Octets): Option<seq<Octets>>
    decreases |s|
  {
    if s == [] then Some([])
    else if |s| < 4 then None
    else
      var n := FromBigEndian(s[..4]);
      if 4 + n > |s| then None
      else
        match ParsePrefixed(s[4 + n..])
        case None => None
        case Some(rest) => Some([s[4..4 + n]] + rest)
  }

  /** A sample reads back as its NAL units. */
  lemma {:induction false} PrefixedReadsBack(nals: seq<Octets>)
    requires |LengthPrefixed(nals)| < U32
    ensures ParsePrefixed(LengthPrefixed(nals)) == Some(nals)
  {
    if nals != [] {
      var s, nal, rest := LengthPrefixed(nals), nals[0], LengthPrefixed(nals[1..]);
      var n := |nal|;
      assert s[..4] == Be32(n) && s[4..4 + n] == nal && s[4 + n..] == rest;
      Be32Reads(n);
      PrefixedReadsBack(nals[1..]);
      assert nals == [nal] + nals[1..];
    }
  }
}
