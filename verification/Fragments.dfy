/**
 Movie fragments (section 8.8 of ISO/IEC 14496-12), one sample each, as the web
 viewer writes them: nested boxes, and a data offset patched in afterwards by a
 search for the bytes "trun".
 */
module Fragments {
  import opened Bytes
  import opened Boxes
  import opened Options

  /** 64-bit field, written as two 32-bit halves. */
  function Be64(v: nat): (r: Octets)
    ensures |r| == 8
  {
    Be32(v / U32) + Be32(v)
  }

  lemma Be64Reads(v: nat)
    requires v < U64
    ensures FromBigEndian(Be64(v)) == v
  {
    hide BigEndian, FromBigEndian;
    Be64IsBigEndian(v);
    Spans();
    BigEndianRoundTrip(v, 8);
  }

  lemma Be64IsBigEndian(v: nat)
    ensures Be64(v) == BigEndian(v, 8)
  {
    var a := v / 256;
    var b := a / 256;
    var c := b / 256;
    var d := c / 256;
    assert d == v / U32;
    assert BigEndian(v, 8) == BigEndian(a, 7) + [v % 256];
    assert BigEndian(a, 7) == BigEndian(b, 6) + [a % 256];
    assert BigEndian(b, 6) == BigEndian(c, 5) + [b % 256];
    assert BigEndian(c, 5) == BigEndian(d, 4) + [c % 256];
    assert Be32(v) == [c % 256, b % 256, a % 256, v % 256] by {
      assert BigEndian(v, 4) == BigEndian(a, 3) + [v % 256];
      assert BigEndian(a, 3) == BigEndian(b, 2) + [a % 256];
      assert BigEndian(b, 2) == BigEndian(c, 1) + [b % 256];
      assert BigEndian(c, 1) == [] + [c % 256];
    }
  }

  // ----------------------------------------------------------------- the moof box

  /** Sample flags: a sync sample, or one that depends on others. */
  function SampleFlags(key: bool): nat { if key then 0x02000000 else 0x01010000 }

  function MfhdBody(number: nat): Octets { Version(0, 0) + Be32(number) }
  function TfhdBody(key: bool): Octets { Version(0, 0x020020) + Be32(1) + Be32(SampleFlags(key)) }
  function TfdtBody(base: nat): Octets { Version(1, 0) + Be64(base) }

  function TrunBody(offset: nat, duration: nat, size: nat): (r: Octets)
    ensures |r| == 20
  {
    (Version(0, 0x301) + Be32(1)) + (Be32(offset) + (Be32(duration) + Be32(size)))
  }

  /** The moof box around four field boxes. */
  function Moof(mfhd: Octets, tfhd: Octets, tfdt: Octets, trun: Octets): Tree {
    Node(MOOF, [Leaf(MFHD, mfhd), Node(TRAF, [Leaf(TFHD, tfhd), Leaf(TFDT, tfdt), Leaf(TRUN, trun)])])
  }

  function MoofOf(number: nat, key: bool, base: nat, offset: nat, duration: nat, size: nat): Tree {
    Moof(MfhdBody(number), TfhdBody(key), TfdtBody(base), TrunBody(offset, duration, size))
  }

  /** The 80 bytes of such a box before the body of `trun`. */
  function Lead(mfhd: Octets, tfhd: Octets, tfdt: Octets): Octets {
    (Be32(100) + Be32(MOOF) + Box(MFHD, mfhd))
    + ((Be32(76) + Be32(TRAF) + (Box(TFHD, tfhd) + Box(TFDT, tfdt))) + (Be32(28) + Be32(TRUN)))
  }

  lemma BoxSplits(kind: FourCC, a: Octets, b: Octets)
    ensures Box(kind, a + b) == (Be32(8 + |a| + |b|) + Be32(kind) + a) + b
  {
  }

  lemma MoofLayout(mfhd: Octets, tfhd: Octets, tfdt: Octets, trun: Octets)
    requires |mfhd| == 8 && |tfhd| == |tfdt| == 12 && |trun| == 20
    ensures Print(Moof(mfhd, tfhd, tfdt, trun)) == Lead(mfhd, tfhd, tfdt) + trun
    ensures |Lead(mfhd, tfhd, tfdt)| == 80
  {
    hide BigEndian;
    var heads, last := Box(TFHD, tfhd) + Box(TFDT, tfdt), Be32(28) + Be32(TRUN);
    var kids := [Leaf(TFHD, tfhd), Leaf(TFDT, tfdt), Leaf(TRUN, trun)];
    assert PrintAll(kids) == (heads + last) + trun by {
      PrintFew(kids[0], kids[1], kids[2]);
      assert Print(kids[2]) == last + trun;
      Regroup(Box(TFHD, tfhd), Box(TFDT, tfdt), last + trun);
      Regroup(heads, last, trun);
    }
    var trafHead := Be32(76) + Be32(TRAF) + heads;
    assert Print(Node(TRAF, kids)) == (trafHead + last) + trun by {
      BoxSplits(TRAF, heads + last, trun);
      assert Be32(76) + Be32(TRAF) + (heads + last) == trafHead + last;
    }
    var outer := [Leaf(MFHD, mfhd), Node(TRAF, kids)];
    assert PrintAll(outer) == (Box(MFHD, mfhd) + (trafHead + last)) + trun by {
      PrintFew(outer[0], outer[1], outer[1]);
      Regroup(Box(MFHD, mfhd), trafHead + last, trun);
    }
    BoxSplits(MOOF, Box(MFHD, mfhd) + (trafHead + last), trun);
    Regroup(Be32(100) + Be32(MOOF), Box(MFHD, mfhd), trafHead + last);
    assert Be32(100) + Be32(MOOF) + (Box(MFHD, mfhd) + (trafHead + last)) == Lead(mfhd, tfhd, tfdt);
  }

  // ------------------------------------------------------------------ the patch

  predicate TrunAt(s: Octets, i: nat) {
    i + 4 <= |s| && s[i] == 0x74 && s[i + 1] == 0x72 && s[i + 2] == 0x75 && s[i + 3] == 0x6e
  }

  /** The first box start whose type field spells "trun"; |s| when none does. */
  function FindTrun(s: Octets, i: nat): (j: nat)
    ensures j == |s| || (i <= j && j + 8 <= |s| && TrunAt(s, j + 4))
    decreases |s| - i
  {
    if i + 8 > |s| then |s| else if TrunAt(s, i + 4) then i else FindTrun(s, i + 1)
  }

  /** What the search-and-patch loop makes of `s`. */
  function Patched(s: Octets, offset: nat): (r: Octets)
    ensures |r| == |s|
  {
    var i := FindTrun(s, 0);
    if i + 20 <= |s| then s[..i + 16] + Be32(offset) + s[i + 20..] else s
  }

  /** False stands for the RangeError of a write beyond the buffer. */
  method PatchTrunDataOffset(moof: array<Byte>, dataOffset: nat) returns (ok: bool)
    modifies moof
    ensures moof[..] == Patched(old(moof[..]), dataOffset)
    ensures var i := FindTrun(old(moof[..]), 0); ok == (i == moof.Length || i + 20 <= moof.Length)
  {
    var i := 0;
    while i + 8 <= moof.Length
      invariant 0 <= i && moof[..] == old(moof[..]) && FindTrun(moof[..], i) == FindTrun(moof[..], 0)
      decreases moof.Length - i
    {
      if moof[i + 4] == 0x74 && moof[i + 5] == 0x72 && moof[i + 6] == 0x75 && moof[i + 7] == 0x6e {
        assert TrunAt(moof[..], i + 4);
        if i + 20 > moof.Length {
          return false;
        }
        forall k | 0 <= k < 4 { moof[i + 16 + k] := Be32(dataOffset)[k]; }
        return true;
      }
      assert !TrunAt(moof[..], i + 4);
      i := i + 1;
    }
    ok := true;
  }

  /** No four bytes of the number or of the time spell "trun". */
  predicate Searchable(number: nat, base: nat) {
    !TrunAt(Be32(number), 0) && forall k :: 0 <= k <= 4 ==> !TrunAt(Be64(base), k)
  }

  // The bytes of the header between its fields.
  const FIXED_1: Octets := [0, 0, 0, 100, 0x6d, 0x6f, 0x6f, 0x66, 0, 0, 0, 16, 0x6d, 0x66, 0x68, 0x64, 0, 0, 0, 0]
  const FIXED_2: Octets := [0, 0, 0, 76, 0x74, 0x72, 0x61, 0x66, 0, 0, 0, 20, 0x74, 0x66, 0x68, 0x64, 0, 2, 0, 0x20, 0, 0, 0, 1]
  const FIXED_3: Octets := [0, 0, 0, 20, 0x74, 0x66, 0x64, 0x74, 1, 0, 0, 0]
  const FIXED_4: Octets := [0, 0, 0, 28, 0x74, 0x72, 0x75, 0x6e]

  function FlagBytes(key: bool): Octets {
    if key then [2, 0, 0, 0] else [1, 1, 0, 0]
  }

  /** Where the fields of the header lie. */
  ghost predicate HeaderBytes(m: Octets, number: nat, key: bool, base: nat) {
    && |m| == 100
    && m[..20] == FIXED_1 && m[20..24] == Be32(number)
    && m[24..48] == FIXED_2 && m[48..52] == FlagBytes(key)
    && m[52..64] == FIXED_3 && m[64..72] == Be64(base) && m[72..80] == FIXED_4
  }

  lemma Be32Bytes(v: nat, a: Byte, b: Byte, c: Byte, d: Byte)
    requires v == ((a * 256 + b) * 256 + c) * 256 + d
    ensures Be32(v) == [a, b, c, d]
  {
    var x, y, z := v / 256, v / 256 / 256, v / 256 / 256 / 256;
    assert z == a && y == a * 256 + b && x == (a * 256 + b) * 256 + c;
    assert BigEndian(z, 1) == [] + [a];
    assert BigEndian(y, 2) == BigEndian(z, 1) + [b];
    assert BigEndian(x, 3) == BigEndian(y, 2) + [c];
    assert BigEndian(v, 4) == BigEndian(x, 3) + [d];
  }

  lemma Constants()
    ensures Be32(100) == [0, 0, 0, 100] && Be32(16) == [0, 0, 0, 16] && Be32(76) == [0, 0, 0, 76]
    ensures Be32(20) == [0, 0, 0, 20] && Be32(28) == [0, 0, 0, 28] && Be32(1) == [0, 0, 0, 1]
    ensures Be32(MOOF) == [0x6d, 0x6f, 0x6f, 0x66] && Be32(MFHD) == [0x6d, 0x66, 0x68, 0x64]
    ensures Be32(TRAF) == [0x74, 0x72, 0x61, 0x66] && Be32(TFHD) == [0x74, 0x66, 0x68, 0x64]
    ensures Be32(TFDT) == [0x74, 0x66, 0x64, 0x74] && Be32(TRUN) == [0x74, 0x72, 0x75, 0x6e]
    ensures Be32(0x02000000) == [2, 0, 0, 0] && Be32(0x01010000) == [1, 1, 0, 0]
  {
    hide BigEndian;
    Be32Bytes(100, 0, 0, 0, 100);
    Be32Bytes(16, 0, 0, 0, 16);
    Be32Bytes(76, 0, 0, 0, 76);
    Be32Bytes(20, 0, 0, 0, 20);
    Be32Bytes(28, 0, 0, 0, 28);
    Be32Bytes(1, 0, 0, 0, 1);
    Be32Bytes(MOOF, 0x6d, 0x6f, 0x6f, 0x66);
    Be32Bytes(MFHD, 0x6d, 0x66, 0x68, 0x64);
    Be32Bytes(TRAF, 0x74, 0x72, 0x61, 0x66);
    Be32Bytes(TFHD, 0x74, 0x66, 0x68, 0x64);
    Be32Bytes(TFDT, 0x74, 0x66, 0x64, 0x74);
    Be32Bytes(TRUN, 0x74, 0x72, 0x75, 0x6e);
    Be32Bytes(0x02000000, 2, 0, 0, 0);
    Be32Bytes(0x01010000, 1, 1, 0, 0);
  }

  lemma Versions()
    ensures Version(0, 0) == [0, 0, 0, 0] && Version(0, 0x020020) == [0, 2, 0, 0x20] && Version(1, 0) == [1, 0, 0, 0]
  {
    assert BigEndian(0, 3) == [0, 0, 0];
    assert BigEndian(0x020020, 3) == [2, 0, 0x20];
  }

  lemma FixedBytes()
    ensures Be32(100) + Be32(MOOF) + Be32(16) + Be32(MFHD) + Version(0, 0) == FIXED_1
    ensures Be32(76) + Be32(TRAF) + Be32(20) + Be32(TFHD) + Version(0, 0x020020) + Be32(1) == FIXED_2
    ensures Be32(20) + Be32(TFDT) + Version(1, 0) == FIXED_3 && Be32(28) + Be32(TRUN) == FIXED_4
    ensures forall key :: Be32(SampleFlags(key)) == FlagBytes(key)
  {
    hide BigEndian;
    Constants();
    Versions();
  }

  lemma LeadIs(number: nat, key: bool, base: nat)
    ensures Lead(MfhdBody(number), TfhdBody(key), TfdtBody(base))
            == (FIXED_1 + Be32(number)) + ((FIXED_2 + (FlagBytes(key) + (FIXED_3 + Be64(base)))) + FIXED_4)
  {
    hide Be32, Be64, Version, FIXED_1, FIXED_2, FIXED_3, FIXED_4, FlagBytes, SampleFlags;
    FixedBytes();
    assert Be32(100) + Be32(MOOF) + Box(MFHD, MfhdBody(number)) == FIXED_1 + Be32(number);
    assert Be32(76) + Be32(TRAF) + (Box(TFHD, TfhdBody(key)) + Box(TFDT, TfdtBody(base)))
           == FIXED_2 + (FlagBytes(key) + (FIXED_3 + Be64(base)));
  }

  lemma HeaderIs(number: nat, key: bool, base: nat, trun: Octets)
    requires |trun| == 20
    ensures HeaderBytes(Lead(MfhdBody(number), TfhdBody(key), TfdtBody(base)) + trun, number, key, base)
  {
    hide Lead, Be32, Be64;
    LeadIs(number, key, base);
    FieldsLie(FIXED_1, Be32(number), FIXED_2, FlagBytes(key), FIXED_3, Be64(base), FIXED_4, trun);
  }

  lemma FieldsLie(a: Octets, number: Octets, b: Octets, flags: Octets, c: Octets, base: Octets, d: Octets, trun: Octets)
    requires |a| == 20 && |number| == 4 && |b| == 24 && |flags| == 4 && |c| == 12 && |base| == 8 && |d| == 8
    ensures var m := ((a + number) + ((b + (flags + (c + base))) + d)) + trun;
            && m[..20] == a && m[20..24] == number && m[24..48] == b && m[48..52] == flags
            && m[52..64] == c && m[64..72] == base && m[72..80] == d
  {
    var p2 := a + number;
    var p3 := p2 + b;
    var p4 := p3 + flags;
    var p5 := p4 + c;
    var p6 := p5 + base;
    Regroup(p2, b + (flags + (c + base)), d);
    Regroup(p2, b, flags + (c + base));
    Regroup(p3, flags, c + base);
    Regroup(p4, c, base);
    InMiddle(p6, d, trun);
    InMiddle(p5, base, d + trun);
    InMiddle(p4, c, base + (d + trun));
    InMiddle(p3, flags, c + (base + (d + trun)));
    InMiddle(p2, b, flags + (c + (base + (d + trun))));
    InMiddle(a, number, b + (flags + (c + (base + (d + trun)))));
    AtFront(a, number + (b + (flags + (c + (base + (d + trun))))));
  }

  lemma InMiddle(pre: Octets, x: Octets, post: Octets)
    ensures (pre + (x + post))[|pre|..|pre| + |x|] == x && pre + (x + post) == (pre + x) + post
  {
  }

  lemma AtFront(x: Octets, post: Octets)
    ensures (x + post)[..|x|] == x
  {
  }

  /** Where the search may stop early. */
  lemma OnlyFieldsSpellTrun(m: Octets, number: nat, key: bool, base: nat, p: nat)
    requires HeaderBytes(m, number, key, base) && 4 <= p < 76
    ensures TrunAt(m, p) ==>
              (p == 20 && TrunAt(Be32(number), 0)) || (64 <= p <= 68 && TrunAt(Be64(base), p - 64))
  {
    hide BigEndian;
    hide Be32, Be64;
    if p < 20 {
      assert m[p] == m[..20][p];
    } else if p < 24 {
      assert m[24] == m[24..48][0];
      CutAt(m, 20, 4, p);
    } else if p < 48 {
      assert m[p] == m[24..48][p - 24] && m[30] == m[24..48][6] && m[37] == m[24..48][13];
    } else if p < 52 {
      assert m[p] == m[48..52][p - 48];
    } else if p < 64 {
      assert m[p] == m[52..64][p - 52] && m[57] == m[52..64][5] && m[60] == m[52..64][8];
    } else if p < 72 {
      assert m[72] == m[72..80][0];
      CutAt(m, 64, 8, p);
    } else {
      assert m[p] == m[72..80][p - 72];
    }
  }

  /** The four bytes at `p`, inside the slice at `at` or across its end. */
  lemma CutAt(m: Octets, at: nat, n: nat, p: nat)
    requires at <= p < at + n < |m|
    ensures p + 4 <= at + n ==> (TrunAt(m, p) <==> TrunAt(m[at..at + n], p - at))
    ensures p + 4 > at + n && m[at + n] == 0 ==> !TrunAt(m, p)
  {
    if p + 4 <= at + n {
      var c := m[at..at + n];
      assert c[p - at] == m[p] && c[p - at + 1] == m[p + 1] && c[p - at + 2] == m[p + 2] && c[p - at + 3] == m[p + 3];
    }
  }

  lemma {:induction false} FindsFirst(s: Octets, i: nat, j: nat)
    requires i <= j && j + 8 <= |s| && TrunAt(s, j + 4)
    ensures FindTrun(s, i) <= j
    ensures (forall p :: i + 4 <= p < j + 4 ==> !TrunAt(s, p)) ==> FindTrun(s, i) == j
    decreases j - i
  {
    if i < j {
      FindsFirst(s, i + 1, j);
    }
  }

  /** The search reaches the trun box exactly when no field before it spells it. */
  lemma SearchLands(m: Octets, number: nat, key: bool, base: nat)
    requires HeaderBytes(m, number, key, base)
    ensures Searchable(number, base) <==> FindTrun(m, 0) == 72
    ensures !Searchable(number, base) ==> FindTrun(m, 0) <= 64
  {
    hide BigEndian;
    assert TrunAt(m, 76) by {
      CutAt(m, 72, 8, 76);
    }
    FindsFirst(m, 0, 72);
    var i := FindTrun(m, 0);
    if i < 72 {
      OnlyFieldsSpellTrun(m, number, key, base, i + 4);
    }
    if TrunAt(Be32(number), 0) {
      CutAt(m, 20, 4, 20);
      FindsFirst(m, 0, 16);
    } else if !Searchable(number, base) {
      var k :| 0 <= k <= 4 && TrunAt(Be64(base), k);
      CutAt(m, 64, 8, 64 + k);
      FindsFirst(m, 0, 60 + k);
    }
  }

  // ------------------------------------------------------------------- a fragment

  /** The bytes the viewer appends for one access unit. */
  function FragmentBytes(number: nat, key: bool, base: nat, duration: nat, sample: Octets): Octets {
    var moof := Print(MoofOf(number, key, base, 0, duration, |sample|));
    Patched(moof, |moof| + 8) + Box(MDAT, sample)
  }

  /** What a reader of the format makes of a fragment. */
  datatype Fragment = Fragment(number: nat, flags: nat, base: nat, offset: nat, duration: nat, sample: Octets)

  function Field(body: Octets, at: nat, n: nat): nat
    requires at + n <= |body|
  {
    FromBigEndian(body[at..at + n])
  }

  /** The four field bodies and the payload size, when the boxes are those of one
      fragment with one sample. */
  predicate Shaped(ts: seq<Tree>) {
    && |ts| == 2 && ts[0].Node? && ts[1].Leaf? && ts[1].kind == MDAT
    && ts[0].kind == MOOF && |ts[0].kids| == 2
    && var kids := ts[0].kids;
       && kids[0].Leaf? && kids[0].kind == MFHD && kids[1].Node? && kids[1].kind == TRAF && |kids[1].kids| == 3
       && var runs := kids[1].kids;
          && runs[0].Leaf? && runs[0].kind == TFHD && runs[1].Leaf? && runs[1].kind == TFDT
          && runs[2].Leaf? && runs[2].kind == TRUN
          && |kids[0].body| == 8 && |runs[0].body| == 12 && |runs[1].body| == 12 && |runs[2].body| == 20
          && kids[0].body[..4] == Version(0, 0) && runs[0].body[..8] == Version(0, 0x020020) + Be32(1)
          && runs[1].body[..4] == Version(1, 0) && runs[2].body[..8] == Version(0, 0x301) + Be32(1)
  }

  function ReadFragment(s: Octets): Option<Fragment> {
    match Parse(s)
    case None => None
    case Some(ts) =>
      if !Shaped(ts) then None
      else
        var mfhd, traf := ts[0].kids[0].body, ts[0].kids[1].kids;
        var offset, size := Field(traf[2].body, 8, 4), Field(traf[2].body, 16, 4);
        if offset + size > |s| then None
        else Some(Fragment(Field(mfhd, 4, 4), Field(traf[0].body, 8, 4), Field(traf[1].body, 4, 8),
                           offset, Field(traf[2].body, 12, 4), s[offset..offset + size]))
  }

  predicate Fits(number: nat, base: nat, duration: nat, sample: Octets) {
    number < U32 && base < U64 && duration < U32 && |sample| + 8 < U32
  }

  lemma FieldsRead(number: nat, key: bool, base: nat, offset: nat, duration: nat, size: nat)
    requires number < U32 && base < U64 && offset < U32 && duration < U32 && size < U32
    ensures Field(MfhdBody(number), 4, 4) == number && Field(TfhdBody(key), 8, 4) == SampleFlags(key)
    ensures Field(TfdtBody(base), 4, 8) == base
    ensures var trun := TrunBody(offset, duration, size);
            Field(trun, 8, 4) == offset && Field(trun, 12, 4) == duration && Field(trun, 16, 4) == size
  {
    hide BigEndian, FromBigEndian;
    assert MfhdBody(number)[4..8] == Be32(number) && TfhdBody(key)[8..12] == Be32(SampleFlags(key));
    assert TfdtBody(base)[4..12] == Be64(base);
    var trun := TrunBody(offset, duration, size);
    assert trun[8..12] == Be32(offset) && trun[12..16] == Be32(duration) && trun[16..20] == Be32(size);
    Be32Reads(number);
    Be32Reads(SampleFlags(key));
    Be64Reads(base);
    Be32Reads(offset);
    Be32Reads(duration);
    Be32Reads(size);
  }

  /** The fragment with the right offset in place. */
  function Whole(number: nat, key: bool, base: nat, duration: nat, sample: Octets): seq<Tree> {
    [MoofOf(number, key, base, 108, duration, |sample|), Leaf(MDAT, sample)]
  }

  lemma WholeIsProper(number: nat, key: bool, base: nat, duration: nat, sample: Octets)
    requires Fits(number, base, duration, sample)
    ensures AllProper(Whole(number, key, base, duration, sample)) && Shaped(Whole(number, key, base, duration, sample))
    ensures PrintAll(Whole(number, key, base, duration, sample))
            == Print(MoofOf(number, key, base, 108, duration, |sample|)) + Box(MDAT, sample)
    ensures |Print(MoofOf(number, key, base, 108, duration, |sample|))| == 100
  {
    hide BigEndian;
    var b1, b2, b3 := MfhdBody(number), TfhdBody(key), TfdtBody(base);
    var b4 := TrunBody(108, duration, |sample|);
    MoofLayout(b1, b2, b3, b4);
    assert b1[..4] == Version(0, 0) && b2[..8] == Version(0, 0x020020) + Be32(1);
    assert b3[..4] == Version(1, 0) && b4[..8] == Version(0, 0x301) + Be32(1);
    ProperMoof(b1, b2, b3, b4);
    var ts := Whole(number, key, base, duration, sample);
    PrintFew(ts[0], ts[1], ts[1]);
  }

  lemma ProperMoof(b1: Octets, b2: Octets, b3: Octets, b4: Octets)
    requires |b1| == 8 && |b2| == |b3| == 12 && |b4| == 20
    ensures Proper(Moof(b1, b2, b3, b4))
  {
    hide BigEndian;
    MoofLayout(b1, b2, b3, b4);
    var traf := [Leaf(TFHD, b2), Leaf(TFDT, b3), Leaf(TRUN, b4)];
    PrintFew(traf[0], traf[1], traf[2]);
    var kids := [Leaf(MFHD, b1), Node(TRAF, traf)];
    PrintFew(kids[0], kids[1], kids[1]);
  }

  lemma {:induction false} ReadsWhole(number: nat, key: bool, base: nat, duration: nat, sample: Octets)
    requires Fits(number, base, duration, sample)
    ensures ReadFragment(PrintAll(Whole(number, key, base, duration, sample)))
            == Some(Fragment(number, SampleFlags(key), base, 108, duration, sample))
  {
    hide BigEndian, FromBigEndian, Parse, PrintAll, Print;
    var ts := Whole(number, key, base, duration, sample);
    WholeIsProper(number, key, base, duration, sample);
    ParseInvertsPrint(ts);
    FieldsRead(number, key, base, 108, duration, |sample|);
    var s := PrintAll(ts);
    assert s[108..108 + |sample|] == sample;
  }

  /** Reading an offset means finding its four bytes at 88. */
  lemma OffsetIsAt88(s: Octets)
    requires ReadFragment(s).Some?
    ensures |s| >= 92 && s[91] == Be32(ReadFragment(s).value.offset)[3]
  {
    hide BigEndian, FromBigEndian, Parse;
    PrintInvertsParse(s);
    var ts := Parse(s).value;
    var traf := ts[0].kids[1].kids;
    var b1, b2, b3, b4 := ts[0].kids[0].body, traf[0].body, traf[1].body, traf[2].body;
    assert traf == [Leaf(TFHD, b2), Leaf(TFDT, b3), Leaf(TRUN, b4)];
    assert ts[0].kids == [Leaf(MFHD, b1), Node(TRAF, traf)];
    assert ts[0] == Moof(b1, b2, b3, b4);
    MoofLayout(b1, b2, b3, b4);
    assert s == Lead(b1, b2, b3) + b4 + PrintAll(ts[1..]);
    assert s[91] == b4[11] == b4[8..12][3];
    FieldBound(b4[8..12]);
  }

  /** The patch with the search landing on the trun box. */
  lemma PatchInPlace(number: nat, key: bool, base: nat, duration: nat, size: nat)
    requires Searchable(number, base)
    ensures var moof := Print(MoofOf(number, key, base, 0, duration, size));
            |moof| == 100 && Patched(moof, 108) == Print(MoofOf(number, key, base, 108, duration, size))
  {
    hide BigEndian, Print, FindTrun, Searchable;
    var b1, b2, b3 := MfhdBody(number), TfhdBody(key), TfdtBody(base);
    MoofLayout(b1, b2, b3, TrunBody(0, duration, size));
    MoofLayout(b1, b2, b3, TrunBody(108, duration, size));
    var moof := Lead(b1, b2, b3) + TrunBody(0, duration, size);
    HeaderIs(number, key, base, TrunBody(0, duration, size));
    SearchLands(moof, number, key, base);
    hide Lead;
    var tail := Be32(duration) + Be32(size);
    assert moof[..88] == Lead(b1, b2, b3) + (Version(0, 0x301) + Be32(1));
    assert moof[92..] == tail;
  }

  /** The patch misplaced: the offset field keeps its zeros. */
  lemma PatchAstray(number: nat, key: bool, base: nat, duration: nat, size: nat)
    requires !Searchable(number, base)
    ensures var moof := Print(MoofOf(number, key, base, 0, duration, size));
            |moof| == 100 && Patched(moof, 108)[91] == 0
  {
    hide BigEndian, Print, FindTrun, Searchable;
    var b1, b2, b3, b4 := MfhdBody(number), TfhdBody(key), TfdtBody(base), TrunBody(0, duration, size);
    MoofLayout(b1, b2, b3, b4);
    var moof := Lead(b1, b2, b3) + b4;
    HeaderIs(number, key, base, b4);
    SearchLands(moof, number, key, base);
    LastByteOfZero();
    hide Lead;
    assert moof[91] == b4[11] == Be32(0)[3];
  }

  lemma LastByteOfZero()
    ensures Be32(0)[3] == 0 && Be32(108)[3] == 108
  {
  }

  /** A fragment reads back whole, its data offset at the payload, exactly when the
      search for "trun" is not led astray. */
  lemma FragmentReadsBack(number: nat, key: bool, base: nat, duration: nat, sample: Octets)
    requires Fits(number, base, duration, sample)
    ensures ReadFragment(FragmentBytes(number, key, base, duration, sample))
            == Some(Fragment(number, SampleFlags(key), base, 108, duration, sample))
            <==> Searchable(number, base)
  {
    hide BigEndian, FromBigEndian, Print, PrintAll, Parse, Searchable, ReadFragment;
    var s := FragmentBytes(number, key, base, duration, sample);
    if Searchable(number, base) {
      PatchInPlace(number, key, base, duration, |sample|);
      WholeIsProper(number, key, base, duration, sample);
      ReadsWhole(number, key, base, duration, sample);
    } else {
      PatchAstray(number, key, base, duration, |sample|);
      LastByteOfZero();
      if ReadFragment(s) == Some(Fragment(number, SampleFlags(key), base, 108, duration, sample)) {
        OffsetIsAt88(s);
      }
    }
  }

  /** Below 0x7472756e, "trun" as a number, nothing can be led astray. */
  lemma SmallNumbersAreSearchable(number: nat, base: nat)
    requires number < TRUN && base < TRUN
    ensures Searchable(number, base)
  {
    SpellsTrun(number);
    SpellsTrun(base);
    assert base / U32 == 0;
    assert Be32(0) == [0, 0, 0, 0];
    forall k | 0 <= k <= 4
      ensures !TrunAt(Be64(base), k)
    {
      if k < 4 {
        assert Be64(base)[k] == Be32(0)[k];
      } else {
        assert Be64(base)[4..] == Be32(base);
        assert Be64(base)[4] == Be32(base)[0] && Be64(base)[5] == Be32(base)[1];
        assert Be64(base)[6] == Be32(base)[2] && Be64(base)[7] == Be32(base)[3];
      }
    }
  }

  lemma SpellsTrun(v: nat)
    requires v < U32
    ensures TrunAt(Be32(v), 0) <==> v == TRUN
  {
    hide BigEndian, FromBigEndian;
    if TrunAt(Be32(v), 0) {
      assert Be32(v) == [0x74, 0x72, 0x75, 0x6e] == Be32(TRUN) by { Constants(); }
      Be32Reads(v);
      Be32Reads(TRUN);
    } else {
      Constants();
    }
  }

  lemma TrunSpellsItself(number: nat)
    ensures !Searchable(number, TRUN)
  {
    hide BigEndian;
    Constants();
    assert Be64(TRUN)[4] == 0x74 && Be64(TRUN)[5] == 0x72 && Be64(TRUN)[6] == 0x75 && Be64(TRUN)[7] == 0x6e;
    assert TrunAt(Be64(TRUN), 4);
  }

  /** About six hours in, the decode time itself spells "trun". */
  lemma SixHoursIn(number: nat, key: bool, duration: nat, sample: Octets)
    requires Fits(number, TRUN, duration, sample)
    ensures ReadFragment(FragmentBytes(number, key, TRUN, duration, sample))
            != Some(Fragment(number, SampleFlags(key), TRUN, 108, duration, sample))
    ensures TRUN / 90_000 / 3_600 == 6
  {
    hide Searchable, ReadFragment, FragmentBytes;
    TrunSpellsItself(number);
    FragmentReadsBack(number, key, TRUN, duration, sample);
  }

  /** Sample flags (section 8.8.3 of ISO/IEC 14496-12): a keyframe depends on no other
      sample and is a sync sample, any other frame depends on some and is none. */
  lemma FlagsTellSync(key: bool)
    ensures SampleFlags(key) / 0x100_0000 == (if key then 2 else 1)
    ensures SampleFlags(key) / 0x1_0000 % 2 == (if key then 0 else 1)
  {
  }
}
