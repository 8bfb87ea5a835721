/**
 SPAKE2 (RFC 9382) as the pairing uses it, over any group of prime order: both ends
 agree, and the transcript they hash pins down everything that went into it.
 */
module Spake2 {
  import opened Bytes
  import opened Options
  import Boxes

  // ------------------------------------------------------------------------ the group

  /** Group operations, the generator, and the encoding of points. */
  datatype Curve<!P> = Curve(zero: P, add: (P, P) -> P, neg: P -> P, base: P, order: nat,
                             encode: P -> Octets, decode: Octets -> Option<P>)

  function Times<P>(g: Curve<P>, n: nat, p: P): P {
    if n == 0 then g.zero else g.add(Times(g, n - 1, p), p)
  }

  ghost predicate IsGroup<P(!new)>(g: Curve<P>) {
    && (forall a, b, c :: g.add(g.add(a, b), c) == g.add(a, g.add(b, c)))
    && (forall a, b :: g.add(a, b) == g.add(b, a))
    && (forall a :: g.add(a, g.zero) == a)
    && (forall a :: g.add(a, g.neg(a)) == g.zero)
  }

  /** A scalar short of the order takes no point but the identity to the identity. */
  ghost predicate PrimeOrder<P(!new)>(g: Curve<P>) {
    g.base != g.zero && forall n: nat, p :: 0 < n < g.order && p != g.zero ==> Times(g, n, p) != g.zero
  }

  /** Points are read back as written, save the identity, which no share may be. */
  ghost predicate Encodes<P(!new)>(g: Curve<P>) {
    && (forall p :: p != g.zero ==> g.decode(g.encode(p)) == Some(p))
    && g.decode(g.encode(g.zero)) == None
    && forall p :: |g.encode(p)| <= 65
  }

  ghost predicate Sound<P(!new)>(g: Curve<P>) {
    IsGroup(g) && PrimeOrder(g) && Encodes(g)
  }

  lemma Associates<P(!new)>(g: Curve<P>, a: P, b: P, c: P)
    requires IsGroup(g)
    ensures g.add(g.add(a, b), c) == g.add(a, g.add(b, c))
  {
  }

  lemma Unit<P(!new)>(g: Curve<P>, a: P)
    requires IsGroup(g)
    ensures g.add(a, g.zero) == a && g.add(g.zero, a) == a && g.add(a, g.neg(a)) == g.zero
  {
  }

  lemma NotZero<P(!new)>(g: Curve<P>, n: nat, p: P)
    requires PrimeOrder(g) && 0 < n < g.order && p != g.zero
    ensures Times(g, n, p) != g.zero
  {
    hide Times;
  }

  lemma DecodesBack<P(!new)>(g: Curve<P>, p: P)
    requires Encodes(g)
    ensures g.decode(g.encode(p)) == (if p == g.zero then None else Some(p)) && |g.encode(p)| <= 65
  {
  }

  lemma {:induction false} TimesAdds<P(!new)>(g: Curve<P>, m: nat, n: nat, p: P)
    requires IsGroup(g)
    ensures Times(g, m + n, p) == g.add(Times(g, m, p), Times(g, n, p))
  {
    hide IsGroup;
    if n == 0 {
      Unit(g, Times(g, m, p));
    } else {
      TimesAdds(g, m, n - 1, p);
      Associates(g, Times(g, m, p), Times(g, n - 1, p), p);
      assert Times(g, m + n, p) == g.add(Times(g, m + n - 1, p), p);
    }
  }

  lemma {:induction false} TimesMultiplies<P(!new)>(g: Curve<P>, m: nat, n: nat, p: P)
    requires IsGroup(g)
    ensures Times(g, m, Times(g, n, p)) == Times(g, m * n, p)
  {
    hide IsGroup;
    if m > 0 {
      TimesMultiplies(g, m - 1, n, p);
      ProductStep(m, n);
      TimesAdds(g, (m - 1) * n, n, p);
    } else {
      assert m * n == 0;
    }
  }

  lemma ProductStep(m: nat, n: nat)
    requires m > 0
    ensures (m - 1) * n >= 0 && m * n == (m - 1) * n + n
  {
  }

  /** Scalars may be applied in either order: the shared secret. */
  lemma TimesCommutes<P(!new)>(g: Curve<P>, m: nat, n: nat, p: P)
    requires IsGroup(g)
    ensures Times(g, m, Times(g, n, p)) == Times(g, n, Times(g, m, p))
  {
    hide IsGroup, Times;
    TimesMultiplies(g, m, n, p);
    TimesMultiplies(g, n, m, p);
    assert m * n == n * m;
  }

  /** Taking the mask off again. */
  lemma MaskCancels<P(!new)>(g: Curve<P>, a: P, mask: P)
    requires IsGroup(g)
    ensures g.add(g.add(a, mask), g.neg(mask)) == a
  {
    hide IsGroup;
    Associates(g, a, mask, g.neg(mask));
    Unit(g, mask);
    Unit(g, a);
  }

  // ------------------------------------------------------------------------ transcript

  const CONTEXT: Octets := [0x6e, 0x64, 0x73, 0x70, 0x2d, 0x73, 0x70, 0x61, 0x6b, 0x65, 0x32, 0x2d, 0x76, 0x31]
  const ID_CLIENT: Octets := [0x63, 0x6c, 0x69, 0x65, 0x6e, 0x74]
  const ID_SERVER: Octets := [0x73, 0x65, 0x72, 0x76, 0x65, 0x72]

  function Parts(nonce: Octets, pa: Octets, pb: Octets, k: Octets, w: Octets): seq<Octets> {
    [CONTEXT, ID_CLIENT, ID_SERVER, nonce, pa, pb, k, w]
  }

  /** Each part behind its length as four big-endian bytes. */
  function TranscriptOf(nonce: Octets, pa: Octets, pb: Octets, k: Octets, w: Octets): Octets {
    Boxes.LengthPrefixed(Parts(nonce, pa, pb, k, w))
  }

  method Transcript(nonce: Octets, pa: Octets, pb: Octets, k: Octets, w: Octets) returns (tt: Octets)
    ensures tt == TranscriptOf(nonce, pa, pb, k, w)
  {
    hide Boxes.Be32;
    var parts := Parts(nonce, pa, pb, k, w);
    tt := [];
    while parts != []
      invariant tt + Boxes.LengthPrefixed(parts) == TranscriptOf(nonce, pa, pb, k, w)
      decreases |parts|
    {
      var part := parts[0];
      Regroup(tt, Boxes.Be32(|part|), part + Boxes.LengthPrefixed(parts[1..]));
      Regroup(tt + Boxes.Be32(|part|), part, Boxes.LengthPrefixed(parts[1..]));
      tt := tt + Boxes.Be32(|part|);
      tt := tt + part;
      parts := parts[1..];
    }
  }

  /** Equal transcripts mean equal nonce, shares, secret and password scalar. */
  lemma TranscriptIsInjective(n1: Octets, a1: Octets, b1: Octets, k1: Octets, w1: Octets,
                              n2: Octets, a2: Octets, b2: Octets, k2: Octets, w2: Octets)
    requires TranscriptOf(n1, a1, b1, k1, w1) == TranscriptOf(n2, a2, b2, k2, w2)
    requires |TranscriptOf(n1, a1, b1, k1, w1)| < U32
    ensures n1 == n2 && a1 == a2 && b1 == b2 && k1 == k2 && w1 == w2
  {
    hide Boxes.LengthPrefixed, Boxes.ParsePrefixed;
    var p, q := Parts(n1, a1, b1, k1, w1), Parts(n2, a2, b2, k2, w2);
    Boxes.PrefixedReadsBack(p);
    Boxes.PrefixedReadsBack(q);
    assert p == q;
    assert p[3] == q[3] && p[4] == q[4] && p[5] == q[5] && p[6] == q[6] && p[7] == q[7];
  }

  // ------------------------------------------------------------------------ the exchange

  /** The parts of the scheme both ends share: curve, masks, key schedule, and the
      password scalar (never zero) with its 32 bytes. */
  datatype Scheme<!P> = Scheme(g: Curve<P>, m: P, n: P, scalar: (string, Octets) -> nat,
                               bytes: nat -> Octets, keys: Octets -> Keys)

  datatype Keys = Keys(confirmClient: Octets, confirmServer: Octets, session: Octets, token: Octets)

  datatype Agreed<P> = Agreed(k: P, transcript: Octets, keys: Keys)

  function W<P>(s: Scheme<P>, pin: string, nonce: Octets): nat {
    s.scalar(pin, nonce)
  }

  function ClientPoint<P>(s: Scheme<P>, x: nat, pin: string, nonce: Octets): P {
    s.g.add(Times(s.g, x, s.g.base), Times(s.g, W(s, pin, nonce), s.m))
  }

  function ServerPoint<P>(s: Scheme<P>, y: nat, pin: string, nonce: Octets): P {
    s.g.add(Times(s.g, y, s.g.base), Times(s.g, W(s, pin, nonce), s.n))
  }

  /** Spake2Client: the share sent, and what the answer leads to. */
  function ClientShare<P>(s: Scheme<P>, x: nat, pin: string, nonce: Octets): Octets {
    s.g.encode(ClientPoint(s, x, pin, nonce))
  }

  function Finish<P(==)>(s: Scheme<P>, x: nat, pin: string, nonce: Octets, serverShare: Octets): Option<Agreed<P>> {
    match s.g.decode(serverShare)
    case None => None
    case Some(pb) =>
      var k := Times(s.g, x, s.g.add(pb, s.g.neg(Times(s.g, W(s, pin, nonce), s.n))));
      if k == s.g.zero then None
      else
        var tt := TranscriptOf(nonce, ClientShare(s, x, pin, nonce), serverShare, s.g.encode(k),
                               s.bytes(W(s, pin, nonce)));
        Some(Agreed(k, tt, s.keys(tt)))
  }

  /** Spake2Server: the share sent back and the keys, all at once. */
  function Respond<P(==)>(s: Scheme<P>, y: nat, pin: string, nonce: Octets, clientShare: Octets): Option<(Octets, Agreed<P>)> {
    match s.g.decode(clientShare)
    case None => None
    case Some(pa) =>
      var k := Times(s.g, y, s.g.add(pa, s.g.neg(Times(s.g, W(s, pin, nonce), s.m))));
      if k == s.g.zero then None
      else
        var share := s.g.encode(ServerPoint(s, y, pin, nonce));
        var tt := TranscriptOf(nonce, clientShare, share, s.g.encode(k), s.bytes(W(s, pin, nonce)));
        Some((share, Agreed(k, tt, s.keys(tt))))
  }

  predicate Secret<P>(g: Curve<P>, x: nat) { 0 < x < g.order }

  /** What the server makes of an honest client share. */
  lemma RespondIs<P(!new)>(s: Scheme<P>, x: nat, y: nat, pin: string, nonce: Octets)
    requires Sound(s.g) && Secret(s.g, x) && Secret(s.g, y)
    ensures var r := Respond(s, y, pin, nonce, ClientShare(s, x, pin, nonce));
            && (r.Some? <==> ClientPoint(s, x, pin, nonce) != s.g.zero)
            && (r.Some? ==> r.value.0 == s.g.encode(ServerPoint(s, y, pin, nonce))
                            && r.value.1.k == Times(s.g, y, Times(s.g, x, s.g.base)))
  {
    hide TranscriptOf, Times, IsGroup, PrimeOrder, Encodes;
    assert s.g.base != s.g.zero by { BaseNotZero(s.g); }
    MaskCancels(s.g, Times(s.g, x, s.g.base), Times(s.g, W(s, pin, nonce), s.m));
    NotZero(s.g, x, s.g.base);
    NotZero(s.g, y, Times(s.g, x, s.g.base));
    DecodesBack(s.g, ClientPoint(s, x, pin, nonce));
  }

  lemma BaseNotZero<P(!new)>(g: Curve<P>)
    requires PrimeOrder(g)
    ensures g.base != g.zero
  {
  }

  lemma FinishIs<P(!new)>(s: Scheme<P>, x: nat, y: nat, pin: string, nonce: Octets)
    requires Sound(s.g) && Secret(s.g, x) && Secret(s.g, y)
    ensures var r := Finish(s, x, pin, nonce, s.g.encode(ServerPoint(s, y, pin, nonce)));
            && (r.Some? <==> ServerPoint(s, y, pin, nonce) != s.g.zero)
            && (r.Some? ==> r.value.k == Times(s.g, x, Times(s.g, y, s.g.base)))
  {
    hide TranscriptOf, Times, IsGroup, PrimeOrder, Encodes;
    assert s.g.base != s.g.zero by { BaseNotZero(s.g); }
    MaskCancels(s.g, Times(s.g, y, s.g.base), Times(s.g, W(s, pin, nonce), s.n));
    NotZero(s.g, y, s.g.base);
    NotZero(s.g, x, Times(s.g, y, s.g.base));
    DecodesBack(s.g, ServerPoint(s, y, pin, nonce));
  }

  /** With the same PIN and nonce both ends agree on the secret, the transcript and
      all four keys, exactly when neither share is the identity. */
  lemma BothEndsAgree<P(!new)>(s: Scheme<P>, x: nat, y: nat, pin: string, nonce: Octets)
    requires Sound(s.g) && Secret(s.g, x) && Secret(s.g, y)
    ensures var server := Respond(s, y, pin, nonce, ClientShare(s, x, pin, nonce));
            && (server.Some? && Finish(s, x, pin, nonce, server.value.0).Some?
                <==> ClientPoint(s, x, pin, nonce) != s.g.zero && ServerPoint(s, y, pin, nonce) != s.g.zero)
            && (server.Some? && Finish(s, x, pin, nonce, server.value.0).Some? ==>
                  Finish(s, x, pin, nonce, server.value.0).value == server.value.1)
  {
    hide Times, TranscriptOf, IsGroup, PrimeOrder, Encodes;
    RespondIs(s, x, y, pin, nonce);
    FinishIs(s, x, y, pin, nonce);
    TimesCommutes(s.g, x, y, s.g.base);
  }

  /** With different password scalars the transcripts differ, so that only a collision
      of the key schedule could make a confirmation match. */
  lemma WrongPinDiffers<P(!new)>(s: Scheme<P>, x: nat, y: nat, pin: string, guess: string, nonce: Octets)
    requires Sound(s.g) && |nonce| <= 1_000 && (forall v, w :: s.bytes(v) == s.bytes(w) ==> v == w)
    requires forall v :: |s.bytes(v)| == 32
    requires W(s, pin, nonce) != W(s, guess, nonce)
    ensures var server := Respond(s, y, pin, nonce, ClientShare(s, x, guess, nonce));
            server.Some? && Finish(s, x, guess, nonce, server.value.0).Some? ==>
              Finish(s, x, guess, nonce, server.value.0).value.transcript != server.value.1.transcript
  {
    hide Times, IsGroup, PrimeOrder;
    var share := ClientShare(s, x, guess, nonce);
    var server := Respond(s, y, pin, nonce, share);
    if server.Some? && Finish(s, x, guess, nonce, server.value.0).Some? {
      var client := Finish(s, x, guess, nonce, server.value.0).value;
      var w1, w2 := s.bytes(W(s, pin, nonce)), s.bytes(W(s, guess, nonce));
      SizeOfTranscript(nonce, share, server.value.0, s.g.encode(server.value.1.k), w1);
      hide TranscriptOf;
      if client.transcript == server.value.1.transcript {
        TranscriptIsInjective(nonce, share, server.value.0, s.g.encode(server.value.1.k), w1,
                              nonce, share, server.value.0, s.g.encode(client.k), w2);
      }
    }
  }

  lemma SizeOfTranscript(nonce: Octets, pa: Octets, pb: Octets, k: Octets, w: Octets)
    requires |nonce| <= 1_000 && |pa| <= 65 && |pb| <= 65 && |k| <= 65 && |w| == 32
    ensures |TranscriptOf(nonce, pa, pb, k, w)| < U32
  {
    hide Boxes.Be32;
    var parts := Parts(nonce, pa, pb, k, w);
    assert forall i :: 0 <= i < |parts| ==> |parts[i]| <= 1_000;
    SizeBound(parts);
  }

  lemma {:induction false} SizeBound(parts: seq<Octets>)
    requires forall i :: 0 <= i < |parts| ==> |parts[i]| <= 1_000
    ensures |Boxes.LengthPrefixed(parts)| <= 1_004 * |parts|
  {
    hide Boxes.Be32;
    if parts != [] {
      SizeBound(parts[1..]);
    }
  }

  // ------------------------------------------------------------------------ loops

  /** The xor/or loop is equality; lengths are compared first. */
  method MacEqual(a: seq<bv8>, b: seq<bv8>) returns (equal: bool)
    ensures equal <==> a == b
  {
    if |a| != |b| {
      return false;
    }
    var diff: bv8 := 0;
    for i := 0 to |a|
      invariant diff == 0 <==> a[..i] == b[..i]
    {
      OrXor(diff, a[i], b[i]);
      SamePrefix(a, b, i);
      diff := diff | (a[i] ^ b[i]);
    }
    assert a[..|a|] == a && b[..|b|] == b;
    equal := diff == 0;
  }

  lemma OrXor(d: bv8, x: bv8, y: bv8)
    ensures d | (x ^ y) == 0 <==> d == 0 && x == y
  {
  }

  lemma SamePrefix(a: seq<bv8>, b: seq<bv8>, i: nat)
    requires i < |a| == |b|
    ensures a[..i + 1] == b[..i + 1] <==> a[..i] == b[..i] && a[i] == b[i]
  {
    assert a[..i + 1] == a[..i] + [a[i]] && b[..i + 1] == b[..i] + [b[i]];
    if a[..i + 1] == b[..i + 1] {
      assert a[..i] == a[..i + 1][..i] && a[i] == a[..i + 1][i];
      assert b[..i] == b[..i + 1][..i] && b[i] == b[..i + 1][i];
    }
  }

  /** Rejection sampling: the first of 256 digests that is a scalar and not zero. */
  method WScalar(digest: nat -> nat, order: nat) returns (w: Option<nat>)
    ensures w.Some? ==> 0 < w.value < order
    ensures w.Some? <==> exists c :: 0 <= c < 256 && 0 < digest(c) < order
    ensures w.Some? ==> exists c :: 0 <= c < 256 && digest(c) == w.value && forall d :: 0 <= d < c ==> !(0 < digest(d) < order)
  {
    for counter := 0 to 256
      invariant forall d :: 0 <= d < counter ==> !(0 < digest(d) < order)
    {
      var s := digest(counter);
      if s < order && s != 0 {
        return Some(s);
      }
    }
    w := None;
  }

  // ------------------------------------------------------------------------ a model of it

  datatype Three = Zero | One | Two

  function Plus(a: Three, b: Three): Three {
    match a
    case Zero => b
    case One => (match b case Zero => One case One => Two case Two => Zero)
    case Two => (match b case Zero => Two case One => Zero case Two => One)
  }

  function Minus(a: Three): Three {
    match a case Zero => Zero case One => Two case Two => One
  }

  function Write(p: Three): Octets {
    match p case Zero => [] case One => [1] case Two => [2]
  }

  function Read(s: Octets): Option<Three> {
    if s == [1] then Some(One) else if s == [2] then Some(Two) else None
  }

  function ModThree(): Curve<Three> {
    Curve(Zero, Plus, Minus, One, 3, Write, Read)
  }

  lemma PlusLaws(a: Three, b: Three, c: Three)
    ensures Plus(Plus(a, b), c) == Plus(a, Plus(b, c)) && Plus(a, b) == Plus(b, a)
    ensures Plus(a, Zero) == a && Plus(a, Minus(a)) == Zero
  {
  }

  lemma ThreeIsGroup()
    ensures IsGroup(ModThree())
  {
    var g := ModThree();
    forall a, b, c
      ensures g.add(g.add(a, b), c) == g.add(a, g.add(b, c))
    {
      PlusLaws(a, b, c);
    }
    forall a, b
      ensures g.add(a, b) == g.add(b, a)
    {
      PlusLaws(a, b, Zero);
    }
    forall a
      ensures g.add(a, g.zero) == a && g.add(a, g.neg(a)) == g.zero
    {
      PlusLaws(a, Zero, Zero);
    }
    hide Plus, Minus;
  }

  lemma ThreeHasOrder(n: nat, p: Three)
    requires 0 < n < 3 && p != Zero
    ensures Times(ModThree(), n, p) != Zero
  {
    assert Times(ModThree(), 1, p) == Plus(Zero, p);
    assert Times(ModThree(), 2, p) == Plus(p, p);
  }

  /** The assumptions on the curve can be met: the integers modulo three. */
  lemma AssumptionsCanBeMet()
    ensures Sound(ModThree())
  {
    hide IsGroup, Times;
    ThreeIsGroup();
    forall n: nat, p | 0 < n < 3 && p != Zero
      ensures Times(ModThree(), n, p) != Zero
    {
      ThreeHasOrder(n, p);
    }
  }

  function Ascii(s: string): Octets {
    seq(|s|, i requires 0 <= i < |s| => if s[i] as int < 128 then s[i] as int else 0)
  }

  lemma NamesAreAscii()
    ensures Ascii("ndsp-spake2-v1") == CONTEXT && Ascii("client") == ID_CLIENT && Ascii("server") == ID_SERVER
  {
  }

  /** The transcript, read back: context, identities, nonce, both shares, the secret and
      the password scalar, in the order in which they are hashed. */
  lemma TranscriptReads(nonce: Octets, pa: Octets, pb: Octets, k: Octets, w: Octets)
    requires |TranscriptOf(nonce, pa, pb, k, w)| < U32
    ensures Boxes.ParsePrefixed(TranscriptOf(nonce, pa, pb, k, w))
            == Some([Ascii("ndsp-spake2-v1"), Ascii("client"), Ascii("server"), nonce, pa, pb, k, w])
  {
    hide Boxes.ParsePrefixed, Boxes.LengthPrefixed, Ascii;
    NamesAreAscii();
    Boxes.PrefixedReadsBack(Parts(nonce, pa, pb, k, w));
  }
}
