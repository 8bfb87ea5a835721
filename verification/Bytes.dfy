/** Bytes, and unsigned integers written big-endian. */
module Bytes {

  type Byte = n: nat | n < 256
  type Octets = seq<Byte>

  const U32 := 0x1_0000_0000
  const U64 := 0x1_0000_0000_0000_0000

  /** 256 to the power `n`: how many values `n` bytes can hold. */
  function Span(n: nat): (r: nat)
    ensures r > 0
  {
    if n == 0 then 1 else 256 * Span(n - 1)
  }

  /** The low `n` bytes of `v`, most significant first. */
  function BigEndian(v: nat, n: nat): (r: Octets)
    ensures |r| == n
  {
    if n == 0 then [] else BigEndian(v / 256, n - 1) + [v % 256]
  }

  function FromBigEndian(s: Octets): nat {
    if s == [] then 0 else FromBigEndian(s[..|s| - 1]) * 256 + s[|s| - 1]
  }

  lemma {:induction false} FromBigEndianBound(s: Octets)
    ensures FromBigEndian(s) < Span(|s|)
  {
    if s != [] {
      FromBigEndianBound(s[..|s| - 1]);
    }
  }

  /** Reading what was written gives the value back, as far as it fits. */
  lemma {:induction false} BigEndianRoundTrip(v: nat, n: nat)
    requires v < Span(n)
    ensures FromBigEndian(BigEndian(v, n)) == v
  {
    if n > 0 {
      BigEndianRoundTrip(v / 256, n - 1);
      assert BigEndian(v, n)[..n - 1] == BigEndian(v / 256, n - 1);
    }
  }

  /** And writing what was read gives the bytes back. */
  lemma {:induction false} BigEndianOfRead(s: Octets)
    ensures BigEndian(FromBigEndian(s), |s|) == s
  {
    if s != [] {
      BigEndianOfRead(s[..|s| - 1]);
    }
  }

  lemma Spans()
    ensures Span(4) == U32 && Span(8) == U64
  {
    assert Span(2) == 65536;
    assert Span(4) == 256 * 256 * Span(2);
    assert Span(6) == 256 * 256 * Span(4);
  }

  /** Vec::resize: cut, or padded with zeros. */
  function Resized(s: Octets, n: nat): (r: Octets)
    ensures |r| == n
  {
    if n <= |s| then s[..n] else s + seq(n - |s|, _ => 0 as Byte)
  }

  function Concat(parts: seq<Octets>): Octets {
    if parts == [] then [] else Concat(parts[..|parts| - 1]) + parts[|parts| - 1]
  }

  // ----------------------------------------------------------- slicing and joining

  lemma Regroup<T>(a: seq<T>, b: seq<T>, c: seq<T>)
    ensures a + (b + c) == (a + b) + c
  {
  }

  lemma SliceOn<T>(s: seq<T>, at: nat, n: nat)
    requires at + n <= |s|
    ensures s[at..][n..] == s[at + n..] && s[at..][..n] == s[at..at + n]
    ensures s[..at] + s[at..at + n] == s[..at + n]
  {
  }
}
