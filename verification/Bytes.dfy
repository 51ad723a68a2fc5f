/** Fixed-width integers, their memory images on a little-endian host, and network byte order. */
module Bytes {

  type byte = x: int | 0 <= x < 256
  type uint32 = x: int | 0 <= x < U32
  type int32 = x: int | -0x8000_0000 <= x < 0x8000_0000

  const U32: int := 0x1_0000_0000
  const U64: int := 0x1_0000_0000_0000_0000
  const INT_MAX: int := 0x7FFF_FFFF

  /** static_cast between int/long (32 bits on the target) and unsigned. */
  function ToUnsigned(x: int32): uint32 {
    if x < 0 then x + U32 else x
  }

  function ToSigned(u: uint32): int32 {
    if u < 0x8000_0000 then u else u - U32
  }

  function Pow256(k: nat): (p: nat)
    ensures p > 0
  {
    if k == 0 then 1 else 256 * Pow256(k - 1)
  }

  lemma Widths()
    ensures Pow256(4) == U32 && Pow256(8) == U64
  {
    assert Pow256(2) == 0x1_0000;
    assert Pow256(4) == 0x1_0000_0000;
    assert Pow256(6) == 0x1_0000_0000_0000;
  }

  /** The k bytes that a k-byte unsigned integer occupies in memory. */
  function Image(n: nat, k: nat): (s: seq<byte>)
    ensures |s| == k
  {
    if k == 0 then [] else [n % 256] + Image(n / 256, k - 1)
  }

  function Load(s: seq<byte>): nat {
    if s == [] then 0 else s[0] + 256 * Load(s[1..])
  }

  function Reverse(s: seq<byte>): (r: seq<byte>)
    ensures |r| == |s|
  {
    if s == [] then [] else Reverse(s[1..]) + [s[0]]
  }

  /** htonl, htonll, ntohl and ntohll on a little-endian host all exchange the bytes of the image. */
  function SwapBytes(n: nat, k: nat): nat {
    Load(Reverse(Image(n, k)))
  }

  /** Network order: most significant octet first (Appendix B of RFC 791). */
  function BigEndian(n: nat, k: nat): (s: seq<byte>)
    ensures |s| == k
  {
    if k == 0 then [] else BigEndian(n / 256, k - 1) + [n % 256]
  }

  function FromBigEndian(s: seq<byte>): nat {
    if s == [] then 0 else 256 * FromBigEndian(s[..|s| - 1]) + s[|s| - 1]
  }

  lemma {:induction false} LoadBound(s: seq<byte>)
    ensures Load(s) < Pow256(|s|)
  {
    if s != [] {
      LoadBound(s[1..]);
    }
  }

  lemma {:induction false} ImageOfLoad(s: seq<byte>)
    ensures Image(Load(s), |s|) == s
  {
    if s != [] {
      ImageOfLoad(s[1..]);
      assert Load(s) / 256 == Load(s[1..]) && Load(s) % 256 == s[0];
    }
  }

  lemma {:induction false} LoadOfImage(n: nat, k: nat)
    requires n < Pow256(k)
    ensures Load(Image(n, k)) == n
  {
    if k > 0 {
      LoadOfImage(n / 256, k - 1);
      assert Image(n, k)[1..] == Image(n / 256, k - 1);
    }
  }

  lemma {:induction false} FromBigEndianBound(s: seq<byte>)
    ensures FromBigEndian(s) < Pow256(|s|)
  {
    if s != [] {
      FromBigEndianBound(s[..|s| - 1]);
    }
  }

  lemma {:induction false} BigEndianRoundTrip(n: nat, k: nat)
    requires n < Pow256(k)
    ensures FromBigEndian(BigEndian(n, k)) == n
  {
    if k > 0 {
      BigEndianRoundTrip(n / 256, k - 1);
      assert BigEndian(n, k)[..k - 1] == BigEndian(n / 256, k - 1);
    }
  }

  lemma {:induction false} BigEndianOfFrom(s: seq<byte>)
    ensures BigEndian(FromBigEndian(s), |s|) == s
  {
    if s != [] {
      BigEndianOfFrom(s[..|s| - 1]);
      assert FromBigEndian(s) / 256 == FromBigEndian(s[..|s| - 1]) && FromBigEndian(s) % 256 == s[|s| - 1];
    }
  }

  lemma DivideTwice(n: nat, d: nat)
    requires d > 0
    ensures n / 256 / d == n / (256 * d)
  {
    var q := n / 256 / d;
    assert q * d <= n / 256 < (q + 1) * d;
    assert q * (256 * d) <= n < (q + 1) * (256 * d);
    QuotientIs(n, 256 * d, q);
  }

  lemma QuotientIs(n: nat, d: nat, q: nat)
    requires d > 0 && q * d <= n < (q + 1) * d
    ensures n / d == q
  {
    var p := n / d;
    assert p < q ==> (p + 1) * d <= q * d;
    assert p > q ==> (q + 1) * d <= p * d;
  }

  /** Octet i of k, from the most significant on. */
  lemma {:induction false} BigEndianOctet(n: nat, k: nat, i: nat)
    requires i < k
    ensures BigEndian(n, k)[i] == n / Pow256(k - 1 - i) % 256
  {
    if i < k - 1 {
      BigEndianOctet(n / 256, k - 1, i);
      DivideTwice(n, Pow256(k - 2 - i));
    }
  }

  lemma {:induction false} BigEndianIsReversedImage(n: nat, k: nat)
    ensures Reverse(Image(n, k)) == BigEndian(n, k)
  {
    if k > 0 {
      BigEndianIsReversedImage(n / 256, k - 1);
      assert Image(n, k)[1..] == Image(n / 256, k - 1);
    }
  }

  lemma {:induction false} LoadOfReverse(s: seq<byte>)
    ensures Load(Reverse(s)) == FromBigEndian(s)
  {
    BigEndianOfFrom(s);
    var n := FromBigEndian(s);
    BigEndianIsReversedImage(n, |s|);
    ReverseTwice(Image(n, |s|));
    FromBigEndianBound(s);
    LoadOfImage(n, |s|);
  }

  lemma {:induction false} ReverseAppend(s: seq<byte>, b: byte)
    ensures Reverse(s + [b]) == [b] + Reverse(s)
  {
    if s == [] {
      assert s + [b] == [b];
    } else {
      ReverseAppend(s[1..], b);
      assert (s + [b])[1..] == s[1..] + [b];
    }
  }

  lemma {:induction false} ReverseTwice(s: seq<byte>)
    ensures Reverse(Reverse(s)) == s
  {
    if s != [] {
      ReverseTwice(s[1..]);
      ReverseAppend(Reverse(s[1..]), s[0]);
    }
  }

  /** Storing htonX(n) into a buffer puts n there in network order. */
  lemma StoredInNetworkOrder(n: nat, k: nat)
    ensures Image(SwapBytes(n, k), k) == BigEndian(n, k)
    ensures SwapBytes(n, k) < Pow256(k)
  {
    BigEndianIsReversedImage(n, k);
    ImageOfLoad(Reverse(Image(n, k)));
    LoadBound(Reverse(Image(n, k)));
  }

  /** Loading a field from a buffer and applying ntohX reads it in network order. */
  lemma LoadedFromNetworkOrder(s: seq<byte>)
    ensures SwapBytes(Load(s), |s|) == FromBigEndian(s)
  {
    ImageOfLoad(s);
    LoadOfReverse(s);
  }
}
