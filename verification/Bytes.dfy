/** Bytes, C strings, XOR and the 64-bit big-endian size field. */
module Bytes {
  type byte = n: nat | n < 256
  type Data = seq<byte>

  /** One past the largest size_t / uint64_t. */
  const SIZE_LIMIT: nat := 0x1_0000_0000_0000_0000

  /** The cast (uint8_t) of a size. */
  function Low8(n: nat): (b: byte) {
    n % 256
  }

  /** The characters of a C string, without its terminator. */
  type Name = s: Data | 0 !in s

  /** What strlen, strcmp and sprintf see of a buffer that is followed by a terminator. */
  function CStr(s: Data): (r: Name)
    ensures r <= s
    ensures |r| < |s| ==> s[|r|] == 0
  {
    if s == [] || s[0] == 0 then [] else [s[0]] + CStr(s[1..])
  }

  lemma CStrOfClean(s: Data)
    requires 0 !in s
    ensures CStr(s) == s
  {
    assert |CStr(s)| == |s|;
  }

  // ----- XOR -----

  function XorBits(a: nat, b: nat, k: nat): (c: nat)
    ensures c < Pow(2, k)
  {
    if k == 0 then 0 else 2 * XorBits(a / 2, b / 2, k - 1) + if a % 2 == b % 2 then 0 else 1
  }

  function Pow(b: nat, k: nat): (p: nat)
    ensures b > 0 ==> p > 0
  {
    if k == 0 then 1 else Pow(b, k - 1) * b
  }

  /** The operator ^ on uint8_t. */
  function Xor(a: byte, b: byte): (c: byte) {
    assert Pow(2, 8) == 256 by { assert Pow(2, 4) == 16; }
    XorBits(a, b, 8)
  }

  lemma {:induction false} XorBitsLaws(a: nat, b: nat, c: nat, k: nat)
    ensures XorBits(a, b, k) == XorBits(b, a, k)
    ensures XorBits(XorBits(a, b, k), c, k) == XorBits(a, XorBits(b, c, k), k)
    ensures XorBits(a, a, k) == 0
    ensures a < Pow(2, k) ==> XorBits(a, 0, k) == a
  {
    if k > 0 {
      XorBitsLaws(a / 2, b / 2, c / 2, k - 1);
      assert XorBits(a, b, k) / 2 == XorBits(a / 2, b / 2, k - 1);
      assert XorBits(b, c, k) / 2 == XorBits(b / 2, c / 2, k - 1);
    }
  }

  lemma XorLaws(a: byte, b: byte, c: byte)
    ensures Xor(a, b) == Xor(b, a)
    ensures Xor(Xor(a, b), c) == Xor(a, Xor(b, c))
    ensures Xor(a, a) == 0 && Xor(a, 0) == a
  {
    assert Pow(2, 8) == 256 by { assert Pow(2, 4) == 16; }
    XorBitsLaws(a, b, c, 8);
  }

  lemma XorIsZero(a: byte, b: byte)
    ensures Xor(a, b) == 0 <==> a == b
  {
    XorLaws(a, b, b);
    XorLaws(b, b, 0);
    XorLaws(b, 0, 0);
  }

  /** A checksum variable running over the bytes of s. */
  function XorFold(x: byte, s: Data): (r: byte)
    decreases s
  {
    if s == [] then x else XorFold(Xor(x, s[0]), s[1..])
  }

  lemma {:induction false} XorFoldConcat(x: byte, a: Data, b: Data)
    ensures XorFold(x, a + b) == XorFold(XorFold(x, a), b)
    decreases a
  {
    if a == [] {
      assert a + b == b;
    } else {
      assert (a + b)[1..] == a[1..] + b;
      XorFoldConcat(Xor(x, a[0]), a[1..], b);
    }
  }

  /** A byte folded in early can be folded in last. */
  lemma {:induction false} XorFoldShift(x: byte, y: byte, s: Data)
    ensures XorFold(Xor(x, y), s) == Xor(XorFold(x, s), y)
    decreases s
  {
    if s != [] {
      XorLaws(x, y, s[0]);
      XorLaws(y, s[0], x);
      XorLaws(x, s[0], y);
      XorFoldShift(Xor(x, s[0]), y, s[1..]);
    }
  }

  /** Replacing one byte changes the fold: the two folds differ exactly by the two bytes. */
  lemma XorFoldUpdate(s: Data, i: nat, b: byte)
    requires i < |s|
    ensures Xor(XorFold(0, s), XorFold(0, s[i := b])) == Xor(s[i], b)
  {
    var x, t := XorFold(0, s[..i]), s[i + 1..];
    assert s == s[..i] + ([s[i]] + t);
    assert s[i := b] == s[..i] + ([b] + t);
    XorFoldConcat(0, s[..i], [s[i]] + t);
    XorFoldConcat(0, s[..i], [b] + t);
    assert ([s[i]] + t)[1..] == t && ([b] + t)[1..] == t;
    XorFoldShift(x, s[i], t);
    XorFoldShift(x, b, t);
    XorCancel(XorFold(x, t), s[i], b);
  }

  lemma XorCancel(f: byte, a: byte, b: byte)
    ensures Xor(Xor(f, a), Xor(f, b)) == Xor(a, b)
  {
    XorLaws(f, a, Xor(f, b));
    XorLaws(a, f, b);
    XorLaws(f, Xor(a, Xor(f, b)), 0);
    XorLaws(Xor(a, f), b, 0);
    XorLaws(f, Xor(a, f), b);
    XorLaws(f, f, a);
    XorLaws(a, 0, 0);
  }

  // ----- The size field -----

  /** The low k bytes of n, most significant first: byte j is (n >> 8 * (k - 1 - j)) & 0xFF. */
  function BigEndian(n: nat, k: nat): (s: Data)
    ensures |s| == k
  {
    if k == 0 then [] else BigEndian(n / 256, k - 1) + [Low8(n)]
  }

  lemma {:induction false} BigEndianByte(n: nat, k: nat, j: nat)
    requires j < k
    ensures BigEndian(n, k)[j] == Low8(n / Pow(256, k - 1 - j))
  {
    if j < k - 1 {
      BigEndianByte(n / 256, k - 1, j);
      ShiftTwice(n, Pow(256, k - 2 - j));
    }
  }

  lemma ShiftTwice(n: nat, p: nat)
    requires p > 0
    ensures n / 256 / p == n / (p * 256)
  {
    var q := n / 256 / p;
    var low, mid := n % 256, n / 256 % p;
    assert n == 256 * (n / 256) + low;
    assert n / 256 == p * q + mid;
    assert n == p * 256 * q + (256 * mid + low);
    assert 256 * mid + low < p * 256;
    QuotientUnique(n, p * 256, q, 256 * mid + low);
  }

  lemma QuotientUnique(n: nat, d: nat, q: nat, r: nat)
    requires d > 0 && n == d * q + r && r < d
    ensures n / d == q
  {
    var e := n / d - q;
    assert d * e == r - n % d;
    MulAtLeast(d, e);
  }

  lemma MulAtLeast(d: nat, e: int)
    requires d > 0
    ensures e >= 1 ==> d * e >= d
    ensures e <= -1 ==> d * e <= -(d as int)
  {
  }

  /** The shift-and-add reading of those bytes. */
  function FromBigEndian(s: Data): (n: nat) {
    if s == [] then 0 else FromBigEndian(s[..|s| - 1]) * 256 + s[|s| - 1]
  }

  lemma PowOf256()
    ensures Pow(256, 8) == SIZE_LIMIT
  {
    assert Pow(256, 4) == 0x1_0000_0000;
  }

  lemma {:induction false} BigEndianRoundTrip(n: nat, k: nat)
    requires n < Pow(256, k)
    ensures FromBigEndian(BigEndian(n, k)) == n
  {
    if k > 0 {
      BigEndianRoundTrip(n / 256, k - 1);
      var s := BigEndian(n, k);
      assert s[..k - 1] == BigEndian(n / 256, k - 1);
    }
  }

  lemma {:induction false} FromBigEndianRoundTrip(s: Data)
    ensures FromBigEndian(s) < Pow(256, |s|)
    ensures BigEndian(FromBigEndian(s), |s|) == s
  {
    if s != [] {
      var front, last := s[..|s| - 1], s[|s| - 1];
      FromBigEndianRoundTrip(front);
      assert s == front + [last];
      assert FromBigEndian(s) / 256 == FromBigEndian(front);
    }
  }

  // ----- Buffers -----

  /** memcpy into the output buffer, returning the advanced cursor. */
  method Append(out: array<byte>, at: nat, s: Data) returns (next: nat)
    requires at + |s| <= out.Length
    modifies out
    ensures next == at + |s|
    ensures out[..next] == old(out[..at]) + s
  {
    forall i | 0 <= i < |s| {
      out[at + i] := s[i];
    }
    next := at + |s|;
  }
}
