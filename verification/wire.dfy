/**
 * The integer slots of Python's `struct` module under the "!" (network,
 * big-endian, standard size) prefix, and the bit operations used to build
 * and split the LI/VN/Mode byte.
 */
module Wire {

  /** One octet of a packed buffer. */
  type byte = x: int | 0 <= x < 256

  /** 2^n: a left shift by n multiplies by this. */
  function Pow2(n: nat): (r: nat)
    ensures r >= 1
  {
    if n == 0 then 1 else 2 * Pow2(n - 1)
  }

  /** 256^width: the number of values a `width`-byte unsigned slot holds. */
  function Pow256(width: nat): (r: nat)
    ensures r >= 1
  {
    if width == 0 then 1 else 256 * Pow256(width - 1)
  }

  const U32_LIMIT: int := 0x1_0000_0000

  /** Format code `B`: unsigned byte. */
  predicate IsUByte(n: int) { 0 <= n < 256 }

  /** Format code `b`: signed byte. */
  predicate IsSByte(n: int) { -128 <= n < 128 }

  /** Format code `I` with standard size: unsigned 32-bit integer. */
  predicate IsU32(n: int) { 0 <= n < U32_LIMIT }

  /** The `width` bytes of `n` in network order, most significant first. */
  function ToBigEndian(n: nat, width: nat): (s: seq<byte>)
    ensures |s| == width
  {
    if width == 0 then [] else ToBigEndian(n / 256, width - 1) + [n % 256]
  }

  /** The unsigned value of a big-endian byte string. */
  function FromBigEndian(s: seq<byte>): (n: nat)
    ensures n < Pow256(|s|)
  {
    if s == [] then 0 else FromBigEndian(s[..|s| - 1]) * 256 + s[|s| - 1]
  }

  lemma Pow256Four()
    ensures Pow256(4) == U32_LIMIT
  {
  }

  /** Packing a value that fits its slot and reading it back gives the value. */
  lemma {:induction false} FromToBigEndian(n: nat, width: nat)
    requires n < Pow256(width)
    ensures FromBigEndian(ToBigEndian(n, width)) == n
  {
    if width > 0 {
      var s := ToBigEndian(n, width);
      assert s[..|s| - 1] == ToBigEndian(n / 256, width - 1);
      assert s[|s| - 1] == n % 256;
      FromToBigEndian(n / 256, width - 1);
    }
  }

  /** Reading a byte string and packing the value into as many bytes gives the string. */
  lemma {:induction false} ToFromBigEndian(s: seq<byte>)
    ensures ToBigEndian(FromBigEndian(s), |s|) == s
  {
    if s != [] {
      var init, last := s[..|s| - 1], s[|s| - 1];
      var n := FromBigEndian(s);
      assert n == FromBigEndian(init) * 256 + last;
      assert n / 256 == FromBigEndian(init) && n % 256 == last;
      ToFromBigEndian(init);
      assert s == init + [last];
    }
  }

  /** Format code `b` on the wire: two's complement in one byte. */
  function SignedByte(n: int): (b: byte)
    requires IsSByte(n)
    ensures FromSignedByte(b) == n
  {
    if n < 0 then n + 256 else n
  }

  /** Format code `b` when unpacking: bytes from 128 up are negative. */
  function FromSignedByte(b: byte): (n: int)
    ensures IsSByte(n)
    ensures n < 0 <==> b >= 128
  {
    if b >= 128 then b - 256 else b
  }

  lemma SignedByteOfUnpacked(b: byte)
    ensures SignedByte(FromSignedByte(b)) == b
  {
  }

  /** Python's `|` on non-negative integers, one bit at a time from the low end. */
  function BitOr(a: nat, b: nat): (r: nat)
    decreases a + b
  {
    if a == 0 then b
    else if b == 0 then a
    else 2 * BitOr(a / 2, b / 2) + (if a % 2 == 1 || b % 2 == 1 then 1 else 0)
  }

  /** Python's `x << n` on a non-negative integer. */
  function ShiftLeft(x: nat, n: nat): (r: nat)
  {
    if n == 0 then x else 2 * ShiftLeft(x, n - 1)
  }

  /** OR-ing a value shifted left by k with one below 2^k is addition: the bits do not overlap. */
  lemma {:induction false} BitOrDisjoint(high: nat, k: nat, low: nat)
    requires low < Pow2(k)
    ensures BitOr(ShiftLeft(high, k), low) == ShiftLeft(high, k) + low
  {
    var x := ShiftLeft(high, k);
    if k == 0 {
      assert low == 0;
    } else if x == 0 || low == 0 {
    } else {
      var y := ShiftLeft(high, k - 1);
      assert x == 2 * y;
      assert x / 2 == y && x % 2 == 0;
      BitOrDisjoint(high, k - 1, low / 2);
      assert BitOr(x, low) == 2 * BitOr(y, low / 2) + low % 2;
    }
  }
}
