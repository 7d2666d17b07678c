/**
 * The hash functions of ds.h that the hash map picks for int, long and
 * string keys.  Unsigned C arithmetic is modelled with bit-vectors
 * (uint32_t, uint64_t) or with an explicit reduction modulo 2^64 (size_t).
 * Characters stand for the bytes of a C string; `char` is signed.
 */
module Hashing {
  import opened Wrappers
  import opened Strings

  const Pow32: nat := 0x1_0000_0000
  const Pow64: nat := 0x1_0000_0000_0000_0000

  /** The C conversion of an int into uint32_t: reduction modulo 2^32. */
  function ToUint32(key: int): (u: nat)
    requires -0x8000_0000 <= key < 0x8000_0000
    ensures u < Pow32 && u % Pow32 == key % Pow32
    ensures key >= 0 ==> u == key
  {
    if key < 0 then key + Pow32 else key
  }

  /** The C conversion of a long into uint64_t: reduction modulo 2^64. */
  function ToUint64(key: int): (u: nat)
    requires -0x8000_0000_0000_0000 <= key < 0x8000_0000_0000_0000
    ensures u < Pow64 && u % Pow64 == key % Pow64
    ensures key >= 0 ==> u == key
  {
    if key < 0 then key + Pow64 else key
  }

  /** The mixing steps of _ds_hash_int on the key already converted to uint32_t. */
  function Mix32(k: bv32): bv32
  {
    XorShift15(TimesConstant(XorShift4(TimesNine(XorShift16(k)))))
  }

  /** key = (key ^ 61) ^ (key >> 16) */
  function XorShift16(k: bv32): bv32 { (k ^ 61) ^ (k >> 16) }

  /** key = key + (key << 3) */
  function TimesNine(k: bv32): bv32 { k + (k << 3) }

  /** key = key ^ (key >> 4) */
  function XorShift4(k: bv32): bv32 { k ^ (k >> 4) }

  /** key = key * 0x27d4eb2d */
  function TimesConstant(k: bv32): bv32 { k * 0x27d4eb2d }

  /** key = key ^ (key >> 15) */
  function XorShift15(k: bv32): bv32 { k ^ (k >> 15) }

  /** _ds_hash_int: Mix32 of the int key reinterpreted as uint32_t, widened to size_t. */
  function HashInt(key: int): (h: nat)
    requires -0x8000_0000 <= key < 0x8000_0000
    ensures h < Pow32
  {
    Mix32(ToUint32(key) as bv32) as nat
  }

  /** Mix32 run backwards: each step of the mixing is undone, last step first. */
  function Unmix32(h: bv32): bv32
  {
    XorShift16(DivideNine(UnxorShift4(DivideConstant(UnxorShift15(h)))))
  }

  /** Multiplication by the inverse of 9 modulo 2^32. */
  function DivideNine(k: bv32): bv32 { k * 0x38e3_8e39 }

  function UnxorShift4(y: bv32): bv32
  {
    y ^ (y >> 4) ^ (y >> 8) ^ (y >> 12) ^ (y >> 16) ^ (y >> 20) ^ (y >> 24) ^ (y >> 28)
  }

  /** Multiplication by the inverse of 0x27d4eb2d modulo 2^32 (the constant is odd). */
  function DivideConstant(k: bv32): bv32 { k * 0xfb69_9ca5 }

  function UnxorShift15(y: bv32): bv32 { y ^ (y >> 15) ^ (y >> 30) }

  // Each step of Mix32 is undone by the matching step of Unmix32.  The
  // xor-shifts are stated first on the bare bit-vector expressions; the
  // additions of shifted copies are first shown to be constant products.

  lemma XorShift16Twice(k: bv32)
    ensures var k1 := (k ^ 61) ^ (k >> 16); (k1 ^ 61) ^ (k1 >> 16) == k
  {
  }

  lemma XorShift4Inverse(k: bv32)
    ensures var y := k ^ (k >> 4);
      y ^ (y >> 4) ^ (y >> 8) ^ (y >> 12) ^ (y >> 16) ^ (y >> 20) ^ (y >> 24) ^ (y >> 28) == k
  {
  }

  lemma XorShift15Inverse(k: bv32)
    ensures var y := k ^ (k >> 15); y ^ (y >> 15) ^ (y >> 30) == k
  {
  }

  /** key + (key << 3) is key * 9 modulo 2^32. */
  lemma TimesNineIsProduct(k: bv32)
    ensures TimesNine(k) == k * 9
  {
  }

  /** The first step of Mix32 is its own inverse: the top half passes through unchanged. */
  lemma XorShift16Undone(k: bv32)
    ensures XorShift16(XorShift16(k)) == k
  {
    XorShift16Twice(k);
    assert XorShift16(k) == (k ^ 61) ^ (k >> 16);
  }

  lemma TimesNineUndone(k: bv32)
    ensures DivideNine(TimesNine(k)) == k
  {
    TimesNineIsProduct(k);
    assert DivideNine(k * 9) == k;
  }

  lemma XorShift4Undone(k: bv32)
    ensures UnxorShift4(XorShift4(k)) == k
  {
    XorShift4Inverse(k);
    assert XorShift4(k) == k ^ (k >> 4);
  }

  lemma TimesConstantUndone(k: bv32)
    ensures DivideConstant(TimesConstant(k)) == k
  {
    assert DivideConstant(k * 0x27d4eb2d) == k;
  }

  lemma XorShift15Undone(k: bv32)
    ensures UnxorShift15(XorShift15(k)) == k
  {
    XorShift15Inverse(k);
    assert XorShift15(k) == k ^ (k >> 15);
  }

  /** Unmix32 undoes Mix32, so Mix32 is a bijection on 32-bit words. */
  lemma Mix32Undone(k: bv32)
    ensures Unmix32(Mix32(k)) == k
  {
    var k1 := XorShift16(k);
    var k2 := TimesNine(k1);
    var k3 := XorShift4(k2);
    var k4 := TimesConstant(k3);
    XorShift15Undone(k4);
    TimesConstantUndone(k3);
    XorShift4Undone(k2);
    TimesNineUndone(k1);
    XorShift16Undone(k);
  }

  /** Distinct uint32_t keys never share a mixed value. */
  lemma Mix32Injective(x: bv32, y: bv32)
    ensures Mix32(x) == Mix32(y) <==> x == y
  {
    Mix32Undone(x);
    Mix32Undone(y);
  }

  // Moving between uint32_t values and their numbers loses nothing.

  lemma SmallModulo(n: int)
    requires 0 <= n < 0x1_0000_0000
    ensures n % 0x1_0000_0000 == n
  {
  }

  lemma ToBv32Modulo(n: int)
    requires 0 <= n < 0x1_0000_0000
    ensures (n as bv32) as int == n % 0x1_0000_0000
  {
  }

  lemma ToBv32AndBack(n: int)
    requires 0 <= n < 0x1_0000_0000
    ensures (n as bv32) as int == n
  {
    ToBv32Modulo(n);
    SmallModulo(n);
  }

  lemma ToBv32Injective(m: int, n: int)
    requires 0 <= m < 0x1_0000_0000 && 0 <= n < 0x1_0000_0000
    requires m as bv32 == n as bv32
    ensures m == n
  {
    ToBv32AndBack(m);
    ToBv32AndBack(n);
  }

  lemma FromBv32AndBack(x: bv32)
    ensures (x as nat) as bv32 == x
  {
  }

  /** Equal hashes come from equal mixed values: widening to size_t loses nothing. */
  lemma EqualHashesEqualMix(a: int, b: int)
    requires -0x8000_0000 <= a < 0x8000_0000 && -0x8000_0000 <= b < 0x8000_0000
    requires HashInt(a) == HashInt(b)
    ensures Mix32(ToUint32(a) as bv32) == Mix32(ToUint32(b) as bv32)
  {
    FromBv32AndBack(Mix32(ToUint32(a) as bv32));
    FromBv32AndBack(Mix32(ToUint32(b) as bv32));
  }

  /** Keys equal as uint32_t are equal as int. */
  lemma EqualUint32EqualKeys(a: int, b: int)
    requires -0x8000_0000 <= a < 0x8000_0000 && -0x8000_0000 <= b < 0x8000_0000
    requires ToUint32(a) as bv32 == ToUint32(b) as bv32
    ensures a == b
  {
    ToBv32Injective(ToUint32(a), ToUint32(b));
  }

  /** Distinct int keys never share a hash: _ds_hash_int is injective. */
  lemma HashIntInjective(a: int, b: int)
    requires -0x8000_0000 <= a < 0x8000_0000 && -0x8000_0000 <= b < 0x8000_0000
    ensures HashInt(a) == HashInt(b) <==> a == b
  {
    if HashInt(a) == HashInt(b) {
      EqualHashesEqualMix(a, b);
      Mix32Injective(ToUint32(a) as bv32, ToUint32(b) as bv32);
      EqualUint32EqualKeys(a, b);
    }
  }

  /** The mixing steps of _ds_hash_long on the key already converted to uint64_t. */
  function Mix64(k: bv64): bv64
  {
    var k1 := !k + (k << 21);
    var k2 := k1 ^ (k1 >> 24);
    var k3 := (k2 + (k2 << 3)) + (k2 << 8);
    var k4 := k3 ^ (k3 >> 14);
    var k5 := (k4 + (k4 << 2)) + (k4 << 4);
    var k6 := k5 ^ (k5 >> 28);
    k6 + (k6 << 31)
  }

  /** _ds_hash_long: Mix64 of the long key (64 bits wide) reinterpreted as uint64_t; size_t is 64 bits. */
  function HashLong(key: int): bv64
    requires -0x8000_0000_0000_0000 <= key < 0x8000_0000_0000_0000
  {
    Mix64(ToUint64(key) as bv64)
  }

  /** The value of a character read through a signed `char`. */
  function SignedByte(c: char): (v: int)
    ensures -128 <= v < 128
    ensures v % 256 == (c as int) % 256
  {
    var b := (c as int) % 256;
    if b < 128 then b else b - 256
  }

  /** djb2 over the bytes of `s`: start at 5381, then hash * 33 + c for each byte, in size_t. */
  function Djb2(s: string): (h: nat)
    ensures h < Pow64
  {
    if s == [] then 5381
    else (Djb2(s[..|s| - 1]) * 33 + SignedByte(s[|s| - 1])) % Pow64
  }

  /** Djb2 is the fold of one step per byte, from the front. */
  lemma Djb2Snoc(s: string, c: char)
    ensures Djb2(s + [c]) == (Djb2(s) * 33 + SignedByte(c)) % Pow64
  {
    assert (s + [c])[..|s|] == s;
  }

  /** _ds_hash_int on a few keys, a negative one among them, worked out by hand from the C definition. */
  lemma HashIntExamples()
    ensures Mix32(0) == 3232319850 && Mix32(1) == 663891101
    ensures ToUint32(-1) == 0xffff_ffff && Mix32(0xffff_ffff) == 1895078355
    ensures Mix32(42) == 1462734105
  {
  }

  /** _ds_hash_long on a few keys, worked out by hand from the C definition. */
  lemma HashLongExamples()
    ensures Mix64(0) == 8633297058295171728 && Mix64(1) == 6614235796240398542
    ensures ToUint64(-1) == 0xffff_ffff_ffff_ffff && Mix64(0xffff_ffff_ffff_ffff) == 2272383144869939092
  {
  }

  /** djb2 on a few strings, one with a byte above 127 that a signed char reads as negative. */
  lemma Djb2Examples()
    ensures Djb2("") == 5381 && Djb2("a") == 177670 && Djb2("id") == 5863474
    ensures Djb2("\U{e9}") == 177550
  {
    assert "id"[..1] == "i";
  }

  /**
   * _ds_hash_string: 0 for a NULL key, otherwise djb2 over the bytes up to
   * the terminating NUL.
   */
  method HashString(key: Option<string>) returns (h: nat)
    ensures key.None? ==> h == 0
    ensures key.Some? ==> h == Djb2(CStr(key.value))
    ensures h < Pow64
  {
    if key.None? {
      return 0;
    }
    var s := key.value;
    h := 5381;
    var i := 0;
    while i < |s| && s[i] != '\0'
      invariant 0 <= i <= |s|
      invariant '\0' !in s[..i]
      invariant h == Djb2(s[..i])
    {
      Djb2Snoc(s[..i], s[i]);
      assert s[..i + 1] == s[..i] + [s[i]];
      h := (h * 33 + SignedByte(s[i])) % Pow64;
      i := i + 1;
    }
    CStrStops(s, i);
  }

  /** The C string of `s` ends at the first NUL, or at the end of `s`. */
  lemma {:induction false} CStrStops(s: string, i: nat)
    requires i <= |s| && '\0' !in s[..i]
    requires i == |s| || s[i] == '\0'
    ensures CStr(s) == s[..i]
  {
    if i > 0 {
      assert s[1..][..i - 1] == s[1..i];
      assert '\0' !in s[1..][..i - 1];
      CStrStops(s[1..], i - 1);
    }
  }
}
