/** The plan-id hash: int32 shifts and exclusive-or mixed with an addition that is not truncated. */
module HashStable {
  import opened Arithmetic

  const TWO_32 := 0x1_0000_0000
  const TWO_31 := 0x8000_0000

  /** The residue of an integer below 2^32, and the signed value with that residue (ECMA-262, section 7.1.6). */
  function ToUint32(x: int): (u: nat)
    ensures u < TWO_32
  {
    x % TWO_32
  }

  function ToInt32(x: int): (r: int)
    ensures -TWO_31 <= r < TWO_31
    ensures ToUint32(r) == ToUint32(x)
  {
    Signed(ToUint32(x))
  }

  function Signed(u: nat): (r: int)
    requires u < TWO_32
    ensures -TWO_31 <= r < TWO_31 && ToUint32(r) == u
  {
    if u < TWO_31 then u else u - TWO_32
  }

  /** Bitwise exclusive or of two naturals. */
  function Xor(a: nat, b: nat): nat
    decreases a + b
  {
    if a == 0 && b == 0 then 0
    else 2 * Xor(a / 2, b / 2) + (if a % 2 == b % 2 then 0 else 1)
  }

  lemma {:induction false} XorBound(a: nat, b: nat, n: nat)
    requires a < Pow2(n) && b < Pow2(n)
    ensures Xor(a, b) < Pow2(n)
  {
    if n > 0 && (a > 0 || b > 0) {
      XorBound(a / 2, b / 2, n - 1);
    }
  }

  /** Exclusive or undoes itself, so hashing one character loses nothing. */
  lemma {:induction false} XorInverse(a: nat, b: nat)
    ensures Xor(Xor(a, b), b) == a
    decreases a + b
  {
    if a > 0 || b > 0 {
      XorInverse(a / 2, b / 2);
      var x := Xor(a, b);
      assert x / 2 == Xor(a / 2, b / 2);
      if x == 0 && b == 0 {
        assert Xor(0, 0) == 0;
      }
    }
  }

  lemma Pow2Of32()
    ensures Pow2(32) == TWO_32
  {
    assert Pow2(8) == 256;
    assert Pow2(16) == 65536 by {
      assert Pow2(12) == 4096;
    }
    assert Pow2(24) == 16777216 by {
      assert Pow2(20) == 1048576;
    }
    assert Pow2(28) == 268435456;
  }

  /** `x << 5` on int32. */
  function ShiftLeft5(h: int): (r: int)
    ensures -TWO_31 <= r < TWO_31
  {
    ToInt32(ToInt32(h) * 32)
  }

  /** `x ^ y`: both sides are truncated first. */
  function XorInt32(x: int, y: int): (r: int)
    ensures -TWO_31 <= r < TWO_31
  {
    Pow2Of32();
    XorBound(ToUint32(x), ToUint32(y), 32);
    Signed(Xor(ToUint32(x), ToUint32(y)))
  }

  // ---------------------------------------------------------------- the loop

  /** A Unicode code point; iterating a string yields one at a time, lone surrogates included. */
  type CodePoint = c: int | 0 <= c < 0x110000

  /** The first UTF-16 code unit of a code point. */
  function CharCode(c: CodePoint): (u: nat)
    ensures u < 0x10000
  {
    if c < 0x10000 then c else 0xD800 + (c - 0x10000) / 0x400
  }

  const SEED := 5381

  /** The intended hash in unsigned 32-bit arithmetic: multiply by 33, wrap, then exclusive or. */
  function Djb(value: seq<CodePoint>): (u: nat)
    ensures u < TWO_32
  {
    if value == [] then SEED
    else
      var n := |value| - 1;
      Pow2Of32();
      XorBound(ToUint32(33 * Djb(value[..n])), CharCode(value[n]), 32);
      Xor(ToUint32(33 * Djb(value[..n])), CharCode(value[n]))
  }

  /** Adding without truncation and truncating afterwards is multiplication by 33 modulo 2^32. */
  lemma ShiftAndAdd(h: int, u: nat)
    requires -TWO_31 <= h < TWO_31 && ToUint32(h) == u
    ensures ToUint32(ShiftLeft5(h) + h) == ToUint32(33 * u)
  {
    assert ToInt32(h) == h by {
      SignedUnique(h);
    }
    ResidueSum(ShiftLeft5(h), h * 32, h);
    ResidueScale(h, u);
  }

  lemma SignedUnique(h: int)
    requires -TWO_31 <= h < TWO_31
    ensures Signed(ToUint32(h)) == h
  {
  }

  lemma ResidueSum(a: int, b: int, c: int)
    requires ToUint32(a) == ToUint32(b)
    ensures ToUint32(a + c) == ToUint32(b + c)
  {
    var k := a / TWO_32 - b / TWO_32;
    assert a == b + k * TWO_32;
    ResidueShift(b + c, k);
  }

  lemma ResidueShift(x: int, k: int)
    ensures ToUint32(x + k * TWO_32) == ToUint32(x)
  {
    var q, r := x / TWO_32, x % TWO_32;
    assert x + k * TWO_32 == (q + k) * TWO_32 + r;
  }

  lemma ResidueScale(h: int, u: nat)
    requires ToUint32(h) == u
    ensures ToUint32(33 * h) == ToUint32(33 * u)
  {
    var k := h / TWO_32;
    assert 33 * h == 33 * u + 33 * k * TWO_32;
    ResidueShift(33 * u, 33 * k);
  }

  /** The loop's state is always an int32 that stands for the unsigned 32-bit hash of what was read. */
  method HashLoop(value: seq<CodePoint>) returns (hash: int)
    ensures hash == Signed(Djb(value))
  {
    hash := SEED;
    var i := 0;
    while i < |value|
      invariant 0 <= i <= |value|
      invariant hash == Signed(Djb(value[..i]))
    {
      assert value[..i + 1][..i] == value[..i];
      ShiftAndAdd(hash, Djb(value[..i]));
      assert CharCode(value[i]) < TWO_32;
      hash := XorInt32(ShiftLeft5(hash) + hash, CharCode(value[i]));
      i := i + 1;
    }
    assert value[..|value|] == value;
  }

  // ---------------------------------------------------------------- the printed hash

  /** The digits 0 to 9, then the letters a to z. */
  function DigitChar36(d: nat): char
    requires d < 36
  {
    if d < 10 then ('0' as int + d) as char else ('a' as int + d - 10) as char
  }

  function ToBase36(n: nat): (s: string)
    ensures |s| > 0
  {
    if n < 36 then [DigitChar36(n)] else ToBase36(n / 36) + [DigitChar36(n % 36)]
  }

  function Pow36(n: nat): nat {
    if n == 0 then 1 else 36 * Pow36(n - 1)
  }

  lemma {:induction false} Base36Length(n: nat, k: nat)
    requires k > 0 && n < Pow36(k)
    ensures |ToBase36(n)| <= k
  {
    if n >= 36 && k > 1 {
      Base36Length(n / 36, k - 1);
    }
  }

  function Digit36(c: char): (d: nat)
    ensures d < 36
  {
    if '0' <= c <= '9' then c as int - '0' as int else if 'a' <= c <= 'z' then c as int - 'a' as int + 10 else 0
  }

  function FromBase36(s: string): nat {
    if s == "" then 0 else 36 * FromBase36(s[..|s| - 1]) + Digit36(s[|s| - 1])
  }

  lemma DigitRead(d: nat)
    requires d < 36
    ensures Digit36(DigitChar36(d)) == d
  {
  }

  lemma {:induction false} Base36RoundTrip(n: nat)
    ensures FromBase36(ToBase36(n)) == n
  {
    DigitRead(n % 36);
    if n < 36 {
      assert ToBase36(n)[..0] == "";
    } else {
      Base36RoundTrip(n / 36);
      assert ToBase36(n)[..|ToBase36(n)| - 1] == ToBase36(n / 36);
    }
  }

  function Abs(x: int): nat {
    if x < 0 then -x else x
  }

  const ID_LENGTH := 12

  function Slice(s: string, n: nat): string {
    if |s| <= n then s else s[..n]
  }

  /** `plan_` and the first twelve characters of the printed hash. */
  function PlanId(value: seq<CodePoint>): string {
    "plan_" + Slice(ToBase36(Abs(Signed(Djb(value)))), ID_LENGTH)
  }

  /** The printed hash has at most six characters, so the slice cuts nothing off. */
  lemma SliceIsLossless(value: seq<CodePoint>)
    ensures Abs(Signed(Djb(value))) <= TWO_31
    ensures |ToBase36(Abs(Signed(Djb(value))))| <= 6
    ensures PlanId(value) == "plan_" + ToBase36(Abs(Signed(Djb(value))))
  {
    assert Pow36(6) == 2176782336 by {
      assert Pow36(3) == 46656;
    }
    Base36Length(Abs(Signed(Djb(value))), 6);
  }

  /** Two inputs get the same plan id exactly when their hashes agree up to sign. */
  lemma PlanIdsCollideExactly(a: seq<CodePoint>, b: seq<CodePoint>)
    ensures PlanId(a) == PlanId(b) <==> Djb(a) == Djb(b) || Djb(a) + Djb(b) == TWO_32
  {
    SliceIsLossless(a);
    SliceIsLossless(b);
    var x, y := ToBase36(Abs(Signed(Djb(a)))), ToBase36(Abs(Signed(Djb(b))));
    if PlanId(a) == PlanId(b) {
      assert PlanId(a)[5..] == x && PlanId(b)[5..] == y;
      Base36RoundTrip(Abs(Signed(Djb(a))));
      Base36RoundTrip(Abs(Signed(Djb(b))));
    }
  }

  /** Inputs that differ at most in the last character hash alike exactly when its first UTF-16 code unit agrees. */
  lemma LastCharacterMatters(prefix: seq<CodePoint>, c: CodePoint, d: CodePoint)
    ensures Djb(prefix + [c]) == Djb(prefix + [d]) <==> CharCode(c) == CharCode(d)
  {
    assert (prefix + [c])[..|prefix|] == prefix && (prefix + [d])[..|prefix|] == prefix;
    var u := ToUint32(33 * Djb(prefix));
    if Xor(u, CharCode(c)) == Xor(u, CharCode(d)) {
      XorCommutes(u, CharCode(c));
      XorCommutes(u, CharCode(d));
      XorInverse(CharCode(c), u);
      XorInverse(CharCode(d), u);
    }
  }

  lemma {:induction false} XorCommutes(a: nat, b: nat)
    ensures Xor(a, b) == Xor(b, a)
    decreases a + b
  {
    if a > 0 || b > 0 {
      XorCommutes(a / 2, b / 2);
    }
  }

  // ---------------------------------------------------------------- known values

  function Bit(n: nat, k: nat): nat {
    if k == 0 then n % 2 else Bit(n / 2, k - 1)
  }

  /** Bit by bit, exclusive or is 1 exactly where the bits differ. */
  lemma {:induction false} XorBits(a: nat, b: nat, k: nat)
    ensures Bit(Xor(a, b), k) == if Bit(a, k) == Bit(b, k) then 0 else 1
    decreases k
  {
    XorHalves(a, b);
    if k > 0 {
      XorBits(a / 2, b / 2, k - 1);
    }
  }

  lemma XorHalves(a: nat, b: nat)
    ensures Xor(a, b) / 2 == Xor(a / 2, b / 2)
    ensures Xor(a, b) % 2 == if a % 2 == b % 2 then 0 else 1
  {
    if a == 0 && b == 0 {
      assert Xor(0, 0) == 0;
    }
  }

  /** The hash of nothing is 5381; of one character, 33 times that mixed with its code unit. */
  lemma HashStarts(c: CodePoint)
    ensures Djb([]) == 5381
    ensures Djb([c]) == Xor(177573, CharCode(c)) && Xor(Djb([c]), CharCode(c)) == 177573
  {
    assert [c][..0] == [];
    assert Djb([]) == 5381;
    XorInverse(177573, CharCode(c));
  }

  /** One more character: multiply by 33, wrap at 2^32, mix the code unit in; mixing it again gives the product back. */
  lemma HashGoesOn(value: seq<CodePoint>, c: CodePoint)
    ensures Xor(Djb(value + [c]), CharCode(c)) == (33 * Djb(value)) % 0x1_0000_0000
  {
    assert (value + [c])[..|value|] == value;
    XorInverse(ToUint32(33 * Djb(value)), CharCode(c));
  }

  /** A code point beyond the first plane is read as its high surrogate, which with the low one gives it back. */
  lemma HighSurrogate(c: CodePoint)
    ensures c < 0x10000 ==> CharCode(c) == c
    ensures c >= 0x10000 ==> 0xD800 <= CharCode(c) < 0xDC00
    ensures c >= 0x10000 ==> 0x10000 + (CharCode(c) - 0xD800) * 0x400 + (c - 0x10000) % 0x400 == c
  {
  }

  /** Printing uses the digits and then the lower-case letters, and `plan_` leads. */
  lemma PrintedDigits(d: nat)
    requires d < 36
    ensures ToBase36(d) == [if d < 10 then ('0' as int + d) as char else ('a' as int + (d - 10)) as char]
    ensures ToBase36(36 + d) == "1" + ToBase36(d)
  {
    assert ToBase36(1) == ['1'];
    assert (36 + d) / 36 == 1 && (36 + d) % 36 == d;
  }
}
