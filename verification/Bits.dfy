/** Bit strings, least significant bit first, and the unsigned machine words that carry them.

    The drivers keep bits in unsigned words and move them with `|`, `<<`, `>>` and `&`.  A word is a
    natural number here and its bits are a `seq<bool>`; the operators are defined digit by digit. */
module Bits {

  type octet = x: int | 0 <= x < 256

  const U32: nat := 0x1_0000_0000

  function Bit(b: bool): nat { if b then 1 else 0 }

  /** The number whose binary digits, lowest first, are `s`. */
  function Val(s: seq<bool>): nat {
    if |s| == 0 then 0 else Bit(s[0]) + 2 * Val(s[1..])
  }

  /** The lowest `n` binary digits of `x`. */
  function Digits(x: nat, n: nat): (s: seq<bool>)
    ensures |s| == n
  {
    if n == 0 then [] else [x % 2 == 1] + Digits(x / 2, n - 1)
  }

  function Pow2(n: nat): (p: nat)
    ensures p >= 1
  {
    if n == 0 then 1 else 2 * Pow2(n - 1)
  }

  /** The C expression `x << n`, before it is cut to the width of the word. */
  function Shl(x: nat, n: nat): nat {
    if n == 0 then x else 2 * Shl(x, n - 1)
  }

  /** The C expression `x >> n`. */
  function Shr(x: nat, n: nat): nat {
    if n == 0 then x else Shr(x / 2, n - 1)
  }

  /** The C expression `x | y`. */
  function Or(x: nat, y: nat): nat
    decreases x + y
  {
    if x == 0 then y
    else if y == 0 then x
    else Bit(x % 2 == 1 || y % 2 == 1) + 2 * Or(x / 2, y / 2)
  }

  /** The C expression `x ^ y`. */
  function Xor(x: nat, y: nat): nat
    decreases x + y
  {
    if x == 0 then y
    else if y == 0 then x
    else Bit((x % 2 == 1) != (y % 2 == 1)) + 2 * Xor(x / 2, y / 2)
  }

  /** Bit `b` of a word is set. */
  predicate HasBit(x: nat, b: nat) { Shr(x, b) % 2 == 1 }

  function XorBits(x: seq<bool>, y: seq<bool>): (z: seq<bool>)
    requires |x| == |y|
    ensures |z| == |x| && forall i :: 0 <= i < |x| ==> z[i] == (x[i] != y[i])
  {
    seq(|x|, i requires 0 <= i < |x| => x[i] != y[i])
  }

  function Repeat(b: bool, n: nat): (s: seq<bool>)
    ensures |s| == n
    ensures forall i :: 0 <= i < n ==> s[i] == b
  {
    if n == 0 then [] else [b] + Repeat(b, n - 1)
  }

  function Reverse(s: seq<bool>): (r: seq<bool>)
    ensures |r| == |s|
  {
    if |s| == 0 then [] else Reverse(s[1..]) + [s[0]]
  }

  function OctetBits(b: octet): (s: seq<bool>)
    ensures |s| == 8
  {
    Digits(b, 8)
  }

  /** The bits of a string of octets in the order they travel. */
  function Spread(data: seq<octet>): (s: seq<bool>)
    ensures |s| == 8 * |data|
  {
    if |data| == 0 then [] else OctetBits(data[0]) + Spread(data[1..])
  }

  // ---- words against their bits ----

  lemma {:induction false} ValBound(s: seq<bool>)
    ensures Val(s) < Pow2(|s|)
  {
    if |s| > 0 { ValBound(s[1..]); }
  }

  /** Reading a word four bits at a time. */
  lemma ValNibble(s: seq<bool>)
    requires |s| >= 4
    ensures Val(s) == Bit(s[0]) + 2 * Bit(s[1]) + 4 * Bit(s[2]) + 8 * Bit(s[3]) + 16 * Val(s[4..])
  {
    assert s[1..][1..] == s[2..] && s[2..][1..] == s[3..] && s[3..][1..] == s[4..];
    assert Val(s[1..]) == Bit(s[1]) + 2 * Val(s[2..]);
    assert Val(s[2..]) == Bit(s[2]) + 2 * Val(s[3..]);
    assert Val(s[3..]) == Bit(s[3]) + 2 * Val(s[4..]);
  }

  lemma {:induction false} DigitsOfVal(s: seq<bool>)
    ensures Digits(Val(s), |s|) == s
  {
    if |s| > 0 {
      DigitsOfVal(s[1..]);
      assert Val(s) / 2 == Val(s[1..]);
    }
  }

  lemma {:induction false} ValOfDigits(x: nat, n: nat)
    requires x < Pow2(n)
    ensures Val(Digits(x, n)) == x
  {
    if n > 0 {
      ValOfDigits(x / 2, n - 1);
      assert Digits(x, n)[1..] == Digits(x / 2, n - 1);
    }
  }

  /** A word determines its bits. */
  lemma ValInjective(s: seq<bool>, t: seq<bool>)
    requires |s| == |t| && Val(s) == Val(t)
    ensures s == t
  {
    DigitsOfVal(s);
    DigitsOfVal(t);
  }

  lemma {:induction false} OctetVal(s: seq<bool>)
    requires |s| == 8
    ensures Val(s) < 256 && OctetBits(Val(s)) == s
  {
    ValBound(s);
    assert Pow2(8) == 256 by { assert Pow2(4) == 16; }
    DigitsOfVal(s);
  }

  lemma {:induction false} ValOctet(b: octet)
    ensures Val(OctetBits(b)) == b
  {
    assert Pow2(8) == 256 by { assert Pow2(4) == 16; }
    ValOfDigits(b, 8);
  }

  lemma {:induction false} ShlAdd(x: nat, y: nat, n: nat)
    ensures Shl(x + y, n) == Shl(x, n) + Shl(y, n)
  {
    if n > 0 { ShlAdd(x, y, n - 1); }
  }

  lemma ShlOctet(x: nat)
    ensures Shl(x, 8) == 0x100 * x
  {
    assert Shl(x, 1) == 2 * x;
    assert Shl(x, 2) == 4 * x;
    assert Shl(x, 4) == 4 * Shl(x, 2);
    assert Shl(x, 6) == 4 * Shl(x, 4);
  }

  lemma {:induction false} ShlDouble(x: nat, n: nat)
    ensures Shl(2 * x, n) == Shl(x, n + 1)
  {
    if n > 0 { ShlDouble(x, n - 1); }
  }

  lemma {:induction false} ValAppend(s: seq<bool>, t: seq<bool>)
    ensures Val(s + t) == Val(s) + Shl(Val(t), |s|)
  {
    if |s| == 0 {
      assert s + t == t;
    } else {
      ValAppend(s[1..], t);
      assert (s + t)[1..] == s[1..] + t;
    }
  }

  /** Or-ing a field in above the bits already held loses nothing: it is concatenation. */
  lemma {:induction false} OrAppend(s: seq<bool>, y: nat)
    ensures Or(Val(s), Shl(y, |s|)) == Val(s) + Shl(y, |s|)
  {
    if |s| > 0 {
      OrAppend(s[1..], y);
      assert Val(s) / 2 == Val(s[1..]);
      assert Shl(y, |s|) / 2 == Shl(y, |s| - 1) && Shl(y, |s|) % 2 == 0;
      if Val(s) != 0 && Shl(y, |s|) != 0 {
        assert Val(s) % 2 == Bit(s[0]);
      }
    }
  }

  lemma {:induction false} XorOfVal(s: seq<bool>, t: seq<bool>)
    requires |s| == |t|
    ensures Xor(Val(s), Val(t)) == Val(XorBits(s, t))
  {
    if |s| > 0 {
      XorOfVal(s[1..], t[1..]);
      assert XorBits(s, t)[1..] == XorBits(s[1..], t[1..]);
      assert Val(s) / 2 == Val(s[1..]) && Val(t) / 2 == Val(t[1..]);
      if Val(s) != 0 && Val(t) != 0 {
        assert Val(s) % 2 == Bit(s[0]) && Val(t) % 2 == Bit(t[0]);
      } else if Val(s) == 0 {
        XorWithZero(s, t);
      } else {
        XorWithZero(t, s);
      }
    }
  }

  lemma {:induction false} XorWithZero(s: seq<bool>, t: seq<bool>)
    requires |s| == |t| && Val(s) == 0
    ensures XorBits(s, t) == t && XorBits(t, s) == t
  {
    if |s| > 0 {
      XorWithZero(s[1..], t[1..]);
      assert XorBits(s, t) == [t[0]] + XorBits(s[1..], t[1..]);
      assert XorBits(t, s) == [t[0]] + XorBits(t[1..], s[1..]);
    }
  }

  lemma {:induction false} ValZeros(s: seq<bool>, n: nat)
    ensures Val(s + Repeat(false, n)) == Val(s)
  {
    if |s| > 0 {
      ValZeros(s[1..], n);
      assert (s + Repeat(false, n))[1..] == s[1..] + Repeat(false, n);
    } else if n > 0 {
      ValZeros([], n - 1);
      assert s + Repeat(false, n) == Repeat(false, n);
      assert [] + Repeat(false, n - 1) == Repeat(false, n - 1);
    }
  }

  lemma {:induction false} Pow2Monotone(m: nat, n: nat)
    requires m <= n
    ensures Pow2(m) <= Pow2(n)
    decreases n - m
  {
    if m < n { Pow2Monotone(m + 1, n); }
  }

  lemma Pow2Of32()
    ensures Pow2(32) == U32
  {
    assert Pow2(8) == 256 by { assert Pow2(4) == 16; }
    assert Pow2(12) == 4096;
    assert Pow2(16) == 65536;
    assert Pow2(20) == 0x10_0000;
    assert Pow2(24) == 0x100_0000;
    assert Pow2(28) == 0x1000_0000;
  }

  /** Shifting a field into a 32-bit register above the bits it holds: if the bits fit, the word is
      exactly the concatenation, and cutting to 32 bits changes nothing. */
  lemma {:induction false} RegisterAppend(s: seq<bool>, t: seq<bool>)
    requires |s| + |t| <= 32
    ensures Or(Val(s), Shl(Val(t), |s|) % U32) == Val(s + t) < U32
  {
    OrAppend(s, Val(t));
    ValAppend(s, t);
    assert Val(s + t) < U32 by {
      ValBound(s + t);
      Pow2Monotone(|s + t|, 32);
      Pow2Of32();
    }
    SmallMod(Shl(Val(t), |s|), U32);
  }

  lemma SmallMod(x: nat, m: nat)
    requires x < m
    ensures x % m == x
  {
  }

  /** Taking `n` bits off the low end of a register. */
  lemma {:induction false} RegisterTake(s: seq<bool>, n: nat)
    requires n <= |s|
    ensures Val(s) % Pow2(n) == Val(s[..n])
    ensures Val(s) / Pow2(n) == Val(s[n..])
  {
    if n == 0 {
      assert s[0..] == s;
    } else {
      RegisterTake(s[1..], n - 1);
      assert s[1..][..n - 1] == s[..n][1..];
      assert s[1..][n - 1..] == s[n..];
      var p, v := Pow2(n - 1), Val(s[1..]);
      DivModStep(Bit(s[0]), v, p);
    }
  }

  lemma {:induction false} DivModStep(b: nat, v: nat, p: nat)
    requires b < 2 && p > 0
    ensures (b + 2 * v) / (2 * p) == v / p
    ensures (b + 2 * v) % (2 * p) == b + 2 * (v % p)
  {
    var q, r := v / p, v % p;
    assert v == q * p + r;
    assert b + 2 * v == q * (2 * p) + (b + 2 * r);
    DivModUnique(b + 2 * v, 2 * p, q, b + 2 * r);
  }

  lemma {:induction false} DivModUnique(x: nat, d: nat, q: nat, r: nat)
    requires r < d && x == q * d + r
    ensures x / d == q && x % d == r
  {
    var k := q - x / d;
    MulDistributes(k, x / d, d);
    assert k * d == x % d - r;
    if k >= 1 { MulAtLeast(k, d); }
    if k <= -1 { MulAtLeast(-k, d); }
  }

  lemma MulDistributes(k: int, m: int, d: int)
    ensures (k + m) * d == k * d + m * d
  {
  }

  lemma MulAtLeast(k: int, d: int)
    requires k >= 1 && d >= 0
    ensures k * d >= d
    ensures (-k) * d <= -d
  {
    assert k * d == (k - 1) * d + d;
  }

  // ---- strings of octets ----

  lemma SpreadStep(s: seq<octet>)
    requires |s| > 0
    ensures Spread(s) == OctetBits(s[0]) + Spread(s[1..])
  {
  }

  lemma {:induction false} SpreadAppend(a: seq<octet>, b: seq<octet>)
    ensures Spread(a + b) == Spread(a) + Spread(b)
  {
    hide OctetBits;
    if |a| == 0 {
      assert a + b == b;
    } else {
      SpreadStep(a);
      SpreadStep(a + b);
      hide Spread;
      SpreadAppend(a[1..], b);
      assert (a + b)[1..] == a[1..] + b && (a + b)[0] == a[0];
    }
  }

  lemma SpreadOne(b: octet)
    ensures Spread([b]) == OctetBits(b)
  {
    assert Spread([b]) == OctetBits(b) + Spread([]);
  }

  lemma {:induction false} SpreadInjective(a: seq<octet>, b: seq<octet>)
    requires Spread(a) == Spread(b)
    ensures a == b
  {
    if |a| > 0 {
      var s, t := Spread(a), Spread(b);
      assert s[..8] == OctetBits(a[0]) && t[..8] == OctetBits(b[0]);
      assert s[8..] == Spread(a[1..]) && t[8..] == Spread(b[1..]);
      ValOctet(a[0]);
      ValOctet(b[0]);
      SpreadInjective(a[1..], b[1..]);
    }
  }

  lemma {:induction false} ReverseAppend(s: seq<bool>, t: seq<bool>)
    ensures Reverse(s + t) == Reverse(t) + Reverse(s)
  {
    if |s| == 0 {
      assert s + t == t;
    } else {
      ReverseAppend(s[1..], t);
      assert (s + t)[1..] == s[1..] + t;
    }
  }

  lemma {:induction false} ReverseTwice(s: seq<bool>)
    ensures Reverse(Reverse(s)) == s
  {
    if |s| > 0 {
      ReverseTwice(s[1..]);
      ReverseAppend(Reverse(s[1..]), [s[0]]);
    }
  }

  lemma {:induction false} RepeatAppend(b: bool, m: nat, n: nat)
    ensures Repeat(b, m) + Repeat(b, n) == Repeat(b, m + n)
  {
    if m > 0 { RepeatAppend(b, m - 1, n); }
  }

  lemma {:induction false} DigitsAt(x: nat, n: nat, i: nat)
    requires i < n
    ensures Digits(x, n)[i] <==> HasBit(x, i)
    decreases n
  {
    if i > 0 { DigitsAt(x / 2, n - 1, i - 1); }
  }

  lemma {:induction false} ReverseAt(s: seq<bool>, i: nat)
    requires i < |s|
    ensures Reverse(s)[i] == s[|s| - 1 - i]
  {
    if i < |s| - 1 { ReverseAt(s[1..], i); }
  }
}
