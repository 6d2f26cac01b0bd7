/** Bytes, big-endian numbers, powers of two and the bitwise operators the
    codec applies to single bytes. */
module Bytes {
  type Byte = b: int | 0 <= b < 256

  function Pow2(n: nat): (r: nat)
    ensures r >= 1
  {
    if n == 0 then 1 else 2 * Pow2(n - 1)
  }

  function Pow256(n: nat): (r: nat)
    ensures r >= 1
  {
    if n == 0 then 1 else 256 * Pow256(n - 1)
  }

  /** `x << k`, without truncation. */
  function Shl(x: nat, k: nat): nat {
    if k == 0 then x else 2 * Shl(x, k - 1)
  }

  /** `x >> k`. */
  function Shr(x: nat, k: nat): (r: nat)
    ensures r <= x
  {
    if k == 0 then x else Shr(x / 2, k - 1)
  }

  /** The low `size` bytes of `x`, most significant first: Go's `byte(x>>8*i)` series. */
  function BigEndian(x: nat, size: nat): (r: seq<Byte>)
    ensures |r| == size
  {
    if size == 0 then [] else BigEndian(x / 256, size - 1) + [x % 256]
  }

  function FromBigEndian(b: seq<Byte>): nat {
    if b == [] then 0 else FromBigEndian(b[..|b| - 1]) * 256 + b[|b| - 1]
  }

  lemma FromBigEndianSnoc(b: seq<Byte>, last: Byte)
    ensures FromBigEndian(b + [last]) == FromBigEndian(b) * 256 + last
  {
    assert (b + [last])[..|b|] == b;
  }

  lemma TopFits(x: nat, size: nat)
    requires x < Pow256(size)
    ensures if size == 0 then x == 0 else x / 256 < Pow256(size - 1)
  {}

  lemma {:induction false} BigEndianRoundTrip(x: nat, size: nat)
    requires x < Pow256(size)
    ensures FromBigEndian(BigEndian(x, size)) == x
  {
    hide Pow256;
    TopFits(x, size);
    if size == 0 {
    } else {
      BigEndianRoundTrip(x / 256, size - 1);
      FromBigEndianSnoc(BigEndian(x / 256, size - 1), x % 256);
    }
  }

  /** Digit `k` from the left, in base 256. */
  lemma {:induction false} BigEndianDigits(x: nat, size: nat, k: nat)
    requires k < size
    ensures BigEndian(x, size)[k] == x / Pow256(size - 1 - k) % 256
  {
    hide Pow256;
    if k == size - 1 {
      OneUnit(x);
    } else {
      BigEndianDigits(x / 256, size - 1, k);
      QuotientTwice(x, size - 2 - k);
    }
  }

  lemma OneUnit(x: nat)
    ensures x / Pow256(0) == x
  {}

  lemma QuotientTwice(x: nat, n: nat)
    ensures x / 256 / Pow256(n) == x / Pow256(n + 1)
  {
    DivDiv(x, 256, Pow256(n));
  }

  lemma DivDiv(x: nat, a: nat, b: nat)
    requires a > 0 && b > 0
    ensures a * b > 0 && x / a / b == x / (a * b)
  {
    var q := x / a / b;
    assert x / a == b * q + x / a % b;
    assert x == a * (x / a) + x % a;
    assert x == (a * b) * q + (a * (x / a % b) + x % a) by {
      assert a * (b * q + x / a % b) == (a * b) * q + a * (x / a % b);
    }
    Below(a, b, x / a % b, x % a);
    UniqueQuotient(x, a * b, q, a * (x / a % b) + x % a);
  }

  lemma Below(a: nat, b: nat, r: nat, s: nat)
    requires r < b && s < a
    ensures a * r + s < a * b
  {
    assert a * (r + 1) <= a * b;
  }

  lemma UniqueQuotient(x: nat, d: nat, q: nat, r: nat)
    requires d > 0 && r < d && x == d * q + r
    ensures x / d == q
  {
    SameQuotient(d, q, r, x / d, x % d);
  }

  lemma SameQuotient(d: nat, q: nat, r: nat, p: nat, s: nat)
    requires r < d && s < d && d * q + r == d * p + s
    ensures q == p
  {
    if q > p {
      Larger(d, q, p);
    } else if p > q {
      Larger(d, p, q);
    }
  }

  lemma {:induction false} Larger(d: nat, q: nat, p: nat)
    requires q > p
    ensures d * q >= d * p + d
  {
    if q > p + 1 {
      Larger(d, q - 1, p);
    }
    assert d * q == d * (q - 1) + d;
  }

  /** `binary.BigEndian.Uint16` of the two bytes at `at`. */
  function U16At(data: seq<Byte>, at: nat): (r: nat)
    requires at + 2 <= |data|
    ensures r < 0x1_0000
  {
    data[at] as nat * 256 + data[at + 1] as nat
  }

  /** `binary.BigEndian.Uint32` of the four bytes at `at`. */
  function U32At(data: seq<Byte>, at: nat): (r: nat)
    requires at + 4 <= |data|
    ensures r < 0x1_0000_0000
  {
    data[at] as nat * 0x100_0000 + data[at + 1] as nat * 0x1_0000 + data[at + 2] as nat * 0x100 + data[at + 3] as nat
  }

  lemma FourBytesRead(b: seq<Byte>)
    requires |b| == 4
    ensures FromBigEndian(b) == U32At(b, 0)
  {
    hide FromBigEndian;
    var one, two, three := [b[0]], [b[0], b[1]], [b[0], b[1], b[2]];
    FromBigEndianSnoc(three, b[3]);
    FromBigEndianSnoc(two, b[2]);
    FromBigEndianSnoc(one, b[1]);
    OneByteRead(b[0]);
    assert b == three + [b[3]] && three == two + [b[2]] && two == one + [b[1]];
  }

  lemma OneByteRead(b: Byte)
    ensures FromBigEndian([b]) == b
  {
    assert [b][..0] == [];
  }

  /** Truncation to an unsigned 16-bit integer. */
  function U16(x: nat): (r: nat)
    ensures r < 0x1_0000
  {
    x % 0x1_0000
  }

  lemma U16Absorbs(x: nat, y: nat)
    ensures U16(U16(x) + y) == U16(x + y)
    ensures U16(x + U16(y)) == U16(x + y)
  {}

  lemma U16Sums(a: nat, b: nat, c: nat, d: nat)
    requires U16(a) == U16(b) && U16(c) == U16(d)
    ensures U16(a + c) == U16(b + d)
  {
    U16Absorbs(a, c);
    U16Absorbs(b, c);
    U16Absorbs(b, d);
  }

  lemma BigEndian2(x: nat)
    ensures BigEndian(x, 2) == [x / 256 % 256, x % 256]
  {
    assert BigEndian(x / 256, 1) == BigEndian(x / 256 / 256, 0) + [x / 256 % 256];
  }

  /** `n` zero bytes. */
  function Zeros(n: nat): (r: seq<Byte>)
    ensures |r| == n
  {
    seq(n, _ => 0)
  }

  /** Bitwise or of two `n`-bit numbers. */
  function Or(a: nat, b: nat, n: nat): (r: nat)
    ensures r < Pow2(n)
  {
    if n == 0 then 0
    else (if a % 2 == 1 || b % 2 == 1 then 1 else 0) + 2 * Or(a / 2, b / 2, n - 1)
  }

  /** Bitwise and with the single-bit mask `2^k`. */
  function AndBit(x: nat, k: nat): nat {
    if Shr(x, k) % 2 == 1 then Pow2(k) else 0
  }

  lemma {:induction false} OrZero(b: nat, n: nat)
    requires b < Pow2(n)
    ensures Or(0, b, n) == b == Or(b, 0, n)
  {
    if n == 0 {
    } else {
      OrZero(b / 2, n - 1);
    }
  }

  /** Numbers that occupy disjoint bits are added by a bitwise or. */
  lemma {:induction false} OrDisjoint(v: nat, s: nat, y: nat, n: nat)
    requires s <= n && y < Pow2(s)
    requires Shl(v, s) < Pow2(n)
    ensures Or(Shl(v, s), y, n) == Shl(v, s) + y
  {
    if s == 0 {
      OrZero(v, n);
    } else {
      OrDisjoint(v, s - 1, y / 2, n - 1);
    }
  }

  lemma {:induction false} ShlFits(v: nat, w: nat, s: nat)
    requires v < Pow2(w)
    ensures Shl(v, s) + Pow2(s) <= Pow2(w + s)
  {
    if s == 0 {
    } else {
      ShlFits(v, w, s - 1);
    }
  }

  lemma {:induction false} Pow2Grows(a: nat, b: nat)
    requires a <= b
    ensures Pow2(a) <= Pow2(b)
  {
    if a == b {
    } else {
      Pow2Grows(a, b - 1);
    }
  }

  /** Shifting down drops exactly what was added below the shift. */
  lemma {:induction false} ShrOfShl(v: nat, s: nat, y: nat)
    requires y < Pow2(s)
    ensures Shr(Shl(v, s) + y, s) == v
  {
    if s == 0 {
    } else {
      assert (Shl(v, s) + y) / 2 == Shl(v, s - 1) + y / 2;
      ShrOfShl(v, s - 1, y / 2);
    }
  }

  /** Bit `t` of a number is not changed by adding a multiple of a higher power. */
  lemma {:induction false} LowBitUnchanged(v: nat, s: nat, t: nat, y: nat)
    requires t < s
    ensures Shr(Shl(v, s) + y, t) % 2 == Shr(y, t) % 2
  {
    if t == 0 {
    } else {
      assert (Shl(v, s) + y) / 2 == Shl(v, s - 1) + y / 2;
      LowBitUnchanged(v, s - 1, t - 1, y / 2);
    }
  }
}
