/**
 IPv4 blocks in prefix notation (section 3.1 of RFC 4632), and when two of them share an address.
 */
module Cidrs {

  function Pow2(n: nat): (p: int)
    ensures p >= 1
  {
    if n == 0 then 1 else 2 * Pow2(n - 1)
  }

  // A block: its first address and the length of its prefix.
  datatype Cidr = Cidr(base: int, bits: nat)

  function Size(bits: nat): (s: int)
    requires bits <= 32
    ensures s >= 1
  {
    Pow2(32 - bits)
  }

  // The address with all bits after the prefix cleared.
  function Masked(address: int, bits: nat): int
    requires bits <= 32
  {
    address - address % Size(bits)
  }

  predicate Valid(c: Cidr) {
    c.bits <= 32 && 0 <= c.base && c.base + Size(c.bits) <= Pow2(32) && c.base % Size(c.bits) == 0
  }

  predicate Contains(c: Cidr, address: int)
    requires c.bits <= 32
  {
    c.base <= address < c.base + Size(c.bits)
  }

  ghost predicate Shares(c: Cidr, c': Cidr)
    requires c.bits <= 32 && c'.bits <= 32
  {
    exists a :: Contains(c, a) && Contains(c', a)
  }

  // The first address of an existing block is trimmed to the prefix length allocated now; the block keeps
  // its own length.
  function Trimmed(c: Cidr, bits: nat): Cidr
    requires bits <= 32
  {
    c.(base := Masked(c.base, bits))
  }

  // Reading a block back masks its address once more.
  function Reparsed(c: Cidr): Cidr
    requires c.bits <= 32
  {
    c.(base := Masked(c.base, c.bits))
  }

  predicate IsOverlapping(c: Cidr, c': Cidr)
    requires c.bits <= 32 && c'.bits <= 32
  {
    var n, n' := Reparsed(c), Reparsed(c');
    Contains(n, n'.base) || Contains(n', n.base)
  }

  /* Arithmetic of aligned blocks */

  lemma {:induction false} Pow2Sum(m: nat, n: nat)
    ensures Pow2(m + n) == Pow2(m) * Pow2(n)
  {
    if m > 0 {
      Pow2Sum(m - 1, n);
      assert Pow2(m + n) == 2 * Pow2(m - 1 + n);
      assert Pow2(m) * Pow2(n) == 2 * (Pow2(m - 1) * Pow2(n));
    }
  }

  // A longer prefix divides a shorter one.
  lemma SizeDivides(bits: nat, longer: nat)
    requires bits <= longer <= 32
    ensures Size(bits) == Size(longer) * Pow2(longer - bits)
  {
    Pow2Sum(32 - longer, longer - bits);
  }

  lemma MultipleOf(a: int, k: int, s: int)
    requires s >= 1 && a == s * k
    ensures a % s == 0
  {
    DivMod(a, s, k, 0);
  }

  lemma LessCancels(s: int, x: int, y: int)
    requires s >= 1 && s * x < s * y
    ensures x < y
  {
    assert s * (y - x) > 0;
  }

  lemma DivMod(a: int, s: int, q: int, r: int)
    requires s >= 1 && a == s * q + r && 0 <= r < s
    ensures a / s == q && a % s == r
  {
    assert a == s * (a / s) + a % s;
    assert s * (a / s + 1) == s * (a / s) + s && s * (q + 1) == s * q + s;
    LessCancels(s, q, a / s + 1);
    LessCancels(s, a / s, q + 1);
  }

  lemma Quotient(a: int, s: int) returns (k: int)
    requires s >= 1 && a % s == 0
    ensures a == s * k
  {
    k := a / s;
  }

  // The only multiple of s within s below an address is the address with the remainder cleared.
  lemma ClearedIs(a: int, s: int, n: int)
    requires s >= 1 && n % s == 0 && n <= a < n + s
    ensures a - a % s == n
  {
    var k := Quotient(n, s);
    DivMod(a, s, k, a - n);
  }

  lemma ClearedBelow(a: int, s: int)
    requires s >= 1
    ensures (a - a % s) % s == 0 && a - a % s <= a < a - a % s + s
  {
    assert a - a % s == s * (a / s);
    MultipleOf(a - a % s, a / s, s);
  }

  // A multiple of a coarse size is a multiple of the finer one.
  lemma FinerMultiple(a: int, coarse: int, fine: int, k: int)
    requires coarse >= 1 && fine >= 1 && coarse == fine * k && a % coarse == 0
    ensures a % fine == 0
  {
    var q := Quotient(a, coarse);
    assert a == fine * (k * q) by {
      assert coarse * q == fine * (k * q);
    }
    MultipleOf(a, k * q, fine);
  }

  // An aligned block of a finer size lies within one block of the coarse size.
  lemma FinerWithin(b: int, coarse: int, fine: int, k: int)
    requires coarse >= 1 && fine >= 1 && k >= 1 && coarse == fine * k && b % fine == 0
    ensures b - b % coarse <= b && b + fine <= b - b % coarse + coarse
    ensures (b - b % coarse) % fine == 0
  {
    var n := b - b % coarse;
    ClearedBelow(b, coarse);
    FinerMultiple(n, coarse, fine, k);
    var x := Quotient(n, fine);
    assert n + coarse == fine * (x + k);
    MultipleOf(n + coarse, x + k, fine);
    NextMultiple(b, n + coarse, fine);
  }

  lemma NextMultiple(b: int, m: int, s: int)
    requires s >= 1 && b % s == 0 && m % s == 0 && b < m
    ensures b + s <= m
  {
    var x := Quotient(b, s);
    var y := Quotient(m, s);
    StepUp(s, x, y);
  }

  lemma StepUp(s: int, x: int, y: int)
    requires s >= 1 && s * x < s * y
    ensures s * x + s <= s * y
  {
    LessCancels(s, x, y);
    var d := y - x - 1;
    assert s * d >= 0;
    assert s * y == s * x + s + s * d;
  }

  /* The overlap test is exact */

  // An existing block at least as large as the new one: it holds the new one's first address if they share any.
  lemma LargerShares(c: Cidr, n: Cidr, a: int)
    requires Valid(c) && n.bits <= 32 && n.base % Size(n.bits) == 0 && c.bits <= n.bits
    requires Contains(c, a) && Contains(n, a)
    ensures Contains(c, n.base) && Trimmed(c, n.bits) == c
  {
    var s := Size(n.bits);
    SizeDivides(c.bits, n.bits);
    FinerMultiple(c.base, Size(c.bits), s, Pow2(n.bits - c.bits));
    ClearedIs(a, s, n.base);
    FinerBelow(c.base, a, s);
    ClearedIs(c.base, s, c.base);
  }

  // A multiple of s that is at most a is at most a with the remainder cleared.
  lemma FinerBelow(b: int, a: int, s: int)
    requires s >= 1 && b % s == 0 && b <= a
    ensures b <= a - a % s
  {
    ClearedBelow(a, s);
    var n := a - a % s;
    var x := Quotient(b, s);
    var y := Quotient(n, s);
    assert s * (y + 1) == n + s;
    LessCancels(s, x, y + 1);
  }

  // A smaller existing block shares an address with the new one exactly if its trimmed base is the new base.
  lemma SmallerShares(c: Cidr, n: Cidr)
    requires Valid(c) && n.bits <= 32 && n.base % Size(n.bits) == 0 && c.bits > n.bits
    ensures Shares(c, n) <==> Masked(c.base, n.bits) == n.base
    ensures Masked(c.base, n.bits) % Size(c.bits) == 0 && Size(c.bits) <= Size(n.bits)
  {
    var coarse, fine := Size(n.bits), Size(c.bits);
    SizeDivides(n.bits, c.bits);
    FinerWithin(c.base, coarse, fine, Pow2(c.bits - n.bits));
    ClearedBelow(c.base, coarse);
    if Shares(c, n) {
      var a :| Contains(c, a) && Contains(n, a);
      ClearedIs(a, coarse, n.base);
      ClearedIs(a, coarse, Masked(c.base, n.bits));
    }
    if Masked(c.base, n.bits) == n.base {
      assert Contains(c, c.base) && Contains(n, c.base);
    }
  }

  // Multiples of s closer than s are equal.
  lemma CloseMultiples(a: int, b: int, s: int)
    requires s >= 1 && a % s == 0 && b % s == 0 && a <= b < a + s
    ensures a == b
  {
    ClearedIs(b, s, a);
  }

  // Although existing bases are trimmed and only bases are looked up, the test tells exactly whether the
  // existing block and the new one share an address.
  lemma OverlapIsSharing(c: Cidr, n: Cidr)
    requires Valid(c) && n.bits <= 32 && n.base % Size(n.bits) == 0
    ensures IsOverlapping(Trimmed(c, n.bits), n) <==> Shares(c, n)
  {
    var s := Size(n.bits);
    ClearedIs(n.base, s, n.base);
    assert Reparsed(n) == n;
    if c.bits <= n.bits {
      SizeDivides(c.bits, n.bits);
      FinerMultiple(c.base, Size(c.bits), s, Pow2(n.bits - c.bits));
      ClearedIs(c.base, s, c.base);
      ClearedIs(c.base, Size(c.bits), c.base);
      assert Reparsed(Trimmed(c, n.bits)) == c;
      if Shares(c, n) {
        var a :| Contains(c, a) && Contains(n, a);
        LargerShares(c, n, a);
      }
      if Contains(c, n.base) {
        assert Contains(n, n.base);
      }
      if Contains(n, c.base) {
        assert Contains(c, c.base);
      }
    } else {
      SmallerShares(c, n);
      var t := Trimmed(c, n.bits);
      ClearedIs(t.base, Size(c.bits), t.base);
      assert Reparsed(t) == t;
      ClearedBelow(c.base, s);
      if Contains(t, n.base) {
        CloseMultiples(t.base, n.base, s);
      }
      if Contains(n, t.base) {
        CloseMultiples(n.base, t.base, s);
      }
    }
  }
}
