/**
  Machine words and power-of-two masks.

  Every ring in the proactor turns a free-running 32- or 64-bit counter into a slot
  number with `counter & (capacity - 1)`.  This module defines the bitwise operation
  on naturals and proves that, for the capacities the constructors accept, masking is
  remainder and commutes with the wrap-around of the counter.
 */
module Bits {

  const U32: nat := 0x1_0000_0000
  const U64: nat := 0x1_0000_0000_0000_0000
  /** One more than the largest `int`. */
  const I32_LIMIT: nat := 0x8000_0000

  function Pow2(k: nat): (r: nat)
    ensures r > 0
  {
    if k == 0 then 1 else 2 * Pow2(k - 1)
  }

  ghost predicate IsPow2(n: nat) {
    exists k: nat :: Pow2(k) == n
  }

  /** Bitwise conjunction. */
  function And(x: nat, y: nat): nat
  {
    if x == 0 || y == 0 then 0
    else 2 * And(x / 2, y / 2) + (if x % 2 == 1 && y % 2 == 1 then 1 else 0)
  }

  lemma {:induction false} AndSelf(x: nat)
    ensures And(x, x) == x
  {
    if x != 0 {
      AndSelf(x / 2);
    }
  }

  /** The constructors' test `n > 0 && (n & (n - 1)) == 0` accepts exactly the powers of two. */
  lemma {:induction false} PowerOfTwoTest(n: nat)
    requires n > 0
    ensures And(n, n - 1) == 0 <==> IsPow2(n)
  {
    if n == 1 {
      assert Pow2(0) == 1;
    } else if n % 2 == 1 {
      AndSelf(n / 2);
      assert (n - 1) / 2 == n / 2;
      forall k: nat ensures Pow2(k) != n {
        if k > 0 {
          assert Pow2(k) == 2 * Pow2(k - 1);
        }
      }
    } else {
      var m := n / 2;
      assert (n - 1) / 2 == m - 1;
      PowerOfTwoTest(m);
      if IsPow2(n) {
        var k: nat :| Pow2(k) == n;
        assert k > 0 && Pow2(k - 1) == m;
      }
      if IsPow2(m) {
        var k: nat :| Pow2(k) == m;
        assert Pow2(k + 1) == n;
      }
    }
  }

  lemma ModUnique(x: int, q: int, r: int, c: int)
    requires c > 0 && 0 <= r < c && x == q * c + r
    ensures x % c == r
  {
    var q', r' := x / c, x % c;
    assert x == q' * c + r';
    assert (q' - q) * c == r - r';
    assert (q - q') * c == r' - r;
    if q' > q {
      MulAtLeast(q' - q, c);
    } else if q' < q {
      MulAtLeast(q - q', c);
    }
  }

  lemma MulAtLeast(k: int, c: int)
    requires k >= 1 && c > 0
    ensures k * c >= c
  {
    assert k * c == (k - 1) * c + c;
    assert (k - 1) * c >= 0;
  }

  /** Adding a multiple of the modulus does not change the remainder. */
  lemma ModAddMultiple(x: int, k: int, c: int)
    requires c > 0
    ensures (x + k * c) % c == x % c
  {
    var q, r := x / c, x % c;
    assert x + k * c == (q + k) * c + r;
    ModUnique(x + k * c, q + k, r, c);
  }

  /** Masking with `2^k - 1` is the remainder modulo `2^k`. */
  lemma {:induction false} MaskIsMod(x: nat, k: nat)
    ensures And(x, Pow2(k) - 1) == x % Pow2(k)
  {
    if k == 0 || x == 0 {
      if k == 0 {
        assert x % 1 == 0;
      } else {
        ModUnique(0, 0, 0, Pow2(k));
      }
    } else {
      var c := Pow2(k - 1);
      assert (2 * c - 1) / 2 == c - 1 && (2 * c - 1) % 2 == 1;
      MaskIsMod(x / 2, k - 1);
      HalfMod(x, c);
    }
  }

  lemma HalfMod(x: nat, c: nat)
    requires c > 0
    ensures x % (2 * c) == 2 * ((x / 2) % c) + x % 2
  {
    var h, b := x / 2, x % 2;
    var q, r := h / c, h % c;
    assert h == q * c + r;
    assert 2 * (q * c) == q * (2 * c);
    ModUnique(x, q, 2 * r + b, 2 * c);
  }

  lemma {:induction false} Pow2Add(j: nat, k: nat)
    ensures Pow2(j + k) == Pow2(j) * Pow2(k)
  {
    if k > 0 {
      Pow2Add(j, k - 1);
      assert Pow2(j + k) == 2 * Pow2(j + (k - 1));
      assert Pow2(j) * (2 * Pow2(k - 1)) == 2 * (Pow2(j) * Pow2(k - 1));
    }
  }

  lemma {:induction false} Pow2Monotone(j: nat, k: nat)
    requires j < k
    ensures Pow2(j) < Pow2(k)
    decreases k
  {
    if j + 1 < k {
      Pow2Monotone(j, k - 1);
    }
  }

  /** A capacity that is a power of two divides the range of every counter at least as wide. */
  lemma CapacityDivides(cap: nat, words: nat)
    requires IsPow2(cap) && IsPow2(words) && cap <= words
    ensures words % cap == 0
  {
    var j: nat :| Pow2(j) == cap;
    var k: nat :| Pow2(k) == words;
    if k < j {
      Pow2Monotone(k, j);
    }
    Pow2Add(j, k - j);
    var m := Pow2(k - j);
    assert words == m * cap + 0;
    ModUnique(words, m, 0, cap);
  }

  lemma SquareIsPow2(n: nat)
    requires IsPow2(n)
    ensures IsPow2(n * n)
  {
    var k: nat :| Pow2(k) == n;
    Pow2Add(k, k);
  }

  lemma WordsArePow2()
    ensures IsPow2(U32) && IsPow2(U64)
  {
    assert Pow2(1) == 2;
    SquareIsPow2(2);
    SquareIsPow2(4);
    SquareIsPow2(0x10);
    SquareIsPow2(0x100);
    SquareIsPow2(0x1_0000);
    SquareIsPow2(U32);
  }

  /** `counter & (cap - 1)`, as every ring computes it. */
  function SlotOf(counter: nat, cap: nat): (slot: nat)
    requires IsPow2(cap)
    ensures cap > 0 && slot == counter % cap && slot < cap
  {
    MaskIsPow2Mod(counter, cap);
    And(counter, cap - 1)
  }

  lemma MaskIsPow2Mod(x: nat, cap: nat)
    requires IsPow2(cap)
    ensures cap > 0 && And(x, cap - 1) == x % cap
  {
    var k: nat :| Pow2(k) == cap;
    MaskIsMod(x, k);
  }

  // Unsigned arithmetic on counters below the word size `w`.

  function Inc(x: nat, w: nat): (r: nat)
    requires x < w
    ensures r < w
  {
    if x + 1 == w then 0 else x + 1
  }

  function Sub(x: nat, y: nat, w: nat): (r: nat)
    requires x < w && y < w
    ensures r < w
  {
    if x >= y then x - y else x + w - y
  }

  /** Addition of two `unsigned int`s. */
  function AddWord(x: nat, y: nat): (r: nat)
    ensures x + y < U32 ==> r == x + y
  {
    (x + y) % U32
  }

  lemma WordSizes()
    ensures I32_LIMIT < U32 < U64
  {
  }

  /** Wrapping in the counter does not disturb the slot, because the capacity divides the word. */
  lemma WrapKeepsSlot(x: nat, d: nat, w: nat, cap: nat)
    requires cap > 0 && w > 0 && w % cap == 0
    ensures Place(x % w, d, cap) == Place(x, d, cap)
  {
    var q, m := x / w, w / cap;
    assert w == m * cap;
    assert x == q * w + x % w;
    assert q * w == (q * m) * cap;
    assert x + d == (x % w + d) + (q * m) * cap;
    ModAddMultiple(x % w + d, q * m, cap);
  }

  /** The slot of the position `i` places after `h`. */
  function Place(h: nat, i: nat, cap: nat): nat
    requires cap > 0
  {
    (h + i) % cap
  }

  /** Distinct positions closer than the capacity fall in distinct slots. */
  lemma SlotsDistinct(h: nat, i: nat, j: nat, cap: nat)
    requires i < j < i + cap
    ensures Place(h, i, cap) != Place(h, j, cap)
  {
    var q, r := (h + i) / cap, (h + i) % cap;
    assert h + i == q * cap + r;
    var d := j - i;
    if r + d < cap {
      ModUnique(h + j, q, r + d, cap);
    } else {
      assert h + j == (q + 1) * cap + (r + d - cap);
      ModUnique(h + j, q + 1, r + d - cap, cap);
    }
  }
}
