/** The size of the request table (ipc_marequest_init in ipc/ipc_marequest.c). */
module MarequestSize {
  import opened Bpf
  import Marequest

  predicate PowerOfTwo(n: nat) { n == 1 || (n > 0 && n % 2 == 0 && PowerOfTwo(n / 2)) }

  lemma {:induction false} AndSelf(n: nat)
    ensures And(n, n) == n
  {
    if n > 0 {
      AndSelf(n / 2);
    }
  }

  /** The test for a power of two: no bit is set both in the number and in the one before it. */
  lemma {:induction false} AndPredecessor(n: nat)
    requires n > 0
    ensures And(n, n - 1) == 0 <==> PowerOfTwo(n)
  {
    if n % 2 == 1 {
      AndSelf(n / 2);
    } else {
      AndPredecessor(n / 2);
    }
  }

  /** Setting the bit `bit`, a power of two. */
  function SetBit(mask: nat, bit: nat): nat
    requires bit > 0
  {
    if mask / bit % 2 == 1 then mask else mask + bit
  }

  lemma QuotientIs(a: nat, d: nat, q: nat)
    requires d > 0 && a == q * d + (d - 1)
    ensures a / d == q
  {
    var k := a / d;
    assert k * d <= a < k * d + d;
    Ordered(q + 1, k, d);
    Ordered(k + 1, q, d);
  }

  lemma Ordered(x: nat, y: nat, d: nat)
    ensures x <= y ==> x * d <= y * d
  {}

  /** With the bits below `bit` set, the size is a multiple of `bit`; setting `bit` too makes it one of twice that. */
  lemma SetNextBit(mask: nat, bit: nat, q: nat)
    requires bit > 0 && mask + 1 == (q + 1) * bit
    ensures SetBit(mask, bit) + 1 == (q / 2 + 1) * (2 * bit)
  {
    QuotientIs(mask, bit, q);
    var h := q / 2;
    if q % 2 == 0 {
      assert (2 * h + 1) * bit + bit == (h + 1) * (2 * bit);
    } else {
      assert (2 * h + 1 + 1) * bit == (h + 1) * (2 * bit);
    }
  }

  /** Between a power of two and the next there is no other. */
  lemma {:induction false} PowerGap(a: nat, p: nat)
    requires PowerOfTwo(a) && PowerOfTwo(p) && a < p
    ensures 2 * a <= p
    decreases p
  {
    if a > 1 {
      PowerGap(a / 2, p / 2);
    }
  }

  lemma {:induction false} PowerDivides(a: nat, p: nat) returns (k: nat)
    requires PowerOfTwo(a) && PowerOfTwo(p) && a <= p
    ensures p == k * a
    decreases p
  {
    if a == 1 {
      k := p;
    } else {
      k := PowerDivides(a / 2, p / 2);
    }
  }

  lemma SmallestMultiple(q: nat, bit: nat, n: nat, p: nat)
    requires PowerOfTwo(bit) && PowerOfTwo(p) && q * bit < n <= p && bit <= p
    ensures (q + 1) * bit <= p
  {
    var k := PowerDivides(bit, p);
    Ordered(k, q, bit);
    Ordered(q + 1, k, bit);
  }

  lemma Halves(q: nat, bit: nat, n: nat)
    requires 1 <= q && 0 < bit && q * bit < n <= (q + 1) * bit
    ensures bit < n && q / 2 * (2 * bit) < n <= (q / 2 + 1) * (2 * bit)
  {
    var h := q / 2;
    assert h * (2 * bit) == 2 * h * bit;
    assert 2 * h * bit <= q * bit;
    assert (h + 1) * (2 * bit) == (2 * h + 2) * bit;
    assert (q + 1) * bit <= (2 * h + 2) * bit;
    assert bit <= q * bit;
  }

  /** The bits of the mask below `bit` are set; above, it is still one less than the size asked for. */
  ghost predicate Filled(mask: nat, bit: nat, q: nat, n: nat) {
    PowerOfTwo(bit) && mask + 1 == (q + 1) * bit && 1 <= q && q * bit < n <= (q + 1) * bit
  }

  ghost predicate Smallest(size: nat, n: nat) {
    PowerOfTwo(size) && n <= size && forall p :: PowerOfTwo(p) && n <= p ==> size <= p
  }

  lemma FillStep(mask: nat, bit: nat, q: nat, n: nat)
    requires Filled(mask, bit, q, n)
    ensures var mask' := SetBit(mask, bit);
      if And(mask' + 1, mask') == 0 then Smallest(mask' + 1, n) else Filled(mask', 2 * bit, q / 2, n)
  {
    var mask', bit', q' := SetBit(mask, bit), 2 * bit, q / 2;
    SetNextBit(mask, bit, q);
    Halves(q, bit, n);
    AndPredecessor(mask' + 1);
    assert bit' / 2 == bit;
    if q' == 0 {
      assert (q' + 1) * bit' == bit';
    }
    if PowerOfTwo(mask' + 1) {
      forall p | PowerOfTwo(p) && n <= p ensures mask' + 1 <= p {
        PowerGap(bit, p);
        SmallestMultiple(q', bit', n, p);
      }
    }
  }

  /** The smallest power of two that is not below the size asked for. */
  method TableSize(n: nat) returns (size: nat)
    requires n > 0
    ensures Smallest(size, n)
  {
    var mask: nat := n - 1;
    size := n;
    AndPredecessor(n);
    if And(size, mask) != 0 {
      var bit: nat := 1;
      ghost var q: nat := n - 1;
      while true
        invariant Filled(mask, bit, q, n)
        decreases q
      {
        FillStep(mask, bit, q, n);
        mask := SetBit(mask, bit);
        size := mask + 1;
        if And(size, mask) == 0 {
          break;
        }
        q, bit := q / 2, 2 * bit;
      }
    }
  }

  // ---------------------------------------------------------------- the hash function

  lemma RemainderIs(x: nat, d: nat, q: nat, r: nat)
    requires r < d && x == q * d + r
    ensures x % d == r
  {
    var k := x / d;
    assert x == k * d + x % d;
    Ordered(q + 1, k, d);
    Ordered(k + 1, q, d);
  }

  lemma HalfRemainder(x: nat, m: nat)
    requires m > 0
    ensures x % (2 * m) == 2 * (x / 2 % m) + x % 2
  {
    var h := x / 2;
    var q, r := h / m, h % m;
    assert h == q * m + r;
    assert x == 2 * h + x % 2;
    assert 2 * (q * m) == q * (2 * m);
    RemainderIs(x, 2 * m, q, 2 * r + x % 2);
  }

  /** Masking with one less than a power of two takes the remainder. */
  lemma {:induction false} MaskIsRemainder(x: nat, n: nat)
    requires PowerOfTwo(n)
    ensures And(x, n - 1) == x % n
    decreases n
  {
    if n > 1 {
      var m := n / 2;
      MaskIsRemainder(x / 2, m);
      HalfRemainder(x, m);
      assert (n - 1) / 2 == m - 1 && (n - 1) % 2 == 1;
      if x == 0 {
        RemainderIs(0, n, 0, 0);
      }
    }
  }

  lemma RemainderPlus(x: nat, k: nat, d: nat)
    requires d > 0
    ensures (x + k * d) % d == x % d
  {
    var q := x / d;
    assert x == q * d + x % d;
    assert (q + k) * d == q * d + k * d;
    RemainderIs(x + k * d, d, q + k, x % d);
  }

  lemma Doubled(n: nat)
    requires PowerOfTwo(n)
    ensures PowerOfTwo(2 * n)
  {
    assert 2 * n / 2 == n;
  }

  lemma {:induction false} PowersAre(n: nat)
    ensures PowerOfTwo(Power2(n))
  {
    if n > 0 {
      PowersAre(n - 1);
      Doubled(Power2(n - 1));
    }
  }

  lemma Power28()
    ensures Power2(28) == 0x1000_0000
  {
    assert Power2(8) == 0x100;
    assert Power2(16) == 0x1_0000;
    assert Power2(24) == 0x100_0000;
  }

  /** Cutting a number at 28 bits, or more, does not change its remainder. */
  lemma CutKeeps(x: nat, y: nat, size: nat)
    requires PowerOfTwo(size) && size <= 0x1000_0000
    ensures (x + y * 0x1000_0000) % size == x % size
  {
    Power28();
    PowersAre(28);
    var k := PowerDivides(size, 0x1000_0000);
    CutMultiple(x, y, 0x1000_0000, k, size);
  }

  lemma CutMultiple(x: nat, y: nat, n: nat, k: nat, size: nat)
    requires size > 0 && n == k * size
    ensures (x + y * n) % size == x % size
  {
    assert y * (k * size) == (y * k) * size;
    RemainderPlus(x, y * k, size);
  }

  /** IMAR_HASH: the sum of 32-bit numbers, masked; the model takes the remainder of the whole sum. */
  lemma HashMasks(size: nat, space: nat, name: nat)
    requires PowerOfTwo(size) && size <= 0x1000_0000
    ensures Marequest.Hash(size, space, name)
      == And((space % 0x1_0000_0000 / 16 + name) % 0x1_0000_0000, size - 1)
  {
    var low, high := space % 0x1_0000_0000, space / 0x1_0000_0000;
    var sum := low / 16 + name;
    var cut, over := sum % 0x1_0000_0000, sum / 0x1_0000_0000;
    assert space / 16 == low / 16 + high * 0x1000_0000;
    CutKeeps(sum, high, size);
    assert sum == cut + (over * 16) * 0x1000_0000;
    CutKeeps(cut, over * 16, size);
    MaskIsRemainder(cut, size);
  }
}
