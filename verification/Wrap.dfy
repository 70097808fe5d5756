/** Unsigned 32-bit arithmetic as the C code uses it, and the facts about
    free-running counters that the ring relies on. */
module Wrap {
  const TWO_32: int := 0x1_0000_0000

  type u32 = x: int | 0 <= x < 0x1_0000_0000
  type u16 = x: int | 0 <= x < 0x1_0000

  /** Subtraction of two uint32_t values. */
  function Sub32(a: u32, b: u32): u32 {
    (a - b) % TWO_32
  }

  /** Addition of two uint32_t values. */
  function Add32(a: u32, b: u32): u32 {
    (a + b) % TWO_32
  }

  /** The counter that a count of events leaves in a uint32_t. */
  function Low32(count: nat): u32 {
    count % TWO_32
  }

  lemma ModIsUnique(x: int, m: int, q: int, r: int)
    requires 0 < m && 0 <= r < m && x == q * m + r
    ensures x % m == r && x / m == q
  {
    var d := x / m - q;
    assert d * m == r - x % m;
    assert d >= 1 ==> d * m >= m;
    assert d <= -1 ==> d * m <= -m;
  }

  /** Wrapping subtraction recovers the distance of two counts that are less
      than 2^32 apart, however often both counters have wrapped. */
  lemma SubOfCounts(p: nat, c: nat)
    requires c <= p < c + TWO_32
    ensures Sub32(Low32(p), Low32(c)) == p - c
  {
    var x := Low32(p) - Low32(c);
    var q := c / TWO_32 - p / TWO_32;
    assert x == q * TWO_32 + (p - c);
    ModIsUnique(x, TWO_32, q, p - c);
  }

  lemma AddOfCount(c: nat)
    ensures Add32(Low32(c), 1) == Low32(c + 1)
  {
    var q := c / TWO_32;
    var r := c % TWO_32;
    if r + 1 < TWO_32 {
      ModIsUnique(c + 1, TWO_32, q, r + 1);
    } else {
      ModIsUnique(c + 1, TWO_32, q + 1, 0);
    }
  }

  /** 64 divides 2^32, so masking the counter selects the slot of the count. */
  lemma SlotOfCount(c: nat)
    ensures Low32(c) % 64 == c % 64
  {
    var q := c / TWO_32;
    var r := c % TWO_32;
    ModIsUnique(c, 64, q * 67108864 + r / 64, r % 64);
  }

  /** Counts that are less than 64 apart use different slots. */
  lemma SlotsDiffer(i: nat, j: nat)
    requires i < j < i + 64
    ensures i % 64 != j % 64
  {
    var d := j / 64 - i / 64;
    assert j - i == d * 64 + (j % 64 - i % 64);
  }
}
