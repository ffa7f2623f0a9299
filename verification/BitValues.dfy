/** Shifts and masks as numbers. */
module BitValues {
  lemma {:induction false} Joined(high: bv8, low: bv8, x: bv16)
    requires x == ((high as bv16) << 8) | (low as bv16)
    ensures x as int == 0x100 * (high as int) + (low as int)
  {
  }

  lemma {:induction false} JoinedWide(high: bv16, low: bv16, x: bv32)
    requires x == ((high as bv32) << 16) | (low as bv32)
    ensures x as int == 0x1_0000 * (high as int) + (low as int)
  {
  }

  lemma {:induction false} Split(x: bv16, high: bv8, low: bv8)
    requires high == (x >> 8) as bv8 && low == (x & 0xff) as bv8
    ensures x as int == 0x100 * (high as int) + (low as int)
  {
    assert x == ((high as bv16) << 8) | (low as bv16);
    Joined(high, low, x);
  }

  lemma {:induction false} Range8(b: bv8)
    ensures 0 <= b as int < 0x100
  {
  }

  lemma {:induction false} QuotientAndRest(n: nat, high: nat, low: nat)
    requires n == 0x100 * high + low && low < 0x100
    ensures n / 0x100 == high && n % 0x100 == low
  {
  }

  lemma {:induction false} Halves(x: bv16)
    ensures ((x >> 8) as bv8) as int == (x as int) / 0x100
    ensures ((x & 0xff) as bv8) as int == (x as int) % 0x100
  {
    var high, low := (x >> 8) as bv8, (x & 0xff) as bv8;
    Split(x, high, low);
    Range8(low);
    QuotientAndRest(x as int, high as int, low as int);
  }

  lemma {:induction false} HighNibbleOnTop(low: bv8, mixed: bv8)
    ensures ((((mixed & 0xf0) as bv16) << 4) | (low as bv16)) as int == (low as int) + 0x100 * ((mixed as int) / 0x10)
  {
  }

  lemma {:induction false} LowNibbleBelow(mixed: bv8, high: bv8)
    ensures (((high as bv16) << 4) | ((mixed & 0x0f) as bv16)) as int == 0x10 * (high as int) + (mixed as int) % 0x10
  {
  }

  lemma {:induction false} LowNibbleOnTop(low: bv16, high: bv16)
    requires low < 0x1000 && high < 0x1000
    ensures (((low >> 8) & 0x0f) as bv8 | (((high & 0x0f) << 4) as bv8)) as int
            == (low as int) / 0x100 + 0x10 * ((high as int) % 0x10)
  {
    ThirdNibble(low);
    FirstNibbleUp(high);
    NibblesAdd(((low >> 8) & 0x0f) as bv8, ((high & 0x0f) << 4) as bv8);
  }

  lemma {:induction false} ThirdNibble(x: bv16)
    requires x < 0x1000
    ensures (((x >> 8) & 0x0f) as bv8) as int == (x as int) / 0x100
    ensures (((x >> 8) & 0x0f) as bv8) & 0xf0 == 0
  {
  }

  lemma {:induction false} FirstNibbleUp(x: bv16)
    ensures (((x & 0x0f) << 4) as bv8) as int == 0x10 * ((x as int) % 0x10)
    ensures (((x & 0x0f) << 4) as bv8) & 0x0f == 0
  {
    NibbleOfOctet(x);
    NibbleValue(x);
    NibbleUp(x & 0x0f);
  }

  lemma {:induction false} NibbleOfOctet(x: bv16)
    ensures x & 0x0f < 0x10
    ensures (((0 as bv8) as bv16) << 4) | ((((x & 0xff) as bv8) & 0x0f) as bv16) == x & 0x0f
  {
  }

  lemma {:induction false} ModTwice(n: nat)
    ensures (n % 0x100) % 0x10 == n % 0x10
  {
  }

  lemma {:induction false} NibbleValue(x: bv16)
    ensures (x & 0x0f) as int == (x as int) % 0x10
  {
    var low := (x & 0xff) as bv8;
    calc {
      (x & 0x0f) as int;
      { NibbleOfOctet(x); }
      ((((0 as bv8) as bv16) << 4) | ((low & 0x0f) as bv16)) as int;
      { LowNibbleBelow(low, 0); }
      (low as int) % 0x10;
      { Halves(x); }
      ((x as int) % 0x100) % 0x10;
      { ModTwice(x as int); }
      (x as int) % 0x10;
    }
  }

  lemma {:induction false} NibbleUp(x: bv16)
    requires x < 0x10
    ensures ((x << 4) as bv8) as int == 0x10 * (x as int) && ((x << 4) as bv8) & 0x0f == 0
  {
  }

  lemma {:induction false} NibblesAdd(a: bv8, b: bv8)
    requires a & 0xf0 == 0 && b & 0x0f == 0
    ensures (a | b) as int == (a as int) + (b as int)
  {
  }

  lemma {:induction false} HighOctet(x: bv16)
    requires x < 0x1000
    ensures (((x >> 4) & 0xff) as bv8) as int == (x as int) / 0x10
  {
  }

  /** Two numbers of twelve bits in three octets, low octet first. */
  lemma {:induction false} Packed(low: bv16, high: bv16)
    requires low < 0x1000 && high < 0x1000
    ensures (((low & 0xff) as bv8) as int)
            + 0x100 * ((((low >> 8) & 0x0f) as bv8 | (((high & 0x0f) << 4) as bv8)) as int)
            + 0x1_0000 * ((((high >> 4) & 0xff) as bv8) as int)
            == (low as int) + 0x1000 * (high as int)
  {
    Halves(low);
    LowNibbleOnTop(low, high);
    HighOctet(high);
    Sum24(
      low as int, high as int,
      ((low & 0xff) as bv8) as int,
      (((low >> 8) & 0x0f) as bv8 | (((high & 0x0f) << 4) as bv8)) as int,
      (((high >> 4) & 0xff) as bv8) as int);
  }

  lemma {:induction false} Sum24(a: nat, b: nat, x: nat, y: nat, z: nat)
    requires x == a % 0x100 && y == a / 0x100 + 0x10 * (b % 0x10) && z == b / 0x10
    ensures x + 0x100 * y + 0x1_0000 * z == a + 0x1000 * b
  {
  }

  lemma {:induction false} Range16(b: bv16)
    ensures 0 <= b as int < 0x1_0000
    ensures b < 0x8000 <==> b as int < 0x8000
  {
  }
}
