/** Size-class padding (spsync/core/data/size_padding.hpp): a size keeps only its top bits, rounded up. */
module SizePadding {
  import opened Common

  const MIN_PADDED_DATA_SIZE := 4096

  /** floor(log2 n) */
  function Log2(n: nat): nat
    requires n >= 1
  {
    if n == 1 then 0 else 1 + Log2(n / 2)
  }

  lemma {:induction false} Log2Bounds(n: nat)
    requires n >= 1
    ensures Pow2(Log2(n)) <= n < Pow2(Log2(n) + 1)
  {
    if n > 1 {
      Log2Bounds(n / 2);
    }
  }

  lemma {:induction false} Pow2Add(a: nat, b: nat)
    ensures Pow2(a + b) == Pow2(a) * Pow2(b)
  {
    if a > 0 {
      Pow2Add(a - 1, b);
      assert Pow2(a) * Pow2(b) == 2 * (Pow2(a - 1) * Pow2(b));
    }
  }

  lemma {:induction false} Pow2Monotone(a: nat, b: nat)
    requires a <= b
    ensures Pow2(a) <= Pow2(b)
  {
    if a < b {
      Pow2Monotone(a, b - 1);
    }
  }

  lemma Log2Monotone(a: nat, b: nat)
    requires 1 <= a <= b
    ensures Log2(a) <= Log2(b)
  {
    Log2Bounds(a);
    Log2Bounds(b);
    if Log2(b) < Log2(a) {
      Pow2Monotone(Log2(b) + 1, Log2(a));
    }
  }

  lemma Log2Small(e: nat)
    requires e >= 1
    ensures Log2(e) < e
  {
    Log2Bounds(e);
    Pow2Above(Log2(e));
  }

  lemma {:induction false} Pow2Above(n: nat)
    ensures n < Pow2(n)
  {
    if n > 0 {
      Pow2Above(n - 1);
    }
  }

  /** the bits a size loses: the lowest floor(log2 size) - floor(log2 log2 size) - 1 */
  function LostBits(size: nat): nat
    requires size >= 2
  {
    var e := Log2(size);
    Log2Bounds(size);
    Log2Small(e);
    e - (Log2(e) + 1)
  }

  function PaddedSize(size: nat, floor: nat): nat
    requires floor >= 1
  {
    if size > floor then
      var unit := Pow2(LostBits(size));
      (size + unit - 1) - (size + unit - 1) % unit
    else floor
  }

  ghost predicate Multiple(n: nat, unit: nat) {
    exists k: nat :: n == k * unit
  }

  lemma RoundDown(n: nat, unit: nat)
    requires unit >= 1
    ensures Multiple(n - n % unit, unit) && n - unit < n - n % unit <= n
  {
    assert n == n / unit * unit + n % unit;
    assert n - n % unit == n / unit * unit;
  }

  /** a padded size is a whole number of units of the class, at least the size, less than one unit more */
  lemma PaddedSizeClass(size: nat, floor: nat)
    requires 1 <= floor < size
    ensures var unit, padded := Pow2(LostBits(size)), PaddedSize(size, floor);
            Multiple(padded, unit) && size <= padded < size + unit
  {
    RoundDown(size + Pow2(LostBits(size)) - 1, Pow2(LostBits(size)));
  }

  lemma PaddedAtLeast(size: nat, floor: nat)
    requires floor >= 1
    ensures PaddedSize(size, floor) >= size && PaddedSize(size, floor) >= floor
  {
    if size > floor {
      PaddedSizeClass(size, floor);
    }
  }

  /** above 256 octets the padding is less than a sixteenth of the size */
  lemma PaddingIsSmall(size: nat, floor: nat)
    requires 256 <= floor < size
    ensures 16 * (PaddedSize(size, floor) - size) < size
  {
    var e := Log2(size);
    var s := Log2(e) + 1;
    Log2Bounds(size);
    Log2Small(e);
    PaddedSizeClass(size, floor);
    Log2Of256();
    Log2Monotone(256, size);
    Log2Of8();
    Log2Monotone(8, e);
    Pow2Add(s, e - s);
    Pow2Of4();
    Pow2Monotone(4, s);
    var unit := Pow2(e - s);
    assert 16 * unit <= Pow2(s) * unit by {
      MulMonotone(16, Pow2(s), unit);
    }
  }

  lemma Log2Of256()
    ensures Log2(256) == 8
  {
    assert Log2(2) == 1 && Log2(4) == 2 && Log2(8) == 3 && Log2(16) == 4;
    assert Log2(32) == 5 && Log2(64) == 6 && Log2(128) == 7;
  }

  lemma Log2Of8()
    ensures Log2(8) == 3
  {
    assert Log2(2) == 1 && Log2(4) == 2;
  }

  lemma Pow2Of4()
    ensures Pow2(4) == 16
  {
    assert Pow2(2) == 4 && Pow2(3) == 8;
  }
}
