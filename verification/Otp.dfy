/** One-time codes: how one is minted, and how a presented one is compared. */
module Otp {
  /** Strings here are sequences of UTF-16 code units, which is what the comparison reads. */
  type Units = seq<bv16>

  const SPACE := 1_000_000
  const DRAWS := 0x1_0000_0000

  /** The largest multiple of the code space among the 32-bit draws. */
  const CEILING := DRAWS / SPACE * SPACE

  // ---- comparison ----

  method TimingSafeEqual(a: Units, b: Units) returns (same: bool)
    ensures same <==> a == b
  {
    if |a| != |b| { return false; }
    var difference: bv16 := 0;
    var index := 0;
    while index < |a|
      invariant 0 <= index <= |a|
      invariant difference == 0 <==> a[..index] == b[..index]
    {
      var next := difference | (a[index] ^ b[index]);
      OrXor(difference, a[index], b[index]);
      OneMore(a, b, index);
      difference, index := next, index + 1;
    }
    assert a[..index] == a && b[..index] == b;
    same := difference == 0;
  }

  lemma OneMore(a: Units, b: Units, i: nat)
    requires i < |a| == |b|
    ensures a[..i + 1] == b[..i + 1] <==> a[..i] == b[..i] && a[i] == b[i]
  {
    assert a[..i + 1] == a[..i] + [a[i]] && b[..i + 1] == b[..i] + [b[i]];
  }

  lemma OrXor(d: bv16, x: bv16, y: bv16)
    ensures d | (x ^ y) == 0 <==> d == 0 && x == y
  {
    Xor(x, y);
    Or(d, x ^ y);
  }

  lemma Xor(x: bv16, y: bv16)
    ensures x ^ y == 0 <==> x == y
  {
  }

  lemma Or(x: bv16, y: bv16)
    ensures x | y == 0 <==> x == 0 && y == 0
  {
  }

  predicate IsOtpShape(s: Units) {
    |s| == 6 && forall i | 0 <= i < 6 :: 48 <= s[i] <= 57
  }

  method OtpMatches(presented: Units, issued: Units) returns (same: bool)
    ensures same <==> presented == issued && IsOtpShape(issued)
  {
    if !IsOtpShape(presented) || !IsOtpShape(issued) { return false; }
    same := TimingSafeEqual(presented, issued);
  }

  // ---- minting ----

  function DigitUnit(d: nat): (u: bv16)
    requires d < 10
    ensures 48 <= u <= 57
  {
    if d == 0 then 48 else if d == 1 then 49 else if d == 2 then 50 else if d == 3 then 51
    else if d == 4 then 52 else if d == 5 then 53 else if d == 6 then 54 else if d == 7 then 55
    else if d == 8 then 56 else 57
  }

  /** The `n` low decimal digits of `v`, leading zeros included. */
  function Padded(v: nat, n: nat): Units {
    if n == 0 then [] else Padded(v / 10, n - 1) + [DigitUnit(v % 10)]
  }

  function Pow10(n: nat): nat { if n == 0 then 1 else 10 * Pow10(n - 1) }

  lemma {:induction false} PaddedShape(v: nat, n: nat)
    ensures |Padded(v, n)| == n && forall i | 0 <= i < n :: 48 <= Padded(v, n)[i] <= 57
  {
    if n > 0 { PaddedShape(v / 10, n - 1); }
  }

  lemma DigitUnitUnique(a: nat, b: nat)
    requires a < 10 && b < 10 && DigitUnit(a) == DigitUnit(b)
    ensures a == b
  {
  }

  /** Different numbers have different codes. */
  lemma {:induction false} PaddedUnique(a: nat, b: nat, n: nat)
    requires a < Pow10(n) && b < Pow10(n) && Padded(a, n) == Padded(b, n)
    ensures a == b
  {
    if n > 0 {
      PaddedShape(a / 10, n - 1);
      PaddedShape(b / 10, n - 1);
      var s, t := Padded(a / 10, n - 1), Padded(b / 10, n - 1);
      assert Padded(a, n)[..n - 1] == s && Padded(b, n)[..n - 1] == t;
      assert Padded(a, n)[n - 1] == DigitUnit(a % 10) && Padded(b, n)[n - 1] == DigitUnit(b % 10);
      DigitUnitUnique(a % 10, b % 10);
      PaddedUnique(a / 10, b / 10, n - 1);
    }
  }

  /** The first draw below the ceiling decides; earlier ones are thrown away. */
  method NewOtpCode(draws: seq<nat>) returns (code: Units, used: nat)
    requires exists i | 0 <= i < |draws| :: draws[i] < CEILING
    ensures used < |draws| && draws[used] < CEILING
    ensures forall i | 0 <= i < used :: draws[i] >= CEILING
    ensures IsOtpShape(code) && code == Padded(draws[used] % SPACE, 6)
  {
    var draw := draws[0];
    used := 0;
    while draw >= CEILING
      invariant used < |draws| && draw == draws[used]
      invariant forall i | 0 <= i < used :: draws[i] >= CEILING
      decreases |draws| - used
    {
      used := used + 1;
      draw := draws[used];
    }
    code := Padded(draw % SPACE, 6);
    PaddedShape(draw % SPACE, 6);
  }

  // ---- no code is likelier than another ----

  function Draws(below: nat, n: nat): set<nat> { set d: nat | d < below && d % SPACE == n }

  lemma NextBlock(k: nat, n: nat, partial: nat)
    requires n < SPACE && partial <= SPACE
    ensures Draws(k * SPACE + partial, n)
         == Draws(k * SPACE, n) + if n < partial then {k * SPACE + n} else {}
  {
    forall d: nat | k * SPACE <= d < k * SPACE + partial
      ensures d % SPACE == d - k * SPACE
    {
    }
    if n < partial {
      assert (k * SPACE + n) % SPACE == n;
    }
  }

  lemma {:induction false} WholeBlocks(k: nat, n: nat)
    requires n < SPACE
    ensures |Draws(k * SPACE, n)| == k
  {
    if k == 0 {
      assert Draws(0, n) == {};
    } else {
      WholeBlocks(k - 1, n);
      NextBlock(k - 1, n, SPACE);
      assert (k - 1) * SPACE + SPACE == k * SPACE;
    }
  }

  /** Every code is what exactly 4294 of the accepted draws turn into, and of no other value's draws. */
  lemma CodesAreEquallyLikely(n: nat)
    requires n < SPACE
    ensures |Draws(CEILING, n)| == 4294
    ensures forall d: nat | d < CEILING :: Padded(d % SPACE, 6) == Padded(n, 6) <==> d in Draws(CEILING, n)
  {
    WholeBlocks(4294, n);
    assert CEILING == 4294 * SPACE;
    assert Pow10(6) == SPACE by { assert Pow10(3) == 1000; }
    forall d: nat | d < CEILING
      ensures Padded(d % SPACE, 6) == Padded(n, 6) <==> d in Draws(CEILING, n)
    {
      if Padded(d % SPACE, 6) == Padded(n, 6) { PaddedUnique(d % SPACE, n, 6); }
    }
  }

  /** Taking every draw instead would make the low 967 296 codes likelier than the rest. */
  lemma WithoutRejectionBiased(n: nat)
    requires n < SPACE
    ensures |Draws(DRAWS, n)| == if n < 967_296 then 4295 else 4294
  {
    WholeBlocks(4294, n);
    NextBlock(4294, n, 967_296);
    assert 4294 * SPACE + 967_296 == DRAWS;
  }
}
