/**
  Coin denominations (`coin_value_to_asset_amount`, `coin_value_to_unit` and the fee arithmetic of
  `unload_recycler_into_coins` in `pallets/coinage/src/lib.rs`). A coin value is an exponent of two
  on the underlying asset unit; balances are unsigned integers of `bits` bits.
*/
module Denomination {
  import opened Prelude
  import opened Powers

  datatype Denom = Denom(unit: nat, bits: nat, minExp: int, maxExp: int)

  datatype AmountError = CoinValueOutOfBound | CoinValueTooSmall | CoinValueTooBig | LossyCoinValueConversion

  predicate InRange(d: Denom, v: int) {
    d.minExp <= v <= d.maxExp
  }

  /** `checked_shl` drops the bits that leave the word; it fails only on a shift of the full width. */
  function CheckedShl(x: nat, shift: nat, bits: nat): Option<nat> {
    if shift < bits then Some((x * Pow2(shift)) % Pow2(bits)) else None
  }

  function CheckedShr(x: nat, shift: nat, bits: nat): Option<nat> {
    DivRebuild(x, Pow2(shift));
    if shift < bits then Some(x / Pow2(shift)) else None
  }

  /** `coin_value_to_asset_amount`: shift, then shift back and compare. */
  function AssetAmount(d: Denom, v: int): Result<nat, AmountError> {
    if !InRange(d, v) then Err(CoinValueOutOfBound)
    else if v < 0 then
      var shifted := CheckedShr(d.unit, -v, d.bits);
      if shifted.None? then Err(CoinValueTooSmall)
      else if CheckedShl(shifted.value, -v, d.bits) != Some(d.unit) then Err(LossyCoinValueConversion)
      else Ok(shifted.value)
    else
      var shifted := CheckedShl(d.unit, v, d.bits);
      if shifted.None? then Err(CoinValueTooBig)
      else if CheckedShr(shifted.value, v, d.bits) != Some(d.unit) then Err(CoinValueTooBig)
      else Ok(shifted.value)
  }

  /** `coin_value_to_unit`: how many minimum coins a coin of this value is worth, as a `u32`. */
  function CoinUnit(d: Denom, v: int): Option<nat> {
    var offset := v - d.minExp;
    if 0 <= offset < 32 then Some(Pow2(offset)) else None
  }

  /** The conditions `integrity_test` asserts of the configuration. */
  ghost predicate Integrity(d: Denom) {
    && 0 < d.unit < Pow2(d.bits)
    && -128 <= d.minExp <= d.maxExp <= 127
    && d.maxExp - d.minExp < 32
    && (forall v :: InRange(d, v) ==> AssetAmount(d, v).Ok?)
  }

  /** The asset amount of a coin; 0 for a value that has none. */
  function Amount(d: Denom, v: int): nat {
    match AssetAmount(d, v)
    case Ok(a) => a
    case Err(_) => 0
  }

  // ---------------------------------------------------------------------------------------------
  // The round-trip check detects exactly the lossy shifts
  // ---------------------------------------------------------------------------------------------

  /** Scaling down is exact: the shift loses no set bit. */
  ghost predicate ExactDown(unit: nat, shift: nat) {
    exists a: nat :: a * Pow2(shift) == unit
  }

  lemma ShiftDownExact(unit: nat, shift: nat, bits: nat)
    requires unit < Pow2(bits) && shift < bits
    ensures CheckedShl(CheckedShr(unit, shift, bits).value, shift, bits) == Some(unit) <==> ExactDown(unit, shift)
    ensures ExactDown(unit, shift) ==> CheckedShr(unit, shift, bits).value * Pow2(shift) == unit
  {
    var c, m := Pow2(shift), Pow2(bits);
    var q := unit / c;
    DivRebuild(unit, c);
    assert q * c <= unit;
    DivModUnique(q * c, m, 0, q * c);
    if ExactDown(unit, shift) {
      var a: nat :| a * c == unit;
      MulDiv(a, c);
    }
  }

  lemma ShiftUpExact(unit: nat, shift: nat, bits: nat)
    requires unit < Pow2(bits) && shift < bits
    ensures CheckedShr(CheckedShl(unit, shift, bits).value, shift, bits) == Some(unit) <==> unit * Pow2(shift) < Pow2(bits)
    ensures unit * Pow2(shift) < Pow2(bits) ==> CheckedShl(unit, shift, bits).value == unit * Pow2(shift)
  {
    var c, w := Pow2(shift), Pow2(bits - shift);
    Pow2Add(bits - shift, shift);
    ModScale(unit, w, c);
    MulDiv(unit % w, c);
    DivRebuild(unit, w);
    if unit < w {
      DivModUnique(unit, w, 0, unit);
      MulGap(unit, w, c);
    } else {
      assert unit * c >= w * c by {
        if w < unit {
          MulGap(w, unit, c);
        }
      }
    }
  }

  /** `coin_value_to_asset_amount` succeeds exactly when the value is in range and scaling is exact. */
  lemma AssetAmountExact(d: Denom, v: int)
    requires d.unit < Pow2(d.bits)
    ensures v < 0 ==>
      (AssetAmount(d, v).Ok? <==> InRange(d, v) && -v < d.bits && ExactDown(d.unit, -v))
    ensures v < 0 && AssetAmount(d, v).Ok? ==> AssetAmount(d, v).value * Pow2(-v) == d.unit
    ensures v >= 0 ==>
      (AssetAmount(d, v).Ok? <==> InRange(d, v) && v < d.bits && d.unit * Pow2(v) < Pow2(d.bits))
    ensures v >= 0 && AssetAmount(d, v).Ok? ==> AssetAmount(d, v).value == d.unit * Pow2(v)
  {
    if v < 0 && -v < d.bits {
      ShiftDownExact(d.unit, -v, d.bits);
    } else if 0 <= v < d.bits {
      ShiftUpExact(d.unit, v, d.bits);
    }
  }

  // ---------------------------------------------------------------------------------------------
  // Denominations double from one exponent to the next
  // ---------------------------------------------------------------------------------------------

  lemma AmountDoubles(d: Denom, v: int)
    requires Integrity(d) && InRange(d, v) && InRange(d, v + 1)
    ensures Amount(d, v + 1) == 2 * Amount(d, v)
  {
    if v < 0 {
      AmountDoublesDown(d, v);
    } else {
      AmountDoublesUp(d, v);
    }
  }

  lemma AmountDoublesDown(d: Denom, v: int)
    requires Integrity(d) && InRange(d, v) && InRange(d, v + 1) && v < 0
    ensures Amount(d, v + 1) == 2 * Amount(d, v)
  {
    AmountDown(d, v);
    if v == -1 {
      AmountUp(d, 0);
      assert Pow2(1) == 2;
    } else {
      AmountDown(d, v + 1);
      HalvedTwice(Amount(d, v), Amount(d, v + 1), Pow2(-(v + 1)));
    }
  }

  lemma AmountDoublesUp(d: Denom, v: int)
    requires Integrity(d) && InRange(d, v) && InRange(d, v + 1) && v >= 0
    ensures Amount(d, v + 1) == 2 * Amount(d, v)
  {
    AmountUp(d, v);
    AmountUp(d, v + 1);
    DoubledFactor(d.unit, Pow2(v));
  }

  lemma AmountDown(d: Denom, v: int)
    requires Integrity(d) && InRange(d, v) && v < 0
    ensures Amount(d, v) * Pow2(-v) == d.unit
  {
    assert AssetAmount(d, v).Ok?;
    AssetAmountExact(d, v);
  }

  lemma AmountUp(d: Denom, v: int)
    requires Integrity(d) && InRange(d, v) && v >= 0
    ensures Amount(d, v) == d.unit * Pow2(v)
  {
    assert AssetAmount(d, v).Ok?;
    AssetAmountExact(d, v);
  }

  lemma HalvedTwice(a: nat, b: nat, h: nat)
    requires h > 0 && a * (2 * h) == b * h
    ensures b == 2 * a
  {
    assert (2 * a) * h == b * h;
    EqualFactor(2 * a, b, h);
  }

  lemma DoubledFactor(u: nat, p: nat)
    ensures u * (2 * p) == 2 * (u * p)
  {
  }

  lemma EqualFactor(a: nat, b: nat, c: nat)
    requires c > 0 && a * c == b * c
    ensures a == b
  {
    if a < b {
      MulGap(a, b, c);
    } else if b < a {
      MulGap(b, a, c);
    }
  }

  /** `2^k` coins of value `v` are worth one coin of value `v + k`. */
  lemma {:induction false} ConsolidationPreservesValue(d: Denom, v: int, k: nat)
    requires Integrity(d) && InRange(d, v) && InRange(d, v + k)
    ensures Pow2(k) * Amount(d, v) == Amount(d, v + k)
  {
    if k > 0 {
      ConsolidationPreservesValue(d, v, k - 1);
      AmountDoubles(d, v + (k - 1));
      DoubleFactor(Pow2(k - 1), Amount(d, v));
      assert v + (k - 1) + 1 == v + k;
    }
  }

  lemma DoubleFactor(p: nat, a: nat)
    ensures (2 * p) * a == 2 * (p * a)
  {
  }

  /** Amounts are units times the minimum coin, for every value in range. */
  lemma AmountIsUnits(d: Denom, v: int)
    requires Integrity(d) && InRange(d, v)
    ensures CoinUnit(d, v).Some? && 1 <= CoinUnit(d, v).value <= U32_MAX
    ensures Amount(d, v) == CoinUnit(d, v).value * Amount(d, d.minExp)
    ensures Amount(d, v) > 0
  {
    var k := v - d.minExp;
    ConsolidationPreservesValue(d, d.minExp, k);
    Pow2Monotone(k, 31);
    Pow2Numerals();
    MinimumPositive(d);
    assert Pow2(k) * Amount(d, d.minExp) >= 1 * Amount(d, d.minExp) by {
      if 1 < Pow2(k) {
        MulGap(1, Pow2(k), Amount(d, d.minExp));
      }
    }
  }

  lemma MinimumPositive(d: Denom)
    requires Integrity(d)
    ensures Amount(d, d.minExp) > 0
  {
    var v := d.minExp;
    assert AssetAmount(d, v).Ok?;
    AssetAmountExact(d, v);
    if v >= 0 && Pow2(v) > 1 {
      MulGap(1, Pow2(v), d.unit);
    }
  }

  // ---------------------------------------------------------------------------------------------
  // Units against asset amounts in `unload_recycler_into_coins`
  // ---------------------------------------------------------------------------------------------

  datatype BalanceError = InternalError | InvalidMaxFee | MaxFeeExceedsInput

  /**
    The units left for the outputs once `maxFee` is set aside. The quotient is squeezed into a
    `u32` by saturation before it is subtracted.
  */
  function ExpectedUnits(d: Denom, v: int, aliasCount: nat, maxFee: nat): Result<nat, BalanceError>
    requires Amount(d, d.minExp) > 0
  {
    var unit := CoinUnit(d, v);
    if unit.None? || unit.value * aliasCount > U32_MAX then Err(InternalError)
    else if maxFee % Amount(d, d.minExp) != 0 then Err(InvalidMaxFee)
    else
      var feeUnits := Min(maxFee / Amount(d, d.minExp), U32_MAX);
      if unit.value * aliasCount < feeUnits then Err(MaxFeeExceedsInput)
      else Ok(unit.value * aliasCount - feeUnits)
  }

  /** The asset value of the outputs, plus the fee cap, is the value of the inputs. */
  ghost predicate AssetsBalance(d: Denom, v: int, aliasCount: nat, maxFee: nat, outputUnits: nat) {
    outputUnits * Amount(d, d.minExp) + maxFee == aliasCount * Amount(d, v)
  }

  /** The accepted unit balance is the asset balance exactly when the fee quotient fits the word it is squeezed into. */
  lemma UnitBalanceIff(d: Denom, v: int, aliasCount: nat, maxFee: nat)
    requires Integrity(d) && InRange(d, v)
    requires Amount(d, d.minExp) > 0 && ExpectedUnits(d, v, aliasCount, maxFee).Ok?
    ensures AssetsBalance(d, v, aliasCount, maxFee, ExpectedUnits(d, v, aliasCount, maxFee).value)
       <==> maxFee / Amount(d, d.minExp) <= U32_MAX
  {
    AmountIsUnits(d, v);
    var unit, a := CoinUnit(d, v).value, Amount(d, d.minExp);
    if maxFee / a <= U32_MAX {
      BalanceInUnits(unit, aliasCount, maxFee, a);
    } else {
      FeeTooLarge(unit, aliasCount, maxFee, a);
    }
  }

  /** A fee above the word costs more than any input whose units fit it. */
  lemma FeeTooLarge(unit: nat, count: nat, maxFee: nat, a: nat)
    requires a > 0 && unit * count <= U32_MAX < maxFee / a
    ensures maxFee > count * (unit * a)
  {
    DivRebuild(maxFee, a);
    var q, total := maxFee / a, unit * count;
    assert count * (unit * a) == total * a;
    MulGap(total, q, a);
  }

  /** With fewer than `u32::MAX` aliases the quotient always fits, so the balances agree. */
  lemma UnitBalanceIsAssetBalance(d: Denom, v: int, aliasCount: nat, maxFee: nat)
    requires Integrity(d) && InRange(d, v) && aliasCount < U32_MAX
    requires Amount(d, d.minExp) > 0 && ExpectedUnits(d, v, aliasCount, maxFee).Ok?
    ensures maxFee / Amount(d, d.minExp) <= U32_MAX
    ensures AssetsBalance(d, v, aliasCount, maxFee, ExpectedUnits(d, v, aliasCount, maxFee).value)
  {
    AmountIsUnits(d, v);
    FullWordIsOdd(d, v, aliasCount);
    UnitBalanceIff(d, v, aliasCount, maxFee);
  }

  /** Every accepted unload of at most `maxCount` aliases with a fee cap up to `maxBalance` balances in asset amounts. */
  ghost predicate UnloadsBalance(d: Denom, maxCount: nat, maxBalance: nat)
    requires Amount(d, d.minExp) > 0
  {
    forall v, count: nat, maxFee: nat ::
      InRange(d, v) && count <= maxCount && maxFee <= maxBalance && ExpectedUnits(d, v, count, maxFee).Ok?
      ==> AssetsBalance(d, v, count, maxFee, ExpectedUnits(d, v, count, maxFee).value)
  }

  /** The configurations in which they do: the alias bound stays below the word, or no balance reaches 2^32 minimum coins. */
  lemma UnloadsBalanceIff(d: Denom, maxCount: nat, maxBalance: nat)
    requires Integrity(d) && Amount(d, d.minExp) > 0 && maxCount <= U32_MAX
    ensures UnloadsBalance(d, maxCount, maxBalance)
       <==> maxCount < U32_MAX || maxBalance < 0x1_0000_0000 * Amount(d, d.minExp)
  {
    var a := Amount(d, d.minExp);
    if maxCount < U32_MAX || maxBalance < 0x1_0000_0000 * a {
      forall v, count: nat, maxFee: nat | InRange(d, v) && count <= maxCount && maxFee <= maxBalance && ExpectedUnits(d, v, count, maxFee).Ok?
        ensures AssetsBalance(d, v, count, maxFee, ExpectedUnits(d, v, count, maxFee).value)
      {
        if maxCount < U32_MAX {
          UnitBalanceIsAssetBalance(d, v, count, maxFee);
        } else {
          QuotientFits(maxFee, a);
          UnitBalanceIff(d, v, count, maxFee);
        }
      }
    } else {
      SaturatedFeeBreaksBalance(d, 0x1_0000_0000 * a);
    }
  }

  lemma QuotientFits(maxFee: nat, a: nat)
    requires a > 0 && maxFee < 0x1_0000_0000 * a
    ensures maxFee / a <= U32_MAX
  {
    DivRebuild(maxFee, a);
    if maxFee / a > U32_MAX {
      MulGap(U32_MAX, maxFee / a, a);
    }
  }

  lemma BalanceInUnits(unit: nat, count: nat, maxFee: nat, a: nat)
    requires a > 0 && maxFee % a == 0 && maxFee / a <= unit * count
    ensures (unit * count - maxFee / a) * a + maxFee == count * (unit * a)
  {
    DivRebuild(maxFee, a);
    var fee, total := maxFee / a, unit * count;
    assert (total - fee) * a + fee * a == total * a;
    assert total * a == count * (unit * a);
  }

  /** Only `u32::MAX` coins of the minimum value can fill the word: every other unit is even. */
  lemma FullWordIsOdd(d: Denom, v: int, aliasCount: nat)
    requires InRange(d, v) && CoinUnit(d, v).Some? && aliasCount < U32_MAX
    ensures CoinUnit(d, v).value * aliasCount != U32_MAX
  {
    var k := v - d.minExp;
    if k > 0 {
      assert Pow2(k) * aliasCount == 2 * (Pow2(k - 1) * aliasCount);
    }
  }

  /** At `u32::MAX` aliases the saturated quotient lets any larger fee cap through. */
  lemma SaturatedFeeBreaksBalance(d: Denom, maxFee: nat)
    requires Integrity(d)
    requires maxFee == 0x1_0000_0000 * Amount(d, d.minExp)
    ensures Amount(d, d.minExp) > 0
    ensures ExpectedUnits(d, d.minExp, U32_MAX, maxFee) == Ok(0)
    ensures !AssetsBalance(d, d.minExp, U32_MAX, maxFee, 0)
  {
    MinimumPositive(d);
    MulDiv(0x1_0000_0000, Amount(d, d.minExp));
    assert Pow2(0) == 1;
  }
}
