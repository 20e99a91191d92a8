/**
 What a funded transaction pays. `Assemble` computes fees piecewise (one fee per input, one for
 the fixed part, one for the change output) and the theorems here relate the sum to the fee for
 the maximum signed size of the whole transaction.
 */
module WalletFees {
  import opened Prelude
  import opened Transactions
  import opened Wallet

  /** Fee of an assembled transaction: value of its inputs minus value of its outputs. */
  function FeePaid(outputs: seq<TxOut>, coins: seq<Utxo>, changeScript: Script, rateK: nat): nat
    requires Effective(coins, rateK) >= SelectionTarget(outputs, rateK)
  {
    InputSum(coins) - OutputSum(Assemble(outputs, coins, changeScript, rateK).output)
  }

  /** How far the coins fall short of their own input fees; saturation hides it from the selection. */
  function Deficit(coins: seq<Utxo>, inputFee: nat): nat {
    if coins == [] then 0
    else Deficit(coins[..|coins| - 1], inputFee) + SatSub(inputFee, coins[|coins| - 1].value)
  }

  predicate CoversOwnFee(coins: seq<Utxo>, inputFee: nat) {
    forall i :: 0 <= i < |coins| ==> coins[i].value >= inputFee
  }

  lemma {:induction false} NoDeficit(coins: seq<Utxo>, inputFee: nat)
    ensures Deficit(coins, inputFee) == 0 <==> CoversOwnFee(coins, inputFee)
  {
    if coins != [] {
      var init := coins[..|coins| - 1];
      NoDeficit(init, inputFee);
      assert forall i :: 0 <= i < |coins| ==> coins[i] == if i < |init| then init[i] else coins[|coins| - 1];
    }
  }

  /** What the inputs hold is what they contribute to the target plus their own fees. */
  lemma {:induction false} ValueIsEffectivePlusFees(coins: seq<Utxo>, rateK: nat)
    ensures var f := GetFee(rateK, 68);
            Effective(coins, rateK) + |coins| * f == InputSum(coins) + Deficit(coins, f)
  {
    hide GetFee;
    var f := GetFee(rateK, 68);
    if coins != [] {
      var init, last := coins[..|coins| - 1], coins[|coins| - 1];
      ValueIsEffectivePlusFees(init, rateK);
      assert CoinOutputs(coins, rateK)[..|coins| - 1] == CoinOutputs(init, rateK);
      InputSizeIs68(last.outpoint);
      assert |coins| * f == |init| * f + f;
    }
  }

  // ------------------------------------------------------------------ get_fee

  lemma {:induction false} GetFeeMonotone(rateK: nat, rateK': nat, a: nat, b: nat)
    requires rateK <= rateK' && a <= b
    ensures GetFee(rateK, a) <= GetFee(rateK', b)
  {
    assert rateK * a <= rateK' * a <= rateK' * b;
    CeilDivMonotone(Min(rateK * a, U64_MAX), Min(rateK' * b, U64_MAX), 1000);
  }

  lemma {:induction false} GetFeeSubadditive(rateK: nat, a: nat, b: nat)
    ensures GetFee(rateK, a + b) <= GetFee(rateK, a) + GetFee(rateK, b)
  {
    var x, y := Min(rateK * a, U64_MAX), Min(rateK * b, U64_MAX);
    assert rateK * (a + b) == rateK * a + rateK * b;
    CeilDivMonotone(Min(rateK * (a + b), U64_MAX), x + y, 1000);
    CeilDivSubadditive(x, y, 1000);
  }

  lemma {:induction false} GetFeeTimes(rateK: nat, n: nat, a: nat)
    ensures GetFee(rateK, n * a) <= n * GetFee(rateK, a)
  {
    if n > 0 {
      GetFeeTimes(rateK, n - 1, a);
      GetFeeSubadditive(rateK, (n - 1) * a, a);
      assert n * a == (n - 1) * a + a;
      assert n * GetFee(rateK, a) == (n - 1) * GetFee(rateK, a) + GetFee(rateK, a);
    }
  }

  /** At a whole rate of `r` satoshi per vbyte the fee is exact, as long as the product fits. */
  lemma {:induction false} GetFeeWhole(r: nat, n: nat)
    requires 1000 * r * n <= U64_MAX
    ensures GetFee(1000 * r, n) == r * n
  {
    assert 1000 * r * n == 1000 * (r * n);
    CeilDivExact(r * n, 1000);
  }

  // ------------------------------------------------------------------ the assembled transaction

  predicate NoChange(outputs: seq<TxOut>, coins: seq<Utxo>, changeScript: Script, rateK: nat) {
    ChangeAmount(outputs, coins, changeScript, rateK) == 0
  }

  lemma {:induction false} AppendOutput(outputs: seq<TxOut>, o: TxOut)
    ensures OutputSum(outputs + [o]) == OutputSum(outputs) + o.value
    ensures OutputsSize(outputs + [o]) == OutputsSize(outputs) + OutputSize(o)
  {
    assert (outputs + [o])[..|outputs|] == outputs;
  }

  /** The maximum signed size of the result; moving value into the change does not affect it. */
  lemma {:induction false} AssembledSize(outputs: seq<TxOut>, coins: seq<Utxo>, cs: Script, rateK: nat)
    requires coins != [] && Effective(coins, rateK) >= SelectionTarget(outputs, rateK)
    ensures var tx := Assemble(outputs, coins, cs, rateK);
            && MaximumSignedVSize(tx) == MaximumSignedVSize(Draft(outputs, coins, cs, rateK))
            && MaximumSignedVSize(tx) ==
               if NoChange(outputs, coins, cs, rateK)
               then 9 + VarIntLen(|coins|) + VarIntLen(|outputs|) + OutputsSize(outputs) + 68 * |coins|
               else 9 + VarIntLen(|coins|) + VarIntLen(|outputs| + 1) + OutputsSize(outputs)
                    + OutputSize(TxOut(0, cs)) + 68 * |coins|
  {
    var tx, draft := Assemble(outputs, coins, cs, rateK), Draft(outputs, coins, cs, rateK);
    MaximumSignedVSizeClosedForm(tx);
    MaximumSignedVSizeClosedForm(draft);
    if !NoChange(outputs, coins, cs, rateK) {
      assert tx.output == outputs + [tx.output[|outputs|]];
      AppendOutput(outputs, tx.output[|outputs|]);
      AppendOutput(outputs, draft.output[|outputs|]);
    }
  }

  /** The two outcomes of the final adjustment. */
  lemma {:induction false} FeePaidIs(outputs: seq<TxOut>, coins: seq<Utxo>, cs: Script, rateK: nat)
    requires Effective(coins, rateK) >= SelectionTarget(outputs, rateK)
    ensures var change := ChangeAmount(outputs, coins, cs, rateK);
            var left := InputSum(coins) - OutputSum(outputs) - change;
            var needed := FeeNeeded(outputs, coins, cs, rateK);
            var outs := Assemble(outputs, coins, cs, rateK).output;
            && left >= 0
            && FeePaid(outputs, coins, cs, rateK) == (if change > 0 && needed < left then needed else left)
            && (change == 0 ==> outs == outputs)
            && (change > 0 ==> |outs| == |outputs| + 1 && outs[|outputs|].scriptPubkey == cs
                               && outs[|outputs|].value >= change)
  {
    var outs := Assemble(outputs, coins, cs, rateK).output;
    DraftIsCovered(outputs, coins, cs, rateK);
    if ChangeAmount(outputs, coins, cs, rateK) > 0 {
      assert outs == outputs + [outs[|outputs|]];
      AppendOutput(outputs, outs[|outputs|]);
    }
  }

  /** The fee that is left before the change output is adjusted, in terms of the piecewise fees. */
  lemma {:induction false} FeeBeforeAdjustment(outputs: seq<TxOut>, coins: seq<Utxo>, cs: Script, rateK: nat)
    requires Effective(coins, rateK) >= SelectionTarget(outputs, rateK)
    ensures var f := GetFee(rateK, 68);
            var change := ChangeAmount(outputs, coins, cs, rateK);
            var excess := Effective(coins, rateK) - SelectionTarget(outputs, rateK);
            var left := InputSum(coins) - OutputSum(outputs) - change;
            && left + Deficit(coins, f) == |coins| * f + GetFee(rateK, NotInputSize(outputs)) + excess - change
            && (change > 0 ==> excess - change == ChangeFee(cs, rateK) && change >= MinViableChange(cs))
            && (change == 0 ==> 0 <= excess < MinViableChange(cs) + ChangeFee(cs, rateK))
  {
    ValueIsEffectivePlusFees(coins, rateK);
  }

  /** The piecewise fees cover the whole: rounding up happens once per piece. */
  lemma {:induction false} PiecesCoverWhole(n: nat, rateK: nat, fixed: nat, changeSize: nat)
    ensures GetFee(rateK, 68 * n + fixed + changeSize)
         <= n * GetFee(rateK, 68) + GetFee(rateK, fixed) + GetFee(rateK, changeSize)
    ensures GetFee(rateK, 68 * n + fixed) <= n * GetFee(rateK, 68) + GetFee(rateK, fixed)
  {
    GetFeeTimes(rateK, n, 68);
    assert n * 68 == 68 * n;
    GetFeeSubadditive(rateK, 68 * n, fixed);
    GetFeeSubadditive(rateK, 68 * n + fixed, changeSize);
  }

  /** The outputs leave room for a change output without a longer output count. */
  predicate ChangeFitsCount(outputs: seq<TxOut>) {
    VarIntLen(|outputs| + 1) == VarIntLen(|outputs|)
  }

  /** Main result with change, for any rate: the fee is exactly the fee of the maximum signed
      size, and the change is not dust. */
  lemma {:induction false} FundedWithChange(outputs: seq<TxOut>, coins: seq<Utxo>, cs: Script, rateK: nat)
    requires coins != [] && Effective(coins, rateK) >= SelectionTarget(outputs, rateK)
    requires !NoChange(outputs, coins, cs, rateK)
    requires CoversOwnFee(coins, GetFee(rateK, 68)) && |coins| < 253 && ChangeFitsCount(outputs)
    ensures var tx := Assemble(outputs, coins, cs, rateK);
            && FeePaid(outputs, coins, cs, rateK) == GetFee(rateK, MaximumSignedVSize(tx))
            && |tx.output| == |outputs| + 1
            && tx.output[|outputs|].scriptPubkey == cs
            && tx.output[|outputs|].value >= MinViableChange(cs) >= DustThreshold(cs)
  {
    hide GetFee, MaximumSignedVSize, Draft, Assemble, FeePaid, ChangeAmount, OutputsSize, OutputSize, DustThreshold;
    var f, base, changeSize := GetFee(rateK, 68), NotInputSize(outputs), OutputSize(TxOut(0, cs));
    var change := ChangeAmount(outputs, coins, cs, rateK);
    var left := InputSum(coins) - OutputSum(outputs) - change;
    assert MaximumSignedVSize(Assemble(outputs, coins, cs, rateK)) == 68 * |coins| + base + changeSize by {
      AssembledSize(outputs, coins, cs, rateK);
    }
    assert FeeNeeded(outputs, coins, cs, rateK) == GetFee(rateK, 68 * |coins| + base + changeSize) by {
      AssembledSize(outputs, coins, cs, rateK);
    }
    assert left == |coins| * f + GetFee(rateK, base) + GetFee(rateK, changeSize) && change >= MinViableChange(cs) by {
      NoDeficit(coins, f);
      FeeBeforeAdjustment(outputs, coins, cs, rateK);
    }
    assert FeeNeeded(outputs, coins, cs, rateK) <= left by {
      PiecesCoverWhole(|coins|, rateK, base, changeSize);
    }
    FeePaidIs(outputs, coins, cs, rateK);
  }

  /** Main result without change, for any rate: the fee is enough for the maximum signed size. */
  lemma {:induction false} FundedWithoutChange(outputs: seq<TxOut>, coins: seq<Utxo>, cs: Script, rateK: nat)
    requires coins != [] && Effective(coins, rateK) >= SelectionTarget(outputs, rateK)
    requires NoChange(outputs, coins, cs, rateK)
    requires CoversOwnFee(coins, GetFee(rateK, 68)) && |coins| < 253
    ensures Assemble(outputs, coins, cs, rateK).output == outputs
    ensures FeePaid(outputs, coins, cs, rateK)
         >= GetFee(rateK, MaximumSignedVSize(Assemble(outputs, coins, cs, rateK)))
  {
    hide GetFee, MaximumSignedVSize, Draft, Assemble, FeePaid, ChangeAmount, OutputsSize, OutputSize;
    var f, base := GetFee(rateK, 68), NotInputSize(outputs);
    assert MaximumSignedVSize(Assemble(outputs, coins, cs, rateK)) == 68 * |coins| + base by {
      AssembledSize(outputs, coins, cs, rateK);
    }
    assert InputSum(coins) - OutputSum(outputs) >= |coins| * f + GetFee(rateK, base) by {
      NoDeficit(coins, f);
      FeeBeforeAdjustment(outputs, coins, cs, rateK);
    }
    PiecesCoverWhole(|coins|, rateK, base, 0);
    FeePaidIs(outputs, coins, cs, rateK);
  }

  // ------------------------------------------------------------------ whole rates, exactly

  /** No size that the funding code prices is larger. */
  function SizeBound(outputs: seq<TxOut>, coins: seq<Utxo>, cs: Script): nat {
    68 * |coins| + 28 + VarIntLen(|outputs|) + OutputsSize(outputs) + OutputSize(TxOut(0, cs))
  }

  /** `r` satoshi per vbyte times the maximum signed size does not saturate. */
  predicate RateFits(outputs: seq<TxOut>, coins: seq<Utxo>, cs: Script, r: nat) {
    1000 * r * SizeBound(outputs, coins, cs) <= U64_MAX
  }

  /** Everything that makes the estimate too small: coins below their own fee, and count prefixes
      longer than the fixed overhead assumed. */
  function Shortfall(outputs: seq<TxOut>, coins: seq<Utxo>, r: nat, withChange: bool): nat {
    Deficit(coins, r * 68)
      + r * ExtraInputCount(coins)
      + (if withChange then r * ExtraOutputCount(outputs) else 0)
  }

  function ExtraInputCount(coins: seq<Utxo>): nat {
    VarIntLen(|coins|) - 1
  }

  function ExtraOutputCount(outputs: seq<TxOut>): nat {
    VarIntLen(|outputs| + 1) - VarIntLen(|outputs|)
  }

  lemma {:induction false} WholeRatePieces(outputs: seq<TxOut>, coins: seq<Utxo>, cs: Script, r: nat)
    requires RateFits(outputs, coins, cs, r)
    ensures GetFee(1000 * r, 68) == r * 68 || coins == []
    ensures GetFee(1000 * r, NotInputSize(outputs)) == r * NotInputSize(outputs)
    ensures ChangeFee(cs, 1000 * r) == r * OutputSize(TxOut(0, cs))
    ensures forall s :: 0 <= s <= SizeBound(outputs, coins, cs) ==> GetFee(1000 * r, s) == r * s
  {
    var bound := SizeBound(outputs, coins, cs);
    forall s | 0 <= s <= bound ensures GetFee(1000 * r, s) == r * s {
      MulMonotone(s, bound, 1000 * r);
      GetFeeWhole(r, s);
    }
  }

  /** At a whole rate the fee with change is the ideal fee less the shortfall. */
  lemma {:induction false} WholeRateFeeWithChange(outputs: seq<TxOut>, coins: seq<Utxo>, cs: Script, r: nat)
    requires coins != [] && Effective(coins, 1000 * r) >= SelectionTarget(outputs, 1000 * r)
    requires RateFits(outputs, coins, cs, r) && !NoChange(outputs, coins, cs, 1000 * r)
    ensures FeePaid(outputs, coins, cs, 1000 * r) + Shortfall(outputs, coins, r, true)
         == r * MaximumSignedVSize(Assemble(outputs, coins, cs, 1000 * r))
  {
    var rateK := 1000 * r;
    var tx := Assemble(outputs, coins, cs, rateK);
    var size := MaximumSignedVSize(tx);
    var change := ChangeAmount(outputs, coins, cs, rateK);
    var left := InputSum(coins) - OutputSum(outputs) - change;
    var base, changeSize := NotInputSize(outputs), OutputSize(TxOut(0, cs));
    var extraIn, extraOut := ExtraInputCount(coins), ExtraOutputCount(outputs);
    assert size == 68 * |coins| + base + changeSize + extraIn + extraOut by {
      AssembledSize(outputs, coins, cs, rateK);
    }
    assert FeeNeeded(outputs, coins, cs, rateK) == r * size by {
      AssembledSize(outputs, coins, cs, rateK);
      WholeRatePieces(outputs, coins, cs, r);
    }
    assert left + Deficit(coins, r * 68) == |coins| * (r * 68) + r * base + r * changeSize by {
      FeeBeforeAdjustment(outputs, coins, cs, rateK);
      WholeRatePieces(outputs, coins, cs, r);
    }
    Distribute5(size, r, 68, |coins|, base, changeSize, extraIn, extraOut);
    FeePaidIs(outputs, coins, cs, rateK);
  }

  /** What the coins contribute beyond the target. */
  function Excess(outputs: seq<TxOut>, coins: seq<Utxo>, rateK: nat): nat
    requires Effective(coins, rateK) >= SelectionTarget(outputs, rateK)
  {
    Effective(coins, rateK) - SelectionTarget(outputs, rateK)
  }

  /** Without change it is the ideal fee less the shortfall plus the excess. */
  lemma {:induction false} WholeRateFeeWithoutChangeIs(outputs: seq<TxOut>, coins: seq<Utxo>, cs: Script, r: nat)
    requires coins != [] && Effective(coins, 1000 * r) >= SelectionTarget(outputs, 1000 * r)
    requires RateFits(outputs, coins, cs, r) && NoChange(outputs, coins, cs, 1000 * r)
    ensures FeePaid(outputs, coins, cs, 1000 * r) + Shortfall(outputs, coins, r, false)
         == r * MaximumSignedVSize(Assemble(outputs, coins, cs, 1000 * r)) + Excess(outputs, coins, 1000 * r)
  {
    var rateK := 1000 * r;
    var size := MaximumSignedVSize(Assemble(outputs, coins, cs, rateK));
    var left := InputSum(coins) - OutputSum(outputs);
    var base, extraIn := NotInputSize(outputs), ExtraInputCount(coins);
    assert size == 68 * |coins| + base + extraIn by {
      AssembledSize(outputs, coins, cs, rateK);
    }
    assert left + Deficit(coins, r * 68) == |coins| * (r * 68) + r * base + Excess(outputs, coins, rateK) by {
      FeeBeforeAdjustment(outputs, coins, cs, rateK);
      WholeRatePieces(outputs, coins, cs, r);
    }
    Distribute3(size, r, 68, |coins|, base, extraIn);
    FeePaidIs(outputs, coins, cs, rateK);
  }

  /** That excess is below the least worthwhile change and its fee. */
  lemma {:induction false} WholeRateFeeWithoutChange(outputs: seq<TxOut>, coins: seq<Utxo>, cs: Script, r: nat)
    requires coins != [] && Effective(coins, 1000 * r) >= SelectionTarget(outputs, 1000 * r)
    requires RateFits(outputs, coins, cs, r) && NoChange(outputs, coins, cs, 1000 * r)
    ensures var ideal := r * MaximumSignedVSize(Assemble(outputs, coins, cs, 1000 * r));
            ideal <= FeePaid(outputs, coins, cs, 1000 * r) + Shortfall(outputs, coins, r, false)
                  < ideal + MinViableChange(cs) + ChangeFee(cs, 1000 * r)
  {
    hide MaximumSignedVSize, FeePaid, Shortfall, GetFee, Effective;
    WholeRateFeeWithoutChangeIs(outputs, coins, cs, r);
    FeeBeforeAdjustment(outputs, coins, cs, 1000 * r);
  }

  lemma {:induction false} Distribute3(s: int, r: int, k: int, n: int, a: int, b: int)
    requires s == k * n + a + b
    ensures r * s == n * (r * k) + r * a + r * b
  {
    assert r * (k * n) == n * (r * k);
  }

  lemma {:induction false} Distribute5(s: int, r: int, k: int, n: int, a: int, b: int, c: int, d: int)
    requires s == k * n + a + b + c + d
    ensures r * s == n * (r * k) + r * a + r * b + r * c + r * d
  {
    assert r * (k * n) == n * (r * k);
  }

  /** The caller-visible condition under which a whole-rate fee is exact. */
  predicate ExactFeeCondition(outputs: seq<TxOut>, coins: seq<Utxo>, r: nat) {
    r == 0 || (CoversOwnFee(coins, r * 68) && |coins| < 253 && ChangeFitsCount(outputs))
  }

  /** Exactly when the fee is rate times maximum signed size: with change, under that condition;
      without, when the excess equals the shortfall. */
  lemma {:induction false} ExactFeeIff(outputs: seq<TxOut>, coins: seq<Utxo>, cs: Script, r: nat)
    requires coins != [] && Effective(coins, 1000 * r) >= SelectionTarget(outputs, 1000 * r)
    requires RateFits(outputs, coins, cs, r)
    ensures FeePaid(outputs, coins, cs, 1000 * r) == r * MaximumSignedVSize(Assemble(outputs, coins, cs, 1000 * r))
            <==> if NoChange(outputs, coins, cs, 1000 * r)
                 then Excess(outputs, coins, 1000 * r) == Shortfall(outputs, coins, r, false)
                 else ExactFeeCondition(outputs, coins, r)
  {
    hide MaximumSignedVSize, FeePaid, Effective, SelectionTarget, RateFits;
    if NoChange(outputs, coins, cs, 1000 * r) {
      WholeRateFeeWithoutChangeIs(outputs, coins, cs, r);
    } else {
      WholeRateFeeWithChange(outputs, coins, cs, r);
      NoDeficit(coins, r * 68);
      ProductZero(r, ExtraInputCount(coins));
      ProductZero(r, ExtraOutputCount(outputs));
      ProductZero(r, 68);
    }
  }

  /** Exactly when a whole-rate fee is enough for the maximum signed size: with change, under that
      condition; without, when the excess makes up for the shortfall. */
  lemma {:induction false} FeeSufficesIff(outputs: seq<TxOut>, coins: seq<Utxo>, cs: Script, r: nat)
    requires coins != [] && Effective(coins, 1000 * r) >= SelectionTarget(outputs, 1000 * r)
    requires RateFits(outputs, coins, cs, r)
    ensures FeePaid(outputs, coins, cs, 1000 * r) >= r * MaximumSignedVSize(Assemble(outputs, coins, cs, 1000 * r))
            <==> if NoChange(outputs, coins, cs, 1000 * r)
                 then Excess(outputs, coins, 1000 * r) >= Shortfall(outputs, coins, r, false)
                 else ExactFeeCondition(outputs, coins, r)
  {
    hide MaximumSignedVSize, FeePaid, Excess, Effective, SelectionTarget, RateFits, ExactFeeCondition;
    if NoChange(outputs, coins, cs, 1000 * r) {
      WholeRateFeeWithoutChangeIs(outputs, coins, cs, r);
    } else {
      WholeRateFeeWithChange(outputs, coins, cs, r);
      ExactFeeIff(outputs, coins, cs, r);
    }
  }

  lemma {:induction false} ProductZero(r: nat, a: nat)
    ensures r * a >= 0 && (r * a == 0 <==> r == 0 || a == 0)
  {
  }

  /** A concrete shortfall: at 1 satoshi per vbyte, a first coin of 10 satoshi brings in less than
      the 68 its input costs, and the transaction pays 58 less than its size calls for. */
  lemma {:induction false} SmallCoinFallsShort(script: Script, o: OutPoint, o': OutPoint)
    requires |script| == 22 && IsWitnessProgram(script)
    ensures var outputs := [TxOut(50000, script)];
            var coins := [Utxo(o, 10), Utxo(o', 100000)];
            && GreedyPrefix(coins, coins, 1000, SelectionTarget(outputs, 1000))
            && FeePaid(outputs, coins, script, 1000) + 58 == MaximumSignedVSize(Assemble(outputs, coins, script, 1000))
  {
    var outputs, coins := [TxOut(50000, script)], [Utxo(o, 10), Utxo(o', 100000)];
    SmallCoinNumbers(script, o, o');
    assert GetFee(1000, 31) == 31;
    WholeRateFeeWithChange(outputs, coins, script, 1);
    assert Shortfall(outputs, coins, 1, true) == 58;
  }

  lemma {:induction false} SmallCoinNumbers(script: Script, o: OutPoint, o': OutPoint)
    requires |script| == 22 && IsWitnessProgram(script)
    ensures var outputs := [TxOut(50000, script)];
            var coins := [Utxo(o, 10), Utxo(o', 100000)];
            && OutputsSize(outputs) == 31 && SelectionTarget(outputs, 1000) == 50042
            && Effective(coins[..1], 1000) == 0 && Effective(coins, 1000) == 99932
            && Deficit(coins, 68) == 58 && MinViableChange(script) == 294
  {
    var outputs, coins := [TxOut(50000, script)], [Utxo(o, 10), Utxo(o', 100000)];
    AppendOutput([], TxOut(50000, script));
    assert [] + outputs == outputs;
    assert OutputSum(outputs) == 50000;
    var first := [Utxo(o, 10)];
    assert coins[..1] == first && first[..0] == [];
    assert Deficit(first, 68) == 58;
    InputSizeIs68(o);
    InputSizeIs68(o');
    InputSizeIs68(NULL_OUTPOINT);
    var cs, cs1 := CoinOutputs(coins, 1000), CoinOutputs(first, 1000);
    assert cs1[..0] == [] && cs1 == [CoinOutput(10, 68)];
    assert SelectedEffectiveValue(cs1) == 0;
    assert cs == [CoinOutput(10, 68), CoinOutput(100000, 68)] && cs[..1] == cs1;
    assert SelectedEffectiveValue(cs) == 99932;
    assert coins[..|coins| - 1] == first && Deficit(coins, 68) == Deficit(first, 68) + SatSub(68, 100000);
  }

  // ------------------------------------------------------------------ what fund_transaction returns

  /** The coins a funded transaction spends, with the values recorded for signing. */
  function Spent(psbt: Psbt): seq<Utxo>
    requires |psbt.utxos| == |psbt.unsignedTx.input|
  {
    seq(|psbt.utxos|, i requires 0 <= i < |psbt.utxos| =>
      Utxo(psbt.unsignedTx.input[i].previousOutput, psbt.utxos[i].value))
  }

  /** Every funded transaction is assembled from the coins it spends. */
  lemma {:induction false} FundedIsAssembled(e: Electrs, keys: seq<Script>, tx: Transaction, cs: Script, rateK: nat,
                                             prevTxid: Option<Txid>)
    requires FundingOf(e, keys, tx, cs, rateK, prevTxid).Funded?
    ensures var psbt := FundingOf(e, keys, tx, cs, rateK, prevTxid).psbt;
            && |psbt.utxos| == |psbt.unsignedTx.input|
            && Spent(psbt) != [] && Effective(Spent(psbt), rateK) >= SelectionTarget(tx.output, rateK)
            && psbt.unsignedTx == Assemble(tx.output, Spent(psbt), cs, rateK)
  {
    hide Effective, SelectionTarget, Items, Spendable, FundingOf;
    FundingIsGreedy(e, keys, tx, cs, rateK, prevTxid);
    var coins :| FundedBy(e, keys, tx, rateK, prevTxid, coins);
    assert Spent(FundedPsbt(e, tx.output, coins, cs, rateK)) == coins;
  }

  /** The estimate is sound for what a funded transaction spends. */
  predicate SoundFunding(psbt: Psbt, outputs: seq<TxOut>, rateK: nat)
    requires |psbt.utxos| == |psbt.unsignedTx.input|
  {
    CoversOwnFee(Spent(psbt), GetFee(rateK, 68)) && |psbt.utxos| < 253 && ChangeFitsCount(outputs)
  }

  /** Conservation and the fee, for every outcome of `fund_transaction` at any rate: inputs are
      outputs plus a fee; with change the fee is exactly that of the maximum signed size and the
      change is not dust; without change the fee is enough. */
  lemma {:induction false} FundedTransactionPays(e: Electrs, keys: seq<Script>, tx: Transaction, cs: Script, rateK: nat,
                                                 prevTxid: Option<Txid>) returns (fee: nat)
    requires FundingOf(e, keys, tx, cs, rateK, prevTxid).Funded?
    ensures var psbt := FundingOf(e, keys, tx, cs, rateK, prevTxid).psbt;
            var funded, n := psbt.unsignedTx, |tx.output|;
            && |psbt.utxos| == |funded.input|
            && InputSum(Spent(psbt)) == OutputSum(funded.output) + fee
            && (SoundFunding(psbt, tx.output, rateK) ==>
                  if funded.output == tx.output then fee >= GetFee(rateK, MaximumSignedVSize(funded))
                  else
                    && fee == GetFee(rateK, MaximumSignedVSize(funded))
                    && |funded.output| == n + 1 && funded.output[..n] == tx.output
                    && funded.output[n].scriptPubkey == cs && funded.output[n].value >= DustThreshold(cs))
  {
    hide FundingOf, Effective, GetFee, Assemble, MaximumSignedVSize, OutputSum, SelectionTarget, DustThreshold;
    FundedIsAssembled(e, keys, tx, cs, rateK, prevTxid);
    var psbt := FundingOf(e, keys, tx, cs, rateK, prevTxid).psbt;
    var coins := Spent(psbt);
    fee := FeePaid(tx.output, coins, cs, rateK);
    FeePaidIs(tx.output, coins, cs, rateK);
    if SoundFunding(psbt, tx.output, rateK) {
      if NoChange(tx.output, coins, cs, rateK) {
        FundedWithoutChange(tx.output, coins, cs, rateK);
      } else {
        FundedWithChange(tx.output, coins, cs, rateK);
      }
    }
  }

  /** At a whole rate the fee without change is below the ideal fee plus the least worthwhile change
      and its fee, so all three amounts are known exactly or up to that bound. */
  lemma {:induction false} FundedAtWholeRate(e: Electrs, keys: seq<Script>, tx: Transaction, cs: Script, r: nat,
                                             prevTxid: Option<Txid>) returns (fee: nat)
    requires FundingOf(e, keys, tx, cs, 1000 * r, prevTxid).Funded?
    ensures var psbt := FundingOf(e, keys, tx, cs, 1000 * r, prevTxid).psbt;
            var funded := psbt.unsignedTx;
            && |psbt.utxos| == |funded.input|
            && InputSum(Spent(psbt)) == OutputSum(funded.output) + fee
            && (RateFits(tx.output, Spent(psbt), cs, r) && CoversOwnFee(Spent(psbt), r * 68)
                && |psbt.utxos| < 253 && ChangeFitsCount(tx.output) ==>
                  var ideal := r * MaximumSignedVSize(funded);
                  if funded.output == tx.output
                  then ideal <= fee < ideal + MinViableChange(cs) + ChangeFee(cs, 1000 * r)
                  else fee == ideal)
  {
    hide FundingOf, Effective, GetFee, Assemble, MaximumSignedVSize, OutputSum, SelectionTarget, ChangeFee,
         MinViableChange, RateFits;
    FundedIsAssembled(e, keys, tx, cs, 1000 * r, prevTxid);
    var psbt := FundingOf(e, keys, tx, cs, 1000 * r, prevTxid).psbt;
    var coins := Spent(psbt);
    fee := FeePaid(tx.output, coins, cs, 1000 * r);
    FeePaidIs(tx.output, coins, cs, 1000 * r);
    if RateFits(tx.output, coins, cs, r) {
      NoDeficit(coins, r * 68);
      if NoChange(tx.output, coins, cs, 1000 * r) {
        WholeRateFeeWithoutChange(tx.output, coins, cs, r);
      } else {
        WholeRateFeeWithChange(tx.output, coins, cs, r);
      }
    }
  }
}
