/**
 Replace-by-fee on top of the light wallet (BIP 125, section "Implementation Details"):
 `bump_fee`, the measured `fee_rate`, and the loop that keeps bumping a payment until it is
 included. The theorems are about every transaction along any such chain of replacements.
 */
module FeeBump {
  import opened Prelude
  import opened Transactions
  import opened Wallet
  import opened WalletFees

  // ------------------------------------------------------------------ creating and replacing

  /** The outputs of `create_transaction`. */
  function PaymentOutputs(dest: Payload, value: nat, opReturn: Option<seq<Byte>>): seq<TxOut>
    requires dest.Valid() && (opReturn.Some? ==> |opReturn.value| == 32)
  {
    [TxOut(value, dest.ScriptPubkey())] +
    (if opReturn.Some? then [TxOut(0, OpReturnScript(opReturn.value))] else [])
  }

  /** `fee_rate.0.saturating_mul(1000)` */
  function RateK(rate: nat): nat {
    Min(rate * 1000, U64_MAX)
  }

  function ClearWitnesses(ins: seq<TxIn>): seq<TxIn> {
    seq(|ins|, i requires 0 <= i < |ins| => ins[i].(stack := []))
  }

  datatype Bump = Bumped(psbt: Psbt) | TooManyReturnToSelfAddresses | NoReturnPanic | NotFunded(why: Funding)

  function BumpOf(e: Electrs, keys: seq<Script>, txid: Txid, tx: Transaction, dest: Payload, rate: nat): Bump {
    match ExtractReturnToSelfAddress(tx, dest)
    case TooMany => TooManyReturnToSelfAddresses
    case Absent => NoReturnPanic
    case Found(idx, payload) =>
      ReturnToSelfIsAnOutput(tx, dest);
      var stripped := Transaction(ClearWitnesses(tx.input), tx.output[..idx] + tx.output[idx + 1..]);
      match FundingOf(e, keys, stripped, payload.ScriptPubkey(), RateK(rate), Some(txid)) {
        case Funded(psbt) => Bumped(psbt)
        case failed => NotFunded(failed)
      }
  }

  lemma {:induction false} IndexedOutputAddressesAreOutputs(outs: seq<TxOut>, i: nat)
    requires i <= |outs|
    ensures forall p :: p in IndexedOutputAddresses(outs, i) ==>
              p.0 < |outs| && FromScript(outs[p.0].scriptPubkey) == Some(p.1) && p.1.Valid()
    decreases |outs| - i
  {
    if i < |outs| {
      IndexedOutputAddressesAreOutputs(outs, i + 1);
      if FromScript(outs[i].scriptPubkey).Some? {
        FromScriptRoundTrip(outs[i].scriptPubkey);
      }
    }
  }

  lemma {:induction false} WithoutIsSubset(addresses: seq<(nat, Payload)>, dest: Payload)
    ensures forall p :: p in Without(addresses, dest) ==> p in addresses && p.1 != dest
  {
    if addresses != [] {
      WithoutIsSubset(addresses[1..], dest);
    }
  }

  lemma {:induction false} ReturnToSelfIsAnOutput(tx: Transaction, dest: Payload)
    ensures match ExtractReturnToSelfAddress(tx, dest)
            case Found(idx, p) =>
              && idx < |tx.output| && p != dest
              && p.Valid() && p.ScriptPubkey() == tx.output[idx].scriptPubkey
            case _ => true
  {
    IndexedOutputAddressesAreOutputs(tx.output, 0);
    WithoutIsSubset(IndexedOutputAddresses(tx.output, 0), dest);
    match ExtractReturnToSelfAddress(tx, dest)
    case Found(idx, p) =>
      assert (idx, p) in Without(IndexedOutputAddresses(tx.output, 0), dest);
      FromScriptRoundTrip(tx.output[idx].scriptPubkey);
    case _ =>
  }

  /** `bump_fee` up to signing: take the change output out, clear the witnesses, fund again. */
  method BumpFee(e: Electrs, keys: seq<Script>, txid: Txid, tx: Transaction, dest: Payload, rate: nat)
    returns (r: Bump)
    requires match ExtractReturnToSelfAddress(tx, dest)
             case Found(idx, _) =>
               idx < |tx.output| &&
               FitsU64(e, keys, Transaction(ClearWitnesses(tx.input), tx.output[..idx] + tx.output[idx + 1..]),
                       Some(txid), RateK(rate))
             case _ => true
    ensures r == BumpOf(e, keys, txid, tx, dest, rate)
  {
    var existing := tx;
    var returnToSelf := ExtractReturnToSelfAddress(existing, dest);
    match returnToSelf {
      case TooMany => return TooManyReturnToSelfAddresses;
      case Absent => return NoReturnPanic;
      case Found(idx, payload) =>
        ReturnToSelfIsAnOutput(tx, dest);
        existing := existing.(output := existing.output[..idx] + existing.output[idx + 1..]);
        existing := existing.(input := ClearWitnesses(existing.input));
        var funding := FundTransaction(e, keys, existing, payload.ScriptPubkey(), RateK(rate), Some(txid));
        match funding {
          case Funded(psbt) => return Bumped(psbt);
          case _ => return NotFunded(funding);
        }
    }
  }

  // ------------------------------------------------------------------ payments and their coins

  type Ledger = map<OutPoint, nat>

  predicate InputsKnown(tx: Transaction, values: Ledger) {
    forall i :: 0 <= i < |tx.input| ==> tx.input[i].previousOutput in values
  }

  function CoinsOf(tx: Transaction, values: Ledger): seq<Utxo>
    requires InputsKnown(tx, values)
  {
    seq(|tx.input|, i requires 0 <= i < |tx.input| =>
      Utxo(tx.input[i].previousOutput, values[tx.input[i].previousOutput]))
  }

  /** `fee_rate`: fee divided by the actual size, rounded down. */
  function FeeRate(tx: Transaction, values: Ledger): Option<nat>
    requires InputsKnown(tx, values)
  {
    CheckedDiv(SatSub(InputSum(CoinsOf(tx, values)), OutputSum(tx.output)), VSize(tx))
  }

  function CheckedDiv(a: nat, b: nat): Option<nat> {
    if b == 0 then None else Some(a / b)
  }

  /** The measured rate is the fee per vbyte, rounded down. */
  lemma {:induction false} FeeRateBounds(tx: Transaction, values: Ledger)
    requires InputsKnown(tx, values)
    ensures FeeRate(tx, values).None? <==> VSize(tx) == 0
    ensures var fee := Max(0, InputSum(CoinsOf(tx, values)) - OutputSum(tx.output));
            FeeRate(tx, values).Some? ==>
              FeeRate(tx, values).value * VSize(tx) <= fee < (FeeRate(tx, values).value + 1) * VSize(tx)
  {
    hide VSize, CoinsOf, OutputSum;
    var fee, size := SatSub(InputSum(CoinsOf(tx, values)), OutputSum(tx.output)), VSize(tx);
    if size > 0 {
      QuotientBounds(fee, size);
    }
  }

  lemma {:induction false} QuotientBounds(a: nat, b: nat)
    requires b > 0
    ensures (a / b) * b <= a < (a / b + 1) * b
  {
    assert (a / b + 1) * b == (a / b) * b + b;
  }

  /** Electrs reports the values that the outpoints really have. */
  ghost predicate Truthful(e: Electrs, values: Ledger) {
    && (forall o :: o in e.prevValues ==> o in values && values[o] == e.prevValues[o])
    && (forall s, i :: s in e.utxosOf && 0 <= i < |e.utxosOf[s]| ==>
          e.utxosOf[s][i].outpoint in values && values[e.utxosOf[s][i].outpoint] == e.utxosOf[s][i].value)
  }

  predicate TrueCoins(coins: seq<Utxo>, values: Ledger) {
    forall i :: 0 <= i < |coins| ==> coins[i].outpoint in values && values[coins[i].outpoint] == coins[i].value
  }

  /** `tx` is a signed payment of `base`, funded at `rateK` by the greedy rule with change to `cs`. */
  ghost predicate Pays(tx: Transaction, base: seq<TxOut>, cs: Script, rateK: nat, values: Ledger) {
    && InputsKnown(tx, values)
    && var coins := CoinsOf(tx, values);
    && GreedyPrefix(coins, coins, rateK, SelectionTarget(base, rateK))
    && SignedVersion(Assemble(base, coins, cs, rateK), tx)
  }

  lemma {:induction false} AddressItemsAreTrue(e: Electrs, addresses: seq<Script>, values: Ledger)
    requires Truthful(e, values)
    ensures forall it :: it in AddressItems(e, addresses) && it.Coin? ==>
              it.utxo.outpoint in values && values[it.utxo.outpoint] == it.utxo.value
  {
    if addresses != [] {
      AddressItemsAreTrue(e, addresses[1..], values);
    }
  }

  lemma {:induction false} SpendableAreItems(items: seq<Item>, prevTxid: Option<Txid>)
    ensures forall i :: 0 <= i < |Spendable(items, prevTxid)| ==> Coin(Spendable(items, prevTxid)[i]) in items
  {
    if items != [] {
      SpendableAreItems(items[1..], prevTxid);
    }
  }

  lemma {:induction false} SpendableAreTrue(e: Electrs, ins: seq<TxIn>, keys: seq<Script>, prevTxid: Option<Txid>,
                                            values: Ledger)
    requires Truthful(e, values)
    ensures TrueCoins(Spendable(Items(e, ins, keys), prevTxid), values)
  {
    SpendableAreItems(Items(e, ins, keys), prevTxid);
    AddressItemsAreTrue(e, keys, values);
  }

  /** A funded and signed transaction pays its outputs, whatever inputs it started from. */
  lemma {:induction false} FundedPays(e: Electrs, keys: seq<Script>, tx: Transaction, cs: Script, rateK: nat,
                                      prevTxid: Option<Txid>, signed: Transaction, values: Ledger)
    requires Truthful(e, values)
    requires FundingOf(e, keys, tx, cs, rateK, prevTxid).Funded?
    requires SignedVersion(FundingOf(e, keys, tx, cs, rateK, prevTxid).psbt.unsignedTx, signed)
    ensures Pays(signed, tx.output, cs, rateK, values)
    ensures CoinsOf(signed, values) <= Spendable(Items(e, tx.input, keys), prevTxid)
    ensures FundedBy(e, keys, tx, rateK, prevTxid, CoinsOf(signed, values))
  {
    hide Effective, Assemble, Items, Spendable, Select, GetFee;
    var all := Spendable(Items(e, tx.input, keys), prevTxid);
    var target := SelectionTarget(tx.output, rateK);
    FundingIsGreedy(e, keys, tx, cs, rateK, prevTxid);
    var coins :| FundedBy(e, keys, tx, rateK, prevTxid, coins);
    SpendableAreTrue(e, tx.input, keys, prevTxid, values);
    assert TrueCoins(coins, values) by {
      assert forall i :: 0 <= i < |coins| ==> coins[i] == all[i];
    }
    assert forall i :: 0 <= i < |signed.input| ==> signed.input[i].previousOutput == InputsOf(coins)[i].previousOutput;
    assert CoinsOf(signed, values) == coins;
  }

  // ------------------------------------------------------------------ one replacement

  /** There is a change output, with a value, to an address other than the destination. */
  predicate ReturnsTo(change: seq<TxOut>, dest: Payload, p: Payload) {
    |change| == 1 && change[0].value > 0 && FromScript(change[0].scriptPubkey) == Some(p) && p != dest
  }

  /** The return-to-self lookup on a payment finds exactly the change output, if there is one. */
  lemma {:induction false} ReturnToSelfIsChange(dest: Payload, value: nat, opReturn: Option<seq<Byte>>,
                                                change: seq<TxOut>, ins: seq<TxIn>)
    requires dest.Valid() && (opReturn.Some? ==> |opReturn.value| == 32) && |change| <= 1
    ensures var base := PaymentOutputs(dest, value, opReturn);
            match ExtractReturnToSelfAddress(Transaction(ins, base + change), dest)
            case Found(idx, p) => idx == |base| && ReturnsTo(change, dest, p)
            case Absent => forall p :: !ReturnsTo(change, dest, p)
            case TooMany => false
  {
    var base := PaymentOutputs(dest, value, opReturn);
    var outs := base + change;
    ScriptPubkeyRoundTrip(dest);
    var n := |base|;
    if change == [] {
      assert IndexedOutputAddresses(outs, n) == [];
    } else {
      assert outs[n] == change[0];
      assert IndexedOutputAddresses(outs, n + 1) == [];
      assert |IndexedOutputAddresses(outs, n)| <= 1;
    }
    var tail := IndexedOutputAddresses(outs, n);
    assert IndexedOutputAddresses(outs, 1) == tail by {
      if opReturn.Some? {
        assert outs[1] == TxOut(0, OpReturnScript(opReturn.value));
      }
    }
    assert outs[0] == TxOut(value, dest.ScriptPubkey());
    assert Without(tail, dest) == [] || (|tail| == 1 && Without(tail, dest) == tail) by {
      if |tail| == 1 {
        assert tail[1..] == [];
      }
    }
    if value > 0 {
      assert IndexedOutputAddresses(outs, 0) == [(0, dest)] + tail;
      assert ([(0, dest)] + tail)[1..] == tail;
    }
  }

  lemma {:induction false} EffectiveAntitone(coins: seq<Utxo>, rateK: nat, rateK': nat)
    requires rateK <= rateK'
    ensures Effective(coins, rateK') <= Effective(coins, rateK)
  {
    hide GetFee;
    if coins != [] {
      var init, last := coins[..|coins| - 1], coins[|coins| - 1];
      EffectiveAntitone(init, rateK, rateK');
      assert CoinOutputs(coins, rateK)[..|init|] == CoinOutputs(init, rateK);
      assert CoinOutputs(coins, rateK')[..|init|] == CoinOutputs(init, rateK');
      GetFeeMonotone(rateK, rateK', MaximumSignedInputSize(last.outpoint), MaximumSignedInputSize(last.outpoint));
    }
  }

  /** Replaced inputs come first: the usable coins start with the old coins, or are cut off inside them. */
  lemma {:induction false} OldCoinsComeFirst(e: Electrs, ins: seq<TxIn>, rest: seq<Item>, coins: seq<Utxo>, txid: Txid)
    requires |ins| == |coins|
    requires forall i :: 0 <= i < |ins| ==> ins[i].previousOutput == coins[i].outpoint && coins[i].outpoint.txid != txid
    requires forall i :: 0 <= i < |ins| && coins[i].outpoint in e.prevValues ==>
               e.prevValues[coins[i].outpoint] == coins[i].value
    ensures var items := seq(|ins|, i requires 0 <= i < |ins| => PrevItem(e, ins[i])) + rest;
            var all := Spendable(items, Some(txid));
            coins <= all || (all <= coins && |all| < |coins|)
  {
    var items := seq(|ins|, i requires 0 <= i < |ins| => PrevItem(e, ins[i])) + rest;
    if ins != [] && items[0].Coin? {
      var items' := seq(|ins[1..]|, i requires 0 <= i < |ins[1..]| => PrevItem(e, ins[1..][i])) + rest;
      assert items[1..] == items';
      OldCoinsComeFirst(e, ins[1..], rest, coins[1..], txid);
      assert Spendable(items, Some(txid)) == [coins[0]] + Spendable(items', Some(txid));
    }
  }

  /** What `bump_fee` needs to know about its predecessor. */
  ghost predicate Replaces(e: Electrs, keys: seq<Script>, txid: Txid, tx: Transaction, dest: Payload, rate: nat,
                           next: Transaction)
  {
    && BumpOf(e, keys, txid, tx, dest, rate).Bumped?
    && SignedVersion(BumpOf(e, keys, txid, tx, dest, rate).psbt.unsignedTx, next)
  }

  /** A transaction never spends its own outputs. */
  predicate NotSelfSpending(txid: Txid, tx: Transaction) {
    forall i :: 0 <= i < |tx.input| ==> tx.input[i].previousOutput.txid != txid
  }

  /** A payment consists of its fixed outputs and at most one change output. */
  lemma {:induction false} PaymentShape(tx: Transaction, base: seq<TxOut>, cs: Script, rateK: nat, values: Ledger)
      returns (change: seq<TxOut>)
    requires Pays(tx, base, cs, rateK, values)
    ensures tx.output == base + change && |change| <= 1
    ensures change != [] ==> change[0].scriptPubkey == cs && change[0].value > 0
  {
    hide Effective, GetFee, Assemble, CoinsOf;
    FeePaidIs(base, CoinsOf(tx, values), cs, rateK);
    change := tx.output[|base|..];
  }

  /** A bump works on the predecessor with its change output removed and its witnesses cleared. */
  lemma {:induction false} BumpStrips(e: Electrs, keys: seq<Script>, txid: Txid, tx: Transaction, dest: Payload,
                                      value: nat, opReturn: Option<seq<Byte>>, cs: Script, rateK: nat, rate: nat,
                                      values: Ledger)
    requires dest.Valid() && (opReturn.Some? ==> |opReturn.value| == 32)
    requires Pays(tx, PaymentOutputs(dest, value, opReturn), cs, rateK, values)
    requires BumpOf(e, keys, txid, tx, dest, rate).Bumped?
    ensures var stripped := Transaction(ClearWitnesses(tx.input), PaymentOutputs(dest, value, opReturn));
            FundingOf(e, keys, stripped, cs, RateK(rate), Some(txid))
            == Funded(BumpOf(e, keys, txid, tx, dest, rate).psbt)
    ensures tx.output != PaymentOutputs(dest, value, opReturn)
  {
    hide FundingOf, ExtractReturnToSelfAddress, PaymentOutputs, Pays, FromScript, RateK;
    var base := PaymentOutputs(dest, value, opReturn);
    var change := PaymentShape(tx, base, cs, rateK, values);
    assert tx == Transaction(tx.input, base + change);
    ReturnToSelfIsChange(dest, value, opReturn, change, tx.input);
    assert ExtractReturnToSelfAddress(tx, dest).index == |base|;
    FromScriptRoundTrip(cs);
    assert tx.output[..|base|] + tx.output[|base| + 1..] == base;
  }

  /** Exactly when a payment can be replaced: it has a change output, the wallet holds its key, and
      the old inputs and the coins after them reach the target at the new rate before an unknown
      coin comes up. */
  lemma {:induction false} BumpSucceedsIff(e: Electrs, keys: seq<Script>, txid: Txid, tx: Transaction, dest: Payload,
                                           value: nat, opReturn: Option<seq<Byte>>, cs: Script, rateK: nat, rate: nat,
                                           values: Ledger)
    requires dest.Valid() && (opReturn.Some? ==> |opReturn.value| == 32)
    requires Pays(tx, PaymentOutputs(dest, value, opReturn), cs, rateK, values)
    requires FromScript(cs).Some? && FromScript(cs).value != dest
    ensures var base := PaymentOutputs(dest, value, opReturn);
            var stripped := Transaction(ClearWitnesses(tx.input), base);
            BumpOf(e, keys, txid, tx, dest, rate).Bumped? <==>
              && tx.output != base && cs in keys
              && exists coins :: FundedBy(e, keys, stripped, RateK(rate), Some(txid), coins)
    ensures BumpOf(e, keys, txid, tx, dest, rate) == NoReturnPanic
            <==> tx.output == PaymentOutputs(dest, value, opReturn)
    ensures !BumpOf(e, keys, txid, tx, dest, rate).TooManyReturnToSelfAddresses?
  {
    hide FundingOf, FundedBy, ExtractReturnToSelfAddress, PaymentOutputs, Pays, FromScript, RateK;
    var base := PaymentOutputs(dest, value, opReturn);
    var stripped := Transaction(ClearWitnesses(tx.input), base);
    var change := PaymentShape(tx, base, cs, rateK, values);
    FundingIsGreedy(e, keys, stripped, cs, RateK(rate), Some(txid));
    assert tx == Transaction(tx.input, base + change);
    ReturnToSelfIsChange(dest, value, opReturn, change, tx.input);
    if change == [] {
      assert tx.output == base;
    } else {
      var p := FromScript(cs).value;
      assert ReturnsTo(change, dest, p);
      assert ExtractReturnToSelfAddress(tx, dest) == Found(|base|, p);
      FromScriptRoundTrip(cs);
      assert tx.output[..|base|] + tx.output[|base| + 1..] == base;
    }
  }

  /** One replacement: the payment outputs and the change script stay, the first input stays, and
      at an equal or higher rate every input stays, in place. */
  lemma {:induction false} ReplacementStep(e: Electrs, keys: seq<Script>, txid: Txid, tx: Transaction, dest: Payload,
                                           value: nat, opReturn: Option<seq<Byte>>, cs: Script, rateK: nat, rate: nat,
                                           next: Transaction, values: Ledger)
    requires dest.Valid() && (opReturn.Some? ==> |opReturn.value| == 32)
    requires Pays(tx, PaymentOutputs(dest, value, opReturn), cs, rateK, values)
    requires Replaces(e, keys, txid, tx, dest, rate, next) && Truthful(e, values) && NotSelfSpending(txid, tx)
    ensures Pays(next, PaymentOutputs(dest, value, opReturn), cs, RateK(rate), values)
    ensures CoinsOf(next, values)[0] == CoinsOf(tx, values)[0]
    ensures rateK <= RateK(rate) ==> CoinsOf(tx, values) <= CoinsOf(next, values)
    ensures tx.output != PaymentOutputs(dest, value, opReturn)
  {
    hide Effective, GetFee, FundingOf, Assemble, Spendable, BumpOf, PaymentOutputs, NotInputSize, OutputSum;
    var base := PaymentOutputs(dest, value, opReturn);
    var stripped := Transaction(ClearWitnesses(tx.input), base);
    BumpStrips(e, keys, txid, tx, dest, value, opReturn, cs, rateK, rate, values);
    FundedPays(e, keys, stripped, cs, RateK(rate), Some(txid), next, values);
    var coins, coins' := CoinsOf(tx, values), CoinsOf(next, values);
    var all := Spendable(Items(e, stripped.input, keys), Some(txid));
    OldCoinsComeFirst(e, stripped.input, AddressItems(e, keys), coins, txid);
    assert coins <= all || (all <= coins && |all| < |coins|);
    assert coins'[0] == all[0] && coins[0] == all[0];
    if rateK <= RateK(rate) && |coins'| < |coins| {
      assert coins' == coins[..|coins'|];
      EffectiveAntitone(coins', rateK, RateK(rate));
      GetFeeMonotone(rateK, RateK(rate), NotInputSize(base), NotInputSize(base));
      assert false;
    }
  }

  // ------------------------------------------------------------------ measured fee rates

  /** The conditions under which the estimate behind a funded transaction is sound: every coin is
      worth its own input fee, the input count takes one byte, and no fee saturates. */
  predicate SoundEstimate(tx: Transaction, base: seq<TxOut>, rate: nat, values: Ledger)
    requires InputsKnown(tx, values)
  {
    && CoversOwnFee(CoinsOf(tx, values), GetFee(RateK(rate), 68))
    && |tx.input| < 253
    && 1000 * rate * MaximumSignedVSize(tx) <= U64_MAX
    && ChangeFitsCount(base)
  }

  lemma {:induction false} SameMaximumSize(a: Transaction, b: Transaction)
    requires SignedVersion(a, b) && |a.input| > 0
    ensures MaximumSignedVSize(a) == MaximumSignedVSize(b)
  {
    MaximumSignedVSizeClosedForm(a);
    MaximumSignedVSizeClosedForm(b);
  }

  /** The rate measured on a payment is never below the rate it was funded at. */
  lemma {:induction false} MeasuredRateAtLeastFunded(tx: Transaction, base: seq<TxOut>, cs: Script, rate: nat,
                                                     values: Ledger)
    requires Pays(tx, base, cs, RateK(rate), values)
    requires SoundEstimate(tx, base, rate, values)
    ensures FeeRate(tx, values).Some? && FeeRate(tx, values).value >= rate
  {
    hide Effective, GetFee, Assemble, MaximumSignedVSize, OutputSum, VSize;
    var coins := CoinsOf(tx, values);
    var draft := Assemble(base, coins, cs, RateK(rate));
    var size := MaximumSignedVSize(draft);
    SameMaximumSize(draft, tx);
    SignedNeverLarger(draft, tx);
    MulMonotone(1, size, 1000 * rate);
    assert RateK(rate) == 1000 * rate;
    assert FeePaid(base, coins, cs, RateK(rate)) >= GetFee(1000 * rate, size) by {
      if NoChange(base, coins, cs, RateK(rate)) {
        FundedWithoutChange(base, coins, cs, RateK(rate));
      } else {
        FundedWithChange(base, coins, cs, RateK(rate));
      }
    }
    GetFeeWhole(rate, size);
    var fee := SatSub(InputSum(coins), OutputSum(tx.output));
    assert fee == FeePaid(base, coins, cs, RateK(rate));
    MulMonotone(VSize(tx), size, rate);
    QuotientAtLeast(fee, VSize(tx), rate);
  }

  lemma {:induction false} QuotientAtLeast(a: nat, b: nat, q: nat)
    requires b > 0 && a >= q * b
    ensures a / b >= q
  {
    MulMonotone(a / b + 1, q, b);
  }

  // ------------------------------------------------------------------ absolute fees

  /** What a transaction pays to the miner. */
  function PaidFee(tx: Transaction, values: Ledger): int
    requires InputsKnown(tx, values)
  {
    InputSum(CoinsOf(tx, values)) - OutputSum(tx.output)
  }

  /** With change, a sound payment pays exactly its rate times its maximum signed size. */
  lemma {:induction false} FeeWithChange(tx: Transaction, base: seq<TxOut>, cs: Script, rate: nat, values: Ledger)
    requires Pays(tx, base, cs, RateK(rate), values) && SoundEstimate(tx, base, rate, values)
    requires tx.output != base
    ensures PaidFee(tx, values) == rate * MaximumSignedVSize(tx)
  {
    hide Effective, GetFee, Assemble, MaximumSignedVSize, OutputSum;
    var coins := CoinsOf(tx, values);
    var funded := Assemble(base, coins, cs, RateK(rate));
    SameMaximumSize(funded, tx);
    SignedNeverLarger(funded, tx);
    MulMonotone(1, MaximumSignedVSize(tx), 1000 * rate);
    FeePaidIs(base, coins, cs, RateK(rate));
    FundedWithChange(base, coins, cs, RateK(rate));
    GetFeeWhole(rate, MaximumSignedVSize(tx));
  }

  lemma {:induction false} InputSumSplit(coins: seq<Utxo>, k: nat)
    requires k <= |coins|
    ensures InputSum(coins) == InputSum(coins[..k]) + InputSum(coins[k..])
    decreases |coins|
  {
    if k < |coins| {
      var init := coins[..|coins| - 1];
      InputSumSplit(init, k);
      assert init[..k] == coins[..k] && init[k..] == coins[k..][..|coins| - k - 1];
    } else {
      assert coins[..k] == coins;
    }
  }

  /** Coins that a replacement adds. */
  function Added(tx: Transaction, next: Transaction, values: Ledger): seq<Utxo>
    requires InputsKnown(tx, values) && InputsKnown(next, values) && |tx.input| <= |next.input|
  {
    CoinsOf(next, values)[|tx.input|..]
  }

  /** `next` replaces `tx` at a higher rate, and both estimates are sound. */
  ghost predicate SoundReplacement(tx: Transaction, next: Transaction, base: seq<TxOut>, cs: Script, rate: nat,
                                   rate': nat, values: Ledger)
  {
    && InputsKnown(tx, values) && InputsKnown(next, values)
    && Pays(tx, base, cs, RateK(rate), values) && SoundEstimate(tx, base, rate, values)
    && Pays(next, base, cs, RateK(rate'), values) && SoundEstimate(next, base, rate', values)
    && rate < rate' && tx.output != base && CoinsOf(tx, values) <= CoinsOf(next, values)
  }

  /** The fee difference in both cases: a replacement with change pays its higher rate for at least
      the old size; one without change gives up the old change and whatever it added. */
  lemma {:induction false} FeeDifference(tx: Transaction, next: Transaction, base: seq<TxOut>, cs: Script, rate: nat,
                                         rate': nat, values: Ledger)
    requires SoundReplacement(tx, next, base, cs, rate, rate', values)
    ensures |tx.output| == |base| + 1 && tx.output[|base|].value > 0 && |tx.input| <= |next.input|
    ensures var difference := PaidFee(next, values) - PaidFee(tx, values);
            if next.output == base then difference == InputSum(Added(tx, next, values)) + tx.output[|base|].value
            else difference >= (rate' - rate) * MaximumSignedVSize(next)
  {
    hide PaidFee, Added, MaximumSignedVSize, Pays, SoundEstimate;
    var change := PaymentShape(tx, base, cs, RateK(rate), values);
    assert |CoinsOf(tx, values)| == |tx.input| && |CoinsOf(next, values)| == |next.input|;
    if next.output == base {
      assert tx.output == base + [change[0]];
      DroppedChange(tx, next, base, change[0], values);
    } else {
      FeeWithChange(tx, base, cs, rate, values);
      FeeWithChange(next, base, cs, rate', values);
      SizeGrows(tx, next, base, cs, rate, rate', values);
      var old', size := MaximumSignedVSize(tx), MaximumSignedVSize(next);
      MulMonotone(old', size, rate);
      assert rate' * size == rate * size + (rate' - rate) * size;
    }
  }

  lemma {:induction false} DroppedChange(tx: Transaction, next: Transaction, base: seq<TxOut>, change: TxOut,
                                         values: Ledger)
    requires InputsKnown(tx, values) && InputsKnown(next, values) && CoinsOf(tx, values) <= CoinsOf(next, values)
    requires tx.output == base + [change] && next.output == base
    ensures |tx.input| <= |next.input|
    ensures PaidFee(next, values) - PaidFee(tx, values) == InputSum(Added(tx, next, values)) + change.value
  {
    var k := |tx.input|;
    assert |CoinsOf(tx, values)| == k;
    assert CoinsOf(next, values)[..k] == CoinsOf(tx, values);
    InputSumSplit(CoinsOf(next, values), k);
    AppendOutput(base, change);
  }

  /** More inputs and the same outputs, up to the value of the change: never smaller. */
  lemma {:induction false} SizeGrows(tx: Transaction, next: Transaction, base: seq<TxOut>, cs: Script, rate: nat,
                                     rate': nat, values: Ledger)
    requires SoundReplacement(tx, next, base, cs, rate, rate', values) && next.output != base
    ensures 0 < MaximumSignedVSize(tx) <= MaximumSignedVSize(next)
  {
    hide Effective, GetFee, Assemble, Pays, MaximumSignedVSize;
    var change := PaymentShape(tx, base, cs, RateK(rate), values);
    var change' := PaymentShape(next, base, cs, RateK(rate'), values);
    PaysFromCoins(tx, base, cs, RateK(rate), values);
    assert tx.output == base + [change[0]] && next.output == base + [change'[0]];
    AppendOutput(base, change[0]);
    AppendOutput(base, change'[0]);
    MaximumSignedVSizeClosedForm(tx);
    MaximumSignedVSizeClosedForm(next);
  }

  lemma {:induction false} PaysFromCoins(tx: Transaction, base: seq<TxOut>, cs: Script, rateK: nat, values: Ledger)
    requires Pays(tx, base, cs, rateK, values)
    ensures |tx.input| > 0
  {
    hide Effective, Assemble, SelectionTarget;
  }

  /** Rule 3 of BIP 125 along every replacement: the absolute fee strictly rises. */
  lemma {:induction false} FeeRises(tx: Transaction, next: Transaction, base: seq<TxOut>, cs: Script, rate: nat,
                                    rate': nat, values: Ledger)
    requires SoundReplacement(tx, next, base, cs, rate, rate', values)
    ensures PaidFee(next, values) > PaidFee(tx, values)
  {
    hide PaidFee, MaximumSignedVSize, Pays, SoundEstimate;
    FeeDifference(tx, next, base, cs, rate, rate', values);
    if next.output != base {
      SizeGrows(tx, next, base, cs, rate, rate', values);
      MulMonotone(1, rate' - rate, MaximumSignedVSize(next));
    }
  }

  /** Rule 4 of BIP 125: the difference also pays for relaying the replacement at `relay` satoshi per
      vbyte. */
  predicate PaysForRelay(tx: Transaction, next: Transaction, relay: nat, values: Ledger)
    requires InputsKnown(tx, values) && InputsKnown(next, values)
  {
    PaidFee(next, values) >= PaidFee(tx, values) + relay * VSize(next)
  }

  /** Exactly when it does, for any relay rate not above the increase of the fee rate: always with
      change, and without change if the old change and the added coins are worth it. */
  lemma {:induction false} PaysForRelayIff(tx: Transaction, next: Transaction, base: seq<TxOut>, cs: Script, rate: nat,
                                           rate': nat, relay: nat, values: Ledger)
    requires SoundReplacement(tx, next, base, cs, rate, rate', values) && relay <= rate' - rate
    ensures |tx.output| == |base| + 1 && |tx.input| <= |next.input|
    ensures PaysForRelay(tx, next, relay, values) <==>
              || next.output != base
              || InputSum(Added(tx, next, values)) + tx.output[|base|].value >= relay * VSize(next)
  {
    hide PaidFee, MaximumSignedVSize, VSize, Pays, SoundEstimate, Added;
    FeeDifference(tx, next, base, cs, rate, rate', values);
    if next.output != base {
      SignedSizeBound(next, base, cs, RateK(rate'), values);
      var size, v := MaximumSignedVSize(next), VSize(next);
      MulMonotone(v, size, relay);
      MulMonotone(relay, rate' - rate, size);
    }
  }

  lemma {:induction false} SignedSizeBound(tx: Transaction, base: seq<TxOut>, cs: Script, rateK: nat, values: Ledger)
    requires Pays(tx, base, cs, rateK, values)
    ensures VSize(tx) <= MaximumSignedVSize(tx)
  {
    hide Effective, GetFee, Assemble, MaximumSignedVSize, VSize;
    var funded := Assemble(base, CoinsOf(tx, values), cs, rateK);
    SameMaximumSize(funded, tx);
    SignedNeverLarger(funded, tx);
  }

  // A replacement that breaks rule 4: five coins of 10153, a payment of 50001, rates 1 and 2.

  function FiveCoins(): seq<Utxo> {
    seq(5, i requires 0 <= i < 5 => Utxo(OutPoint(1, i), 10153))
  }

  function FiveValues(): Ledger {
    map i: nat | 0 <= i < 5 :: OutPoint(1, i) := 10153
  }

  lemma {:induction false} FiveCoinsSum(j: nat, r: nat)
    requires j <= 5 && (r == 1 || r == 2)
    ensures InputSum(FiveCoins()[..j]) == 10153 * j && CoversOwnFee(FiveCoins()[..j], 68 * r)
    ensures Effective(FiveCoins()[..j], 1000 * r) == (10153 - 68 * r) * j
  {
    hide GetFee, Effective;
    var coins := FiveCoins()[..j];
    if j > 0 {
      FiveCoinsSum(j - 1, r);
      assert coins[..j - 1] == FiveCoins()[..j - 1];
    }
    GetFeeWhole(r, 68);
    NoDeficit(coins, 68 * r);
    ValueIsEffectivePlusFees(coins, 1000 * r);
  }

  lemma {:induction false} FiveCoinsTarget(script: Script, r: nat)
    requires |script| == 22 && IsWitnessProgram(script) && (r == 1 || r == 2)
    ensures var base := [TxOut(50001, script)];
            && OutputsSize(base) == 31 && OutputSum(base) == 50001
            && SelectionTarget(base, 1000 * r) == 50001 + 42 * r
            && ChangeFee(script, 1000 * r) == 31 * r && MinViableChange(script) == 294
            && GreedyPrefix(FiveCoins(), FiveCoins(), 1000 * r, SelectionTarget(base, 1000 * r))
  {
    hide Effective;
    AppendOutput([], TxOut(50001, script));
    assert [] + [TxOut(50001, script)] == [TxOut(50001, script)];
    assert FiveCoins()[..5] == FiveCoins();
    InputSizeIs68(NULL_OUTPOINT);
    forall j | 0 <= j <= 5 ensures Effective(FiveCoins()[..j], 1000 * r) == (10153 - 68 * r) * j {
      FiveCoinsSum(j, r);
    }
  }

  lemma {:induction false} FiveCoinsReach(script: Script, r: nat)
    requires |script| == 22 && IsWitnessProgram(script) && (r == 1 || r == 2)
    ensures Effective(FiveCoins(), 1000 * r) >= SelectionTarget([TxOut(50001, script)], 1000 * r)
  {
    hide Effective, SelectionTarget;
    FiveCoinsTarget(script, r);
  }

  lemma {:induction false} FiveCoinsChange(script: Script, r: nat)
    requires |script| == 22 && IsWitnessProgram(script) && (r == 1 || r == 2)
    ensures ChangeAmount([TxOut(50001, script)], FiveCoins(), script, 1000 * r) == if r == 1 then 351 else 0
  {
    hide SelectionTarget, MinViableChange, ChangeFee, GreedyPrefix;
    FiveCoinsTarget(script, r);
    FiveCoinsSum(5, r);
    assert FiveCoins()[..5] == FiveCoins();
  }

  /** The payment from these coins at rate `r`, signed with signatures of maximum length. */
  function FiveCoinPayment(script: Script, r: nat): Transaction
    requires |script| == 22 && IsWitnessProgram(script) && (r == 1 || r == 2)
  {
    FiveCoinsReach(script, r);
    Sign(Assemble([TxOut(50001, script)], FiveCoins(), script, 1000 * r), [])
  }

  lemma {:induction false} FiveCoinPaymentPays(script: Script, r: nat)
    requires |script| == 22 && IsWitnessProgram(script) && (r == 1 || r == 2)
    ensures var tx, base := FiveCoinPayment(script, r), [TxOut(50001, script)];
            && InputsKnown(tx, FiveValues()) && CoinsOf(tx, FiveValues()) == FiveCoins()
            && Pays(tx, base, script, RateK(r), FiveValues()) && SoundEstimate(tx, base, r, FiveValues())
            && VSize(tx) == MaximumSignedVSize(tx)
            && (if r == 1 then tx.output != base && MaximumSignedVSize(tx) == 413
                else tx.output == base && MaximumSignedVSize(tx) == 382)
  {
    hide Effective, GetFee, MaximumSignedVSize, GreedyPrefix, SelectionTarget, MinViableChange;
    var tx, base := FiveCoinPayment(script, r), [TxOut(50001, script)];
    FiveCoinsTarget(script, r);
    assert Effective(FiveCoins(), 1000 * r) >= SelectionTarget(base, 1000 * r) by {
      FiveCoinsReach(script, r);
    }
    var funded := Assemble(base, FiveCoins(), script, 1000 * r);
    FiveCoinsSum(5, r);
    assert FiveCoins()[..5] == FiveCoins();
    SignIsSignedVersion(funded, []);
    assert CoinsOf(tx, FiveValues()) == FiveCoins();
    assert DummySigned(tx) == tx;
    MaximumIsActual(tx);
    SameMaximumSize(funded, tx);
    AssembledSize(base, FiveCoins(), script, 1000 * r);
    FeePaidIs(base, FiveCoins(), script, 1000 * r);
    FiveCoinsChange(script, r);
    GetFeeWhole(r, 68);
  }

  lemma {:induction false} MaximumIsActual(tx: Transaction)
    requires DummySigned(tx) == tx
    ensures VSize(tx) == MaximumSignedVSize(tx)
  {
    hide VSize;
  }

  /** Rule 4 can fail: the replacement drops a change of 351 and has 382 vbytes. */
  lemma {:induction false} RelayRuleCanFail(script: Script)
    requires |script| == 22 && IsWitnessProgram(script)
    ensures var tx, next := FiveCoinPayment(script, 1), FiveCoinPayment(script, 2);
            && SoundReplacement(tx, next, [TxOut(50001, script)], script, 1, 2, FiveValues())
            && !PaysForRelay(tx, next, 1, FiveValues())
  {
    hide Effective, GetFee, Assemble, MaximumSignedVSize, VSize, Pays, SoundEstimate, FiveCoinPayment, CoinsOf;
    var tx, next, base := FiveCoinPayment(script, 1), FiveCoinPayment(script, 2), [TxOut(50001, script)];
    FiveCoinPaymentPays(script, 1);
    FiveCoinPaymentPays(script, 2);
    FeeWithChange(tx, base, script, 1, FiveValues());
    FiveCoinsSum(5, 1);
    assert FiveCoins()[..5] == FiveCoins();
    FiveCoinsTarget(script, 2);
  }

  // ------------------------------------------------------------------ chains of replacements

  /** One fee estimate arriving while a payment waits, with the state of the world it meets:
      what the estimate is, whether `fee_rate` and the mempool query answer, what electrs and the
      key store hold, the signature sizes of a replacement and whether the network takes it. */
  datatype Update = Update(rate: nat, measurable: bool, inMempool: bool, e: Electrs, keys: seq<Script>,
                           sigs: seq<nat>, broadcast: Option<Txid>)

  datatype Sent = Sent(txid: Txid, tx: Transaction, rate: nat)

  function Sign(tx: Transaction, sigs: seq<nat>): Transaction {
    tx.(input := seq(|tx.input|, i requires 0 <= i < |tx.input| =>
      tx.input[i].(stack := [if i < |sigs| && 0 < sigs[i] <= 72 then sigs[i] else 72, 33])))
  }

  lemma {:induction false} SignIsSignedVersion(tx: Transaction, sigs: seq<nat>)
    ensures SignedVersion(tx, Sign(tx, sigs))
  {
  }

  /** What one update does to the payment being waited for. */
  function AfterUpdate(cur: Sent, u: Update, dest: Payload, values: Ledger): Sent {
    if !(u.measurable && u.inMempool && InputsKnown(cur.tx, values)) then cur
    else
      var measured := FeeRate(cur.tx, values);
      if measured == None || u.rate <= measured.value then cur
      else
        match BumpOf(u.e, u.keys, cur.txid, cur.tx, dest, u.rate)
        case Bumped(psbt) =>
          if u.broadcast.Some? then Sent(u.broadcast.value, Sign(psbt.unsignedTx, u.sigs), u.rate) else cur
        case _ => cur
  }

  /** The payment after each update. */
  function Later(cur: Sent, updates: seq<Update>, dest: Payload, values: Ledger): (h: seq<Sent>)
    ensures |h| == |updates|
    decreases |updates|
  {
    if updates == [] then []
    else
      var next := AfterUpdate(cur, updates[0], dest, values);
      [next] + Later(next, updates[1..], dest, values)
  }

  /** The initial payment and what it became after each update. */
  function History(cur: Sent, updates: seq<Update>, dest: Payload, values: Ledger): seq<Sent> {
    [cur] + Later(cur, updates, dest, values)
  }

  lemma {:induction false} LaterUnfold(cur: Sent, updates: seq<Update>, dest: Payload, values: Ledger)
    requires updates != []
    ensures var next := AfterUpdate(cur, updates[0], dest, values);
            Later(cur, updates, dest, values) == [next] + Later(next, updates[1..], dest, values)
  {
    hide AfterUpdate;
  }

  /** One pass of the inner loop: a better estimate for a payment that is still in the mempool
      leads to a bump, and only an accepted bump replaces the payment. */
  method TryBump(cur: Sent, u: Update, dest: Payload, values: Ledger) returns (next: Sent)
    ensures next == AfterUpdate(cur, u, dest, values)
  {
    hide BumpOf, FeeRate, Sign;
    next := cur;
    if u.measurable && u.inMempool && InputsKnown(cur.tx, values) {
      var measured := FeeRate(cur.tx, values);
      if measured.Some? && u.rate > measured.value {
        var bump := BumpOf(u.e, u.keys, cur.txid, cur.tx, dest, u.rate);
        if bump.Bumped? && u.broadcast.Some? {
          next := Sent(u.broadcast.value, Sign(bump.psbt.unsignedTx, u.sigs), u.rate);
        }
      }
    }
  }

  /** The bump loop of `wait_for_inclusion`, run over the fee estimates that arrive before the
      payment is included. */
  method WaitForInclusion(first: Sent, updates: seq<Update>, autoRbf: bool, dest: Payload, values: Ledger)
    returns (history: seq<Sent>)
    ensures history == History(first, if autoRbf then updates else [], dest, values)
  {
    hide AfterUpdate, Later;
    var cur := first;
    history := [cur];
    var seen := if autoRbf then updates else [];
    assert seen[0..] == seen;
    for i := 0 to |seen|
      invariant history + Later(cur, seen[i..], dest, values) == History(first, seen, dest, values)
    {
      LaterUnfold(cur, seen[i..], dest, values);
      assert seen[i..][1..] == seen[i + 1..];
      cur := TryBump(cur, seen[i], dest, values);
      history := history + [cur];
    }
  }

  /** The world is honest about values and identifiers throughout. */
  ghost predicate HonestWorld(h: seq<Sent>, updates: seq<Update>, values: Ledger) {
    && (forall i :: 0 <= i < |updates| ==> Truthful(updates[i].e, values))
    && (forall i :: 0 <= i < |h| ==> NotSelfSpending(h[i].txid, h[i].tx))
  }

  /** A payment sent for a request, as first created or after any number of bumps. */
  ghost predicate GoodPayment(s: Sent, dest: Payload, value: nat, opReturn: Option<seq<Byte>>, cs: Script,
                              values: Ledger)
    requires dest.Valid() && (opReturn.Some? ==> |opReturn.value| == 32)
  {
    Pays(s.tx, PaymentOutputs(dest, value, opReturn), cs, RateK(s.rate), values)
  }

  /** The payment `create_transaction` funds and signs starts such a chain. */
  lemma {:induction false} FirstPaymentIsGood(e: Electrs, keys: seq<Script>, dest: Payload, value: nat,
                                              opReturn: Option<seq<Byte>>, cs: Script, s: Sent, values: Ledger)
    requires dest.Valid() && (opReturn.Some? ==> |opReturn.value| == 32) && Truthful(e, values)
    requires var tx := Transaction([], PaymentOutputs(dest, value, opReturn));
             var f := FundingOf(e, keys, tx, cs, RateK(s.rate), None);
             f.Funded? && SignedVersion(f.psbt.unsignedTx, s.tx)
    ensures GoodPayment(s, dest, value, opReturn, cs, values)
  {
    hide FundingOf, Pays;
    var tx := Transaction([], PaymentOutputs(dest, value, opReturn));
    FundedPays(e, keys, tx, cs, RateK(s.rate), None, s.tx, values);
  }

  lemma {:induction false} UpdateStep(cur: Sent, u: Update, dest: Payload, value: nat, opReturn: Option<seq<Byte>>,
                                      cs: Script, values: Ledger)
    requires dest.Valid() && (opReturn.Some? ==> |opReturn.value| == 32)
    requires GoodPayment(cur, dest, value, opReturn, cs, values)
    requires Truthful(u.e, values) && NotSelfSpending(cur.txid, cur.tx)
    ensures var next := AfterUpdate(cur, u, dest, values);
            && GoodPayment(next, dest, value, opReturn, cs, values)
            && CoinsOf(next.tx, values)[0] == CoinsOf(cur.tx, values)[0]
            && (SoundEstimate(cur.tx, PaymentOutputs(dest, value, opReturn), cur.rate, values) ==>
                  CoinsOf(cur.tx, values) <= CoinsOf(next.tx, values) && (next == cur || next.rate > cur.rate))
            && (next == cur || cur.tx.output != PaymentOutputs(dest, value, opReturn))
  {
    hide Effective, GetFee, Assemble, BumpOf, PaymentOutputs, FeeRate, SoundEstimate, GreedyPrefix;
    var next := AfterUpdate(cur, u, dest, values);
    var base := PaymentOutputs(dest, value, opReturn);
    if next != cur {
      SignIsSignedVersion(BumpOf(u.e, u.keys, cur.txid, cur.tx, dest, u.rate).psbt.unsignedTx, u.sigs);
      ReplacementStep(u.e, u.keys, cur.txid, cur.tx, dest, value, opReturn, cs, RateK(cur.rate), u.rate, next.tx,
                      values);
      if SoundEstimate(cur.tx, base, cur.rate, values) {
        MeasuredRateAtLeastFunded(cur.tx, base, cs, cur.rate, values);
      }
    }
  }

  /** What a bump of `cur` funds again. */
  function Stripped(cur: Sent, base: seq<TxOut>): Transaction {
    Transaction(ClearWitnesses(cur.tx.input), base)
  }

  /** When an update replaces a payment: the estimate beats the measured rate, the payment is still
      in the mempool, it has change under a key of the wallet, its inputs and further coins reach the
      target at the new rate, and the network takes the result. */
  ghost predicate ShouldReplace(cur: Sent, u: Update, base: seq<TxOut>, cs: Script, values: Ledger) {
    && u.measurable && u.inMempool && InputsKnown(cur.tx, values)
    && FeeRate(cur.tx, values).Some? && u.rate > FeeRate(cur.tx, values).value
    && cur.tx.output != base && cs in u.keys
    && (exists coins :: FundedBy(u.e, u.keys, Stripped(cur, base), RateK(u.rate), Some(cur.txid), coins))
    && u.broadcast.Some?
  }

  /** What it is replaced by: the transaction now known by the broadcast id, funded at the estimate
      from coins other than the outputs of the one it replaces. */
  ghost predicate ReplacedBy(cur: Sent, u: Update, next: Sent, base: seq<TxOut>, values: Ledger) {
    && u.broadcast == Some(next.txid) && next.rate == u.rate && InputsKnown(next.tx, values)
    && FundedBy(u.e, u.keys, Stripped(cur, base), RateK(u.rate), Some(cur.txid), CoinsOf(next.tx, values))
  }

  ghost predicate Evolves(cur: Sent, u: Update, next: Sent, base: seq<TxOut>, cs: Script, values: Ledger) {
    if ShouldReplace(cur, u, base, cs, values) then ReplacedBy(cur, u, next, base, values) else next == cur
  }

  lemma {:induction false} UpdateEvolves(cur: Sent, u: Update, dest: Payload, value: nat, opReturn: Option<seq<Byte>>,
                                         cs: Script, values: Ledger)
    requires dest.Valid() && (opReturn.Some? ==> |opReturn.value| == 32)
    requires FromScript(cs).Some? && FromScript(cs).value != dest
    requires GoodPayment(cur, dest, value, opReturn, cs, values) && Truthful(u.e, values)
    ensures Evolves(cur, u, AfterUpdate(cur, u, dest, values), PaymentOutputs(dest, value, opReturn), cs, values)
  {
    hide FundedBy, BumpOf, FeeRate, PaymentOutputs, FromScript, Sign, FundingOf, Truthful, Pays, RateK, CoinsOf;
    var base := PaymentOutputs(dest, value, opReturn);
    BumpSucceedsIff(u.e, u.keys, cur.txid, cur.tx, dest, value, opReturn, cs, RateK(cur.rate), u.rate, values);
    if BumpOf(u.e, u.keys, cur.txid, cur.tx, dest, u.rate).Bumped? {
      var psbt := BumpOf(u.e, u.keys, cur.txid, cur.tx, dest, u.rate).psbt;
      BumpStrips(u.e, u.keys, cur.txid, cur.tx, dest, value, opReturn, cs, RateK(cur.rate), u.rate, values);
      SignIsSignedVersion(psbt.unsignedTx, u.sigs);
      FundedPays(u.e, u.keys, Stripped(cur, base), cs, RateK(u.rate), Some(cur.txid), Sign(psbt.unsignedTx, u.sigs),
                 values);
      PaysKnowsInputs(Sign(psbt.unsignedTx, u.sigs), base, cs, RateK(u.rate), values);
    }
    PaysKnowsInputs(cur.tx, base, cs, RateK(cur.rate), values);
  }

  lemma {:induction false} PaysKnowsInputs(tx: Transaction, base: seq<TxOut>, cs: Script, rateK: nat, values: Ledger)
    requires Pays(tx, base, cs, rateK, values)
    ensures InputsKnown(tx, values)
  {
  }

  /** Along every chain of replacements, whatever the estimates and the coins offered: each
      transaction pays the same outputs with the same first input. */
  lemma {:induction false} ChainKeepsPayment(cur: Sent, updates: seq<Update>, dest: Payload, value: nat,
                                             opReturn: Option<seq<Byte>>, cs: Script, values: Ledger)
    requires dest.Valid() && (opReturn.Some? ==> |opReturn.value| == 32)
    requires GoodPayment(cur, dest, value, opReturn, cs, values)
    requires HonestWorld(History(cur, updates, dest, values), updates, values)
    ensures var h := History(cur, updates, dest, values);
            forall i :: 0 <= i < |h| ==>
              && GoodPayment(h[i], dest, value, opReturn, cs, values)
              && CoinsOf(h[i].tx, values)[0] == CoinsOf(cur.tx, values)[0]
    decreases |updates|
  {
    hide Effective, GetFee, Assemble, BumpOf, PaymentOutputs, FeeRate, AfterUpdate;
    var h := History(cur, updates, dest, values);
    assert h[0] == cur;
    if updates != [] {
      var next := AfterUpdate(cur, updates[0], dest, values);
      UpdateStep(cur, updates[0], dest, value, opReturn, cs, values);
      assert h[1..] == History(next, updates[1..], dest, values);
      ChainKeepsPayment(next, updates[1..], dest, value, opReturn, cs, values);
    }
  }

  /** The id of the payment after `i` updates: that of the last accepted replacement. */
  ghost function LastBroadcast(h: seq<Sent>, updates: seq<Update>, base: seq<TxOut>, cs: Script, values: Ledger,
                               i: nat): Txid
    requires |h| == |updates| + 1 && i < |h|
  {
    if i == 0 then h[0].txid
    else if ShouldReplace(h[i - 1], updates[i - 1], base, cs, values) then updates[i - 1].broadcast.value
    else LastBroadcast(h, updates, base, cs, values, i - 1)
  }

  /** The history that `WaitForInclusion` returns, step by step: an update replaces the payment exactly
      when it should, and by what it should. */
  lemma {:induction false} HistoryEvolves(first: Sent, updates: seq<Update>, dest: Payload, value: nat,
                                          opReturn: Option<seq<Byte>>, cs: Script, values: Ledger, i: nat)
    requires dest.Valid() && (opReturn.Some? ==> |opReturn.value| == 32)
    requires FromScript(cs).Some? && FromScript(cs).value != dest
    requires GoodPayment(first, dest, value, opReturn, cs, values)
    requires HonestWorld(History(first, updates, dest, values), updates, values) && i < |updates|
    ensures var h, base := History(first, updates, dest, values), PaymentOutputs(dest, value, opReturn);
            && |h| == |updates| + 1 && h[0] == first
            && Evolves(h[i], updates[i], h[i + 1], base, cs, values)
            && (updates[i].broadcast != Some(h[i].txid) ==>
                  (h[i + 1] != h[i] <==> ShouldReplace(h[i], updates[i], base, cs, values)))
  {
    hide AfterUpdate, GoodPayment, FromScript, PaymentOutputs, Truthful, NotSelfSpending, ShouldReplace, FundedBy;
    var h := History(first, updates, dest, values);
    ChainKeepsPayment(first, updates, dest, value, opReturn, cs, values);
    HistoryStep(first, updates, dest, values, i);
    UpdateEvolves(h[i], updates[i], dest, value, opReturn, cs, values);
  }

  lemma {:induction false} HistoryStep(first: Sent, updates: seq<Update>, dest: Payload, values: Ledger, i: nat)
    requires i < |updates|
    ensures var h := History(first, updates, dest, values); h[i + 1] == AfterUpdate(h[i], updates[i], dest, values)
    decreases |updates|
  {
    hide AfterUpdate;
    if i > 0 {
      var next := AfterUpdate(first, updates[0], dest, values);
      LaterUnfold(first, updates, dest, values);
      HistoryStep(next, updates[1..], dest, values, i - 1);
      assert History(first, updates, dest, values)[1..] == History(next, updates[1..], dest, values);
    }
  }

  /** At every point the payment is waited for under the id of the last accepted broadcast, or its
      own if there was none. */
  lemma {:induction false} TxidIsLastBroadcast(first: Sent, updates: seq<Update>, dest: Payload, value: nat,
                                               opReturn: Option<seq<Byte>>, cs: Script, values: Ledger, i: nat)
    requires dest.Valid() && (opReturn.Some? ==> |opReturn.value| == 32)
    requires FromScript(cs).Some? && FromScript(cs).value != dest
    requires GoodPayment(first, dest, value, opReturn, cs, values)
    requires HonestWorld(History(first, updates, dest, values), updates, values) && i <= |updates|
    ensures var h := History(first, updates, dest, values);
            h[i].txid == LastBroadcast(h, updates, PaymentOutputs(dest, value, opReturn), cs, values, i)
    decreases i
  {
    hide History, GoodPayment, FromScript, PaymentOutputs, HonestWorld, ShouldReplace, FundedBy;
    HistoryStarts(first, updates, dest, values);
    if i > 0 {
      TxidIsLastBroadcast(first, updates, dest, value, opReturn, cs, values, i - 1);
      HistoryEvolves(first, updates, dest, value, opReturn, cs, values, i - 1);
    }
  }

  lemma {:induction false} HistoryStarts(first: Sent, updates: seq<Update>, dest: Payload, values: Ledger)
    ensures |History(first, updates, dest, values)| == |updates| + 1
    ensures History(first, updates, dest, values)[0] == first
  {
  }

  predicate AllSound(h: seq<Sent>, base: seq<TxOut>, values: Ledger) {
    forall i :: 0 <= i < |h| ==> InputsKnown(h[i].tx, values) && SoundEstimate(h[i].tx, base, h[i].rate, values)
  }

  lemma {:induction false} TailIsHonest(h: seq<Sent>, updates: seq<Update>, base: seq<TxOut>, values: Ledger)
    requires |h| == |updates| + 1 && |updates| > 0
    requires HonestWorld(h, updates, values)
    ensures HonestWorld(h[1..], updates[1..], values)
    ensures AllSound(h, base, values) ==> AllSound(h[1..], base, values)
  {
    hide SoundEstimate, Truthful;
  }

  lemma {:induction false} FirstIsHonest(h: seq<Sent>, updates: seq<Update>, base: seq<TxOut>, values: Ledger)
    requires |h| == |updates| + 1 && |updates| > 0
    requires HonestWorld(h, updates, values) && AllSound(h, base, values)
    ensures Truthful(updates[0].e, values) && NotSelfSpending(h[0].txid, h[0].tx)
    ensures InputsKnown(h[0].tx, values) && SoundEstimate(h[0].tx, base, h[0].rate, values)
  {
    hide SoundEstimate, Truthful;
  }

  /** When every estimate along the chain is sound, the requested rates strictly increase and each
      transaction spends every input of its predecessors. */
  lemma {:induction false} ChainRatesIncrease(cur: Sent, updates: seq<Update>, dest: Payload, value: nat,
                                              opReturn: Option<seq<Byte>>, cs: Script, values: Ledger)
    requires dest.Valid() && (opReturn.Some? ==> |opReturn.value| == 32)
    requires GoodPayment(cur, dest, value, opReturn, cs, values)
    requires HonestWorld(History(cur, updates, dest, values), updates, values)
    requires AllSound(History(cur, updates, dest, values), PaymentOutputs(dest, value, opReturn), values)
    ensures EachOutbidsEarlier(History(cur, updates, dest, values), values)
    decreases |updates|
  {
    hide SoundEstimate, AfterUpdate, PaymentOutputs, Truthful, HonestWorld, AllSound, GreedyPrefix, SignedVersion;
    var h := History(cur, updates, dest, values);
    if updates != [] {
      var next := AfterUpdate(cur, updates[0], dest, values);
      var t := History(next, updates[1..], dest, values);
      assert h[1..] == t;
      FirstIsHonest(h, updates, PaymentOutputs(dest, value, opReturn), values);
      TailIsHonest(h, updates, PaymentOutputs(dest, value, opReturn), values);
      UpdateStep(cur, updates[0], dest, value, opReturn, cs, values);
      ChainRatesIncrease(next, updates[1..], dest, value, opReturn, cs, values);
      OutbidsCons(cur, t, values);
      assert h == [cur] + t;
    }
  }

  lemma {:induction false} OutbidsCons(cur: Sent, t: seq<Sent>, values: Ledger)
    requires t != [] && Outbids(t[0], cur, values) && EachOutbidsEarlier(t, values)
    ensures EachOutbidsEarlier([cur] + t, values)
  {
    hide CoinsOf, InputsKnown;
    var h := [cur] + t;
    forall i, j | 0 <= i <= j < |h| ensures Outbids(h[j], h[i], values) {
      if i == 0 && j > 0 {
        assert Outbids(t[j - 1], t[0], values);
        OutbidsTransitive(h[j], t[0], cur, values);
      } else if i > 0 {
        assert Outbids(t[j - 1], t[i - 1], values);
      } else {
        OutbidsReflexive(t[0], cur, values);
      }
    }
  }

  lemma {:induction false} OutbidsReflexive(b: Sent, a: Sent, values: Ledger)
    requires Outbids(b, a, values)
    ensures Outbids(a, a, values)
  {
  }

  /** `b` is `a` itself, or a replacement at a higher rate that spends all of its inputs and maybe more. */
  ghost predicate Outbids(b: Sent, a: Sent, values: Ledger) {
    && InputsKnown(a.tx, values) && InputsKnown(b.tx, values)
    && CoinsOf(a.tx, values) <= CoinsOf(b.tx, values)
    && (b == a || b.rate > a.rate)
  }

  ghost predicate EachOutbidsEarlier(h: seq<Sent>, values: Ledger) {
    forall i, j :: 0 <= i <= j < |h| ==> Outbids(h[j], h[i], values)
  }

  lemma {:induction false} OutbidsTransitive(c: Sent, b: Sent, a: Sent, values: Ledger)
    requires Outbids(c, b, values) && Outbids(b, a, values)
    ensures Outbids(c, a, values)
  {
  }

  /** `b` is `a` itself or pays a higher fee. */
  ghost predicate PaysMore(b: Sent, a: Sent, values: Ledger) {
    && InputsKnown(a.tx, values) && InputsKnown(b.tx, values)
    && (b == a || PaidFee(b.tx, values) > PaidFee(a.tx, values))
  }

  ghost predicate EachPaysMore(h: seq<Sent>, values: Ledger) {
    forall i, j :: 0 <= i <= j < |h| ==> PaysMore(h[j], h[i], values)
  }

  lemma {:induction false} UpdateRaisesFee(cur: Sent, u: Update, dest: Payload, value: nat,
                                           opReturn: Option<seq<Byte>>, cs: Script, values: Ledger)
    requires dest.Valid() && (opReturn.Some? ==> |opReturn.value| == 32)
    requires GoodPayment(cur, dest, value, opReturn, cs, values)
    requires Truthful(u.e, values) && NotSelfSpending(cur.txid, cur.tx)
    requires SoundEstimate(cur.tx, PaymentOutputs(dest, value, opReturn), cur.rate, values)
    ensures var next, base := AfterUpdate(cur, u, dest, values), PaymentOutputs(dest, value, opReturn);
            InputsKnown(next.tx, values) &&
            (SoundEstimate(next.tx, base, next.rate, values) ==> PaysMore(next, cur, values))
  {
    hide SoundEstimate, AfterUpdate, PaymentOutputs, Truthful, GreedyPrefix, SignedVersion, PaidFee, CoinsOf;
    var next, base := AfterUpdate(cur, u, dest, values), PaymentOutputs(dest, value, opReturn);
    UpdateStep(cur, u, dest, value, opReturn, cs, values);
    if next != cur && SoundEstimate(next.tx, base, next.rate, values) {
      FeeRises(cur.tx, next.tx, base, cs, cur.rate, next.rate, values);
    }
  }

  lemma {:induction false} PaysMoreCons(cur: Sent, t: seq<Sent>, values: Ledger)
    requires t != [] && PaysMore(t[0], cur, values) && EachPaysMore(t, values)
    ensures EachPaysMore([cur] + t, values)
  {
    hide PaidFee, InputsKnown;
    var h := [cur] + t;
    forall i, j | 0 <= i <= j < |h| ensures PaysMore(h[j], h[i], values) {
      if j > 0 {
        assert PaysMore(t[j - 1], t[if i == 0 then 0 else i - 1], values);
      }
    }
  }

  /** When every estimate along the chain is sound, every replacement pays a strictly higher absolute
      fee than all its predecessors. */
  lemma {:induction false} ChainFeesIncrease(cur: Sent, updates: seq<Update>, dest: Payload, value: nat,
                                             opReturn: Option<seq<Byte>>, cs: Script, values: Ledger)
    requires dest.Valid() && (opReturn.Some? ==> |opReturn.value| == 32)
    requires GoodPayment(cur, dest, value, opReturn, cs, values)
    requires HonestWorld(History(cur, updates, dest, values), updates, values)
    requires AllSound(History(cur, updates, dest, values), PaymentOutputs(dest, value, opReturn), values)
    ensures EachPaysMore(History(cur, updates, dest, values), values)
    decreases |updates|
  {
    hide SoundEstimate, AfterUpdate, PaymentOutputs, Truthful, HonestWorld, GreedyPrefix, SignedVersion, PaidFee;
    var h := History(cur, updates, dest, values);
    if updates != [] {
      var base := PaymentOutputs(dest, value, opReturn);
      var next := AfterUpdate(cur, updates[0], dest, values);
      var t := History(next, updates[1..], dest, values);
      assert h[1..] == t && h[1] == next;
      FirstIsHonest(h, updates, base, values);
      TailIsHonest(h, updates, base, values);
      UpdateStep(cur, updates[0], dest, value, opReturn, cs, values);
      UpdateRaisesFee(cur, updates[0], dest, value, opReturn, cs, values);
      ChainFeesIncrease(next, updates[1..], dest, value, opReturn, cs, values);
      PaysMoreCons(cur, t, values);
      assert h == [cur] + t;
    }
  }

  // ------------------------------------------------------------------ consequences

  /** The blocks of a valid chain spend no outpoint twice. */
  ghost predicate NoDoubleSpend(mined: seq<Transaction>) {
    forall p, q, a, b :: 0 <= p < |mined| && 0 <= q < |mined| && p != q
                         && 0 <= a < |mined[p].input| && 0 <= b < |mined[q].input| ==>
      mined[p].input[a].previousOutput != mined[q].input[b].previousOutput
  }

  /** At most one transaction of a chain of replacements can ever be mined. */
  lemma {:induction false} AtMostOneMined(cur: Sent, updates: seq<Update>, dest: Payload, value: nat,
                                          opReturn: Option<seq<Byte>>, cs: Script, values: Ledger,
                                          mined: seq<Transaction>, p: nat, q: nat, i: nat, j: nat)
    requires dest.Valid() && (opReturn.Some? ==> |opReturn.value| == 32)
    requires GoodPayment(cur, dest, value, opReturn, cs, values)
    requires HonestWorld(History(cur, updates, dest, values), updates, values)
    requires NoDoubleSpend(mined) && p < |mined| && q < |mined|
    requires i <= |updates| && j <= |updates|
    requires mined[p] == History(cur, updates, dest, values)[i].tx
    requires mined[q] == History(cur, updates, dest, values)[j].tx
    ensures p == q && mined[p] == mined[q]
  {
    var h := History(cur, updates, dest, values);
    ChainKeepsPayment(cur, updates, dest, value, opReturn, cs, values);
    assert GoodPayment(h[i], dest, value, opReturn, cs, values) && GoodPayment(h[j], dest, value, opReturn, cs, values);
    assert CoinsOf(h[i].tx, values)[0] == CoinsOf(h[j].tx, values)[0];
    assert mined[p].input[0].previousOutput == mined[q].input[0].previousOutput;
  }

  /** Every transaction of the chain is recognised as the payment of its request, exactly when the
      requested amount survives the cast to `u64`. */
  lemma {:induction false} ChainMatchesRequest(s: Sent, dest: Payload, amount: nat, hash: seq<Byte>, cs: Script,
                                               values: Ledger)
    requires dest.Valid() && |hash| == 32
    requires GoodPayment(s, dest, amount % (U64_MAX + 1), Some(hash), cs, values)
    ensures Satisfies(s.tx, hash, dest, amount) <==> amount <= U64_MAX
  {
    hide Effective, GetFee, Assemble, SelectionTarget, CoinsOf;
    var base := PaymentOutputs(dest, amount % (U64_MAX + 1), Some(hash));
    var out := s.tx.output;
    assert base <= out;
    assert out[0] == base[0] && out[1] == base[1];
    ScriptPubkeyRoundTrip(dest);
    assert !IsOpReturn(out[0].scriptPubkey) by {
      if IsOpReturn(out[0].scriptPubkey) {
        OpReturnHasNoAddress(out[0].scriptPubkey);
      }
    }
    var first := out[..Min(3, |out|)];
    assert first[1..][0] == out[1];
    assert OpReturnScript(hash)[2..] == hash;
    assert FindOpReturn(first) == Some(hash);
    assert FindPayment(out, dest) == Some(amount % (U64_MAX + 1));
    assert amount % (U64_MAX + 1) >= amount <==> amount <= U64_MAX;
  }
}
