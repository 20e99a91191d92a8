/**
 The light wallet: the stream of spendable coins, greedy coin selection with effective values,
 and the assembly of a funded transaction with change, dust and fee arithmetic.

 All amounts are `u64` in the source. They are unbounded here; `FitsU64` names the inputs for
 which no sum of the source overflows, and the one saturating product (`get_fee`) is written out.
 */
module Wallet {
  import opened Prelude
  import opened Transactions

  // ------------------------------------------------------------------ coins offered by electrs

  datatype Utxo = Utxo(outpoint: OutPoint, value: nat)

  // The answers of the electrs server; a query whose key is missing fails.
  datatype Electrs = Electrs(
    prevValues: map<OutPoint, nat>,
    utxosOf: map<Script, seq<Utxo>>,
    scripts: map<OutPoint, Script>)

  datatype Item = Coin(utxo: Utxo) | Failure

  function PrevItem(e: Electrs, txin: TxIn): Item {
    if txin.previousOutput in e.prevValues
    then Coin(Utxo(txin.previousOutput, e.prevValues[txin.previousOutput]))
    else Failure
  }

  function Coins(utxos: seq<Utxo>): seq<Item> {
    seq(|utxos|, i requires 0 <= i < |utxos| => Coin(utxos[i]))
  }

  /** The items the stream yields: previous inputs first, then the coins of each address in turn,
      ending at the first address that has none. */
  function Items(e: Electrs, txInputs: seq<TxIn>, addresses: seq<Script>): seq<Item> {
    seq(|txInputs|, i requires 0 <= i < |txInputs| => PrevItem(e, txInputs[i])) + AddressItems(e, addresses)
  }

  function AddressItems(e: Electrs, addresses: seq<Script>): seq<Item> {
    if addresses == [] then []
    else if addresses[0] !in e.utxosOf then [Failure] + AddressItems(e, addresses[1..])
    else if e.utxosOf[addresses[0]] == [] then []
    else Coins(e.utxosOf[addresses[0]]) + AddressItems(e, addresses[1..])
  }

  lemma {:induction false} CoinsUnfold(utxos: seq<Utxo>, rest: seq<Item>)
    requires utxos != []
    ensures (Coins(utxos) + rest)[0] == Coin(utxos[0])
    ensures (Coins(utxos) + rest)[1..] == Coins(utxos[1..]) + rest
  {
  }

  lemma {:induction false} ItemsUnfold(e: Electrs, txInputs: seq<TxIn>, addresses: seq<Script>)
    requires txInputs != []
    ensures var all := Coins([]) + Items(e, txInputs, addresses);
            all[0] == PrevItem(e, txInputs[0]) && all[1..] == Coins([]) + Items(e, txInputs[1..], addresses)
  {
  }

  lemma {:induction false} AddressItemsUnfold(e: Electrs, addresses: seq<Script>)
    requires addresses != []
    ensures var all := Coins([]) + Items(e, [], addresses);
            if addresses[0] !in e.utxosOf then
              all != [] && all[0] == Failure && all[1..] == Coins([]) + Items(e, [], addresses[1..])
            else if e.utxosOf[addresses[0]] == [] then all == []
            else all == Coins(e.utxosOf[addresses[0]]) + Items(e, [], addresses[1..])
  {
    assert Coins([]) + Items(e, [], addresses) == AddressItems(e, addresses);
    assert Coins([]) + Items(e, [], addresses[1..]) == AddressItems(e, addresses[1..]);
    assert Items(e, [], addresses[1..]) == AddressItems(e, addresses[1..]);
  }

  /** The unfold state of `available_coins`. */
  class CoinStream {
    const e: Electrs
    var utxos: seq<Utxo>
    var txInputs: seq<TxIn>
    var addresses: seq<Script>
    var ended: bool

    constructor (e: Electrs, txInputs: seq<TxIn>, addresses: seq<Script>)
      ensures this.e == e && Remaining() == Items(e, txInputs, addresses)
    {
      this.e := e;
      utxos, this.txInputs, this.addresses, ended := [], txInputs, addresses, false;
    }

    ghost function Remaining(): seq<Item>
      reads this
    {
      if ended then [] else Coins(utxos) + Items(e, txInputs, addresses)
    }

    method Next() returns (item: Option<Item>)
      modifies this
      ensures old(Remaining()) == [] ==> item == None && Remaining() == []
      ensures old(Remaining()) != [] ==>
                item == Some(old(Remaining())[0]) && Remaining() == old(Remaining())[1..]
    {
      if ended {
        return None;
      }
      if utxos != [] {
        CoinsUnfold(utxos, Items(e, txInputs, addresses));
        item := Some(Coin(utxos[0]));
        utxos := utxos[1..];
      } else if txInputs != [] {
        ItemsUnfold(e, txInputs, addresses);
        item := Some(PrevItem(e, txInputs[0]));
        txInputs := txInputs[1..];
      } else if addresses != [] {
        var address := addresses[0];
        AddressItemsUnfold(e, addresses);
        addresses := addresses[1..];
        if address !in e.utxosOf {
          item := Some(Failure);
        } else {
          utxos := e.utxosOf[address];
          if utxos == [] {
            ended := true;
            item := None;
          } else {
            CoinsUnfold(utxos, Items(e, [], addresses));
            item := Some(Coin(utxos[0]));
            utxos := utxos[1..];
          }
        }
      } else {
        ended := true;
        item := None;
      }
    }
  }

  /** Coins held by any address after the first empty one are never offered. */
  lemma {:induction false} StreamEndsAtFirstEmptyAddress(e: Electrs, addresses: seq<Script>, k: nat)
    requires k < |addresses| && addresses[k] in e.utxosOf && e.utxosOf[addresses[k]] == []
    ensures AddressItems(e, addresses) == AddressItems(e, addresses[..k])
  {
    if k > 0 && !(addresses[0] in e.utxosOf && e.utxosOf[addresses[0]] == []) {
      StreamEndsAtFirstEmptyAddress(e, addresses[1..], k - 1);
      assert addresses[1..][..k - 1] == addresses[..k][1..];
    }
  }

  // What the wallet holds, whether the stream offers it or not.

  /** The coins of all addresses, in order. */
  function Held(e: Electrs, addresses: seq<Script>): seq<Utxo>
    requires Answered(e, addresses)
  {
    if addresses == [] then [] else e.utxosOf[addresses[0]] + Held(e, addresses[1..])
  }

  /** Electrs answers for every address. */
  predicate Answered(e: Electrs, addresses: seq<Script>) {
    forall i :: 0 <= i < |addresses| ==> addresses[i] in e.utxosOf
  }

  /** After an empty address every later one is empty as well. */
  predicate NoGap(e: Electrs, addresses: seq<Script>)
    requires Answered(e, addresses)
  {
    forall i, j :: 0 <= i < j < |addresses| && e.utxosOf[addresses[i]] == [] ==> e.utxosOf[addresses[j]] == []
  }

  /** The stream offers every coin the wallet holds if and only if no address with coins comes after
      an empty one. */
  lemma {:induction false} StreamOffersAllIff(e: Electrs, addresses: seq<Script>)
    requires Answered(e, addresses)
    ensures AddressItems(e, addresses) == Coins(Held(e, addresses)) <==> NoGap(e, addresses)
    ensures |AddressItems(e, addresses)| <= |Held(e, addresses)|
  {
    if addresses != [] {
      var first, rest := addresses[0], addresses[1..];
      StreamOffersAllIff(e, rest);
      CoinsAppend(e.utxosOf[first], Held(e, rest));
      if e.utxosOf[first] == [] {
        HeldEmptyIff(e, rest);
        assert NoGap(e, addresses) <==> forall j :: 0 <= j < |rest| ==> e.utxosOf[rest[j]] == [] by {
          assert forall j :: 0 <= j < |rest| ==> rest[j] == addresses[j + 1];
        }
      } else {
        NoGapTail(e, addresses);
        SameTail(Coins(e.utxosOf[first]), AddressItems(e, rest), Coins(Held(e, rest)));
      }
    }
  }

  lemma {:induction false} CoinsAppend(a: seq<Utxo>, b: seq<Utxo>)
    ensures Coins(a + b) == Coins(a) + Coins(b)
  {
  }

  lemma {:induction false} SameTail(a: seq<Item>, b: seq<Item>, c: seq<Item>)
    ensures a + b == a + c <==> b == c
  {
    assert (a + b)[|a|..] == b && (a + c)[|a|..] == c;
  }

  lemma {:induction false} HeldEmptyIff(e: Electrs, addresses: seq<Script>)
    requires Answered(e, addresses)
    ensures Held(e, addresses) == [] <==> forall i :: 0 <= i < |addresses| ==> e.utxosOf[addresses[i]] == []
  {
    if addresses != [] {
      HeldEmptyIff(e, addresses[1..]);
      assert forall i :: 0 < i < |addresses| ==> addresses[i] == addresses[1..][i - 1];
    }
  }

  lemma {:induction false} NoGapTail(e: Electrs, addresses: seq<Script>)
    requires Answered(e, addresses) && addresses != [] && e.utxosOf[addresses[0]] != []
    ensures NoGap(e, addresses) <==> NoGap(e, addresses[1..])
  {
    var rest := addresses[1..];
    assert forall i :: 0 <= i < |rest| ==> rest[i] == addresses[i + 1];
    if NoGap(e, rest) {
      forall i, j | 0 <= i < j < |addresses| && e.utxosOf[addresses[i]] == [] ensures e.utxosOf[addresses[j]] == [] {
        assert e.utxosOf[rest[i - 1]] == [] ==> e.utxosOf[rest[j - 1]] == [];
      }
    }
    if NoGap(e, addresses) {
      forall i, j | 0 <= i < j < |rest| && e.utxosOf[rest[i]] == [] ensures e.utxosOf[rest[j]] == [] {
        assert e.utxosOf[addresses[i + 1]] == [] ==> e.utxosOf[addresses[j + 1]] == [];
      }
    }
  }

  // ------------------------------------------------------------------ fees

  /** `FeeRate::get_fee`, with the rate in satoshi per 1000 vbytes. */
  function GetFee(rateK: nat, bytes: nat): nat {
    CeilDiv(Min(rateK * bytes, U64_MAX), 1000)
  }

  const DUST_RELAY_FEE: nat := 3000

  function DustThreshold(script: Script): nat {
    var size := OutputSize(TxOut(0, script)) +
      (if IsWitnessProgram(script) then 32 + 4 + 1 + 107 / 4 + 4 else 32 + 4 + 1 + 107 + 4);
    GetFee(DUST_RELAY_FEE, size)
  }

  /** The fee is the product rounded up to a satoshi, saturation aside. */
  lemma {:induction false} GetFeeBounds(rateK: nat, bytes: nat)
    requires rateK * bytes <= U64_MAX
    ensures rateK * bytes <= 1000 * GetFee(rateK, bytes) < rateK * bytes + 1000
  {
    CeilDivBounds(rateK * bytes, 1000);
  }

  /** The usual thresholds: 546 satoshi for a key-hash output, 294 for a witness key-hash output. */
  lemma {:induction false} DustThresholds(hash: seq<Byte>)
    requires |hash| == 20
    ensures DustThreshold(PubkeyHash(hash).ScriptPubkey()) == 546
    ensures DustThreshold(WitnessProgram(0, hash).ScriptPubkey()) == 294
  {
  }

  const NULL_OUTPOINT: OutPoint := OutPoint(0, 0)

  function MinViableChange(script: Script): (r: nat)
    ensures r >= DustThreshold(script) && r > 0
  {
    Max(GetFee(DUST_RELAY_FEE, MaximumSignedInputSize(NULL_OUTPOINT)) + 1, DustThreshold(script))
  }

  function ChangeFee(script: Script, rateK: nat): nat {
    GetFee(rateK, OutputSize(TxOut(0, script)))
  }

  function NotInputSize(outputs: seq<TxOut>): nat {
    10 + VarIntLen(|outputs|) + OutputsSize(outputs)
  }

  function SelectionTarget(outputs: seq<TxOut>, rateK: nat): nat {
    OutputSum(outputs) + GetFee(rateK, NotInputSize(outputs))
  }

  // ------------------------------------------------------------------ selection

  datatype CoinOutput = CoinOutput(value: nat, fee: nat)

  function EffectiveValue(c: CoinOutput): nat {
    SatSub(c.value, c.fee)
  }

  function SelectedValue(cs: seq<CoinOutput>): nat {
    if cs == [] then 0 else SelectedValue(cs[..|cs| - 1]) + cs[|cs| - 1].value
  }

  function SelectedEffectiveValue(cs: seq<CoinOutput>): nat {
    if cs == [] then 0 else SelectedEffectiveValue(cs[..|cs| - 1]) + EffectiveValue(cs[|cs| - 1])
  }

  function GetChange(cs: seq<CoinOutput>, target: nat, minViable: nat, changeFee: nat): nat {
    var change := SatSub(SatSub(SelectedEffectiveValue(cs), target), changeFee);
    if change < minViable then 0 else change
  }

  /** The `SelectCoins` accumulator. */
  class SelectCoins {
    var presetInputs: seq<CoinOutput>
    const targetValue: nat

    constructor (targetValue: nat)
      ensures presetInputs == [] && this.targetValue == targetValue
    {
      presetInputs, this.targetValue := [], targetValue;
    }

    method Add(coin: CoinOutput)
      modifies this
      ensures presetInputs == old(presetInputs) + [coin]
    {
      presetInputs := presetInputs + [coin];
    }
  }

  function CoinOutputOf(u: Utxo, rateK: nat): CoinOutput {
    CoinOutput(u.value, GetFee(rateK, MaximumSignedInputSize(u.outpoint)))
  }

  function CoinOutputs(utxos: seq<Utxo>, rateK: nat): seq<CoinOutput> {
    seq(|utxos|, i requires 0 <= i < |utxos| => CoinOutputOf(utxos[i], rateK))
  }

  function Effective(utxos: seq<Utxo>, rateK: nat): nat {
    SelectedEffectiveValue(CoinOutputs(utxos, rateK))
  }

  function InputSum(utxos: seq<Utxo>): nat {
    if utxos == [] then 0 else InputSum(utxos[..|utxos| - 1]) + utxos[|utxos| - 1].value
  }

  datatype Selection = Selected(coins: seq<Utxo>) | Short | LookupFailed | MissingKey

  /** What the funding loop selects from the rest of the stream, given the coins it already has. */
  function Select(items: seq<Item>, e: Electrs, keys: seq<Script>, prevTxid: Option<Txid>,
                  rateK: nat, target: nat, chosen: seq<Utxo>): Selection
  {
    if items == [] || items[0].Failure? then Short
    else
      var u := items[0].utxo;
      if prevTxid == Some(u.outpoint.txid) then Select(items[1..], e, keys, prevTxid, rateK, target, chosen)
      else if u.outpoint !in e.scripts then LookupFailed
      else if e.scripts[u.outpoint] !in keys then MissingKey
      else if Effective(chosen + [u], rateK) >= target then Selected(chosen + [u])
      else Select(items[1..], e, keys, prevTxid, rateK, target, chosen + [u])
  }

  /** The coins the loop can use: those before the first failed query, without the outputs of the
      transaction being replaced. */
  function Spendable(items: seq<Item>, prevTxid: Option<Txid>): seq<Utxo> {
    if items == [] || items[0].Failure? then []
    else if prevTxid == Some(items[0].utxo.outpoint.txid) then Spendable(items[1..], prevTxid)
    else [items[0].utxo] + Spendable(items[1..], prevTxid)
  }

  /** `coins` is the shortest non-empty prefix of `all` whose effective value reaches the target. */
  ghost predicate GreedyPrefix(all: seq<Utxo>, coins: seq<Utxo>, rateK: nat, target: nat) {
    && coins != [] && coins <= all
    && Effective(coins, rateK) >= target
    && forall j :: 0 < j < |coins| ==> Effective(coins[..j], rateK) < target
  }

  predicate Known(coins: seq<Utxo>, e: Electrs, keys: seq<Script>) {
    forall i :: 0 <= i < |coins| ==> coins[i].outpoint in e.scripts && e.scripts[coins[i].outpoint] in keys
  }

  /** A coin that the wallet cannot spend comes up before the target is reached, and it is the first
      such coin; `found` says whether electrs knows its script, so that only the key is missing. */
  ghost predicate Blocked(all: seq<Utxo>, e: Electrs, keys: seq<Script>, rateK: nat, target: nat, found: bool) {
    exists k :: 0 <= k < |all| && BlockedAt(all, e, keys, rateK, target, k) && (found <==> all[k].outpoint in e.scripts)
  }

  ghost predicate BlockedAt(all: seq<Utxo>, e: Electrs, keys: seq<Script>, rateK: nat, target: nat, k: nat)
    requires k < |all|
  {
    && !Known([all[k]], e, keys) && Known(all[..k], e, keys)
    && forall j :: 0 < j <= k ==> Effective(all[..j], rateK) < target
  }

  /** The loop meets its declarative specification: it succeeds with the greedy prefix, reports a
      shortage only when no prefix of the usable coins is enough, and fails only on a coin that is
      not known and comes up before the target is reached. */
  lemma {:induction false} SelectIsGreedy(items: seq<Item>, e: Electrs, keys: seq<Script>, prevTxid: Option<Txid>,
                                          rateK: nat, target: nat, chosen: seq<Utxo>)
    requires Known(chosen, e, keys)
    requires forall j :: 0 < j <= |chosen| ==> Effective(chosen[..j], rateK) < target
    ensures var all := chosen + Spendable(items, prevTxid);
            match Select(items, e, keys, prevTxid, rateK, target, chosen)
            case Selected(coins) =>
              GreedyPrefix(all, coins, rateK, target) && Known(coins, e, keys) && |coins| > |chosen|
            case Short => Known(all, e, keys) && forall j :: 0 < j <= |all| ==> Effective(all[..j], rateK) < target
            case LookupFailed => Blocked(all, e, keys, rateK, target, false)
            case MissingKey => Blocked(all, e, keys, rateK, target, true)
  {
    hide Effective;
    var all := chosen + Spendable(items, prevTxid);
    if items == [] || items[0].Failure? {
      assert all == chosen;
    } else {
      var u := items[0].utxo;
      if prevTxid == Some(u.outpoint.txid) {
        SelectIsGreedy(items[1..], e, keys, prevTxid, rateK, target, chosen);
      } else {
        assert all[|chosen|] == u;
        if u.outpoint in e.scripts && e.scripts[u.outpoint] in keys {
          var next := chosen + [u];
          assert all == next + Spendable(items[1..], prevTxid);
          forall j | 0 < j <= |chosen| ensures Effective(next[..j], rateK) < target {
            assert next[..j] == chosen[..j];
          }
          assert next[..|next|] == next;
          if Effective(next, rateK) < target {
            SelectIsGreedy(items[1..], e, keys, prevTxid, rateK, target, next);
          } else {
            assert GreedyPrefix(all, next, rateK, target);
          }
        } else {
          var k := |chosen|;
          assert !Known([all[k]], e, keys) by {
            assert [all[k]][0] == u;
          }
          forall j | 0 < j <= k ensures Effective(all[..j], rateK) < target {
            assert all[..j] == chosen[..j];
          }
          assert all[..k] == chosen;
          assert BlockedAt(all, e, keys, rateK, target, k);
        }
      }
    }
  }

  // ------------------------------------------------------------------ assembling the transaction

  function InputsOf(coins: seq<Utxo>): seq<TxIn> {
    seq(|coins|, i requires 0 <= i < |coins| => TxIn(coins[i].outpoint, []))
  }

  function ChangeAmount(outputs: seq<TxOut>, coins: seq<Utxo>, changeScript: Script, rateK: nat): nat {
    GetChange(CoinOutputs(coins, rateK), SelectionTarget(outputs, rateK), MinViableChange(changeScript),
              ChangeFee(changeScript, rateK))
  }

  /** The unsigned transaction before the change output is adjusted to the exact size. */
  function Draft(outputs: seq<TxOut>, coins: seq<Utxo>, changeScript: Script, rateK: nat): Transaction {
    var change := ChangeAmount(outputs, coins, changeScript, rateK);
    Transaction(InputsOf(coins), if change > 0 then outputs + [TxOut(change, changeScript)] else outputs)
  }

  function FeeNeeded(outputs: seq<TxOut>, coins: seq<Utxo>, changeScript: Script, rateK: nat): nat {
    GetFee(rateK, MaximumSignedVSize(Draft(outputs, coins, changeScript, rateK)))
  }

  /** The funded transaction. The result pays out no more than the coins hold. */
  function Assemble(outputs: seq<TxOut>, coins: seq<Utxo>, changeScript: Script, rateK: nat): (tx: Transaction)
    requires Effective(coins, rateK) >= SelectionTarget(outputs, rateK)
    ensures tx.input == InputsOf(coins)
    ensures outputs <= tx.output && |tx.output| <= |outputs| + 1
    ensures OutputSum(tx.output) <= InputSum(coins)
  {
    DraftIsCovered(outputs, coins, changeScript, rateK);
    var draft := Draft(outputs, coins, changeScript, rateK);
    var change := ChangeAmount(outputs, coins, changeScript, rateK);
    var needed := FeeNeeded(outputs, coins, changeScript, rateK);
    var feeRet := InputSum(coins) - OutputSum(outputs) - change;
    if change > 0 && needed < feeRet
    then
      var final := outputs + [TxOut(change + (feeRet - needed), changeScript)];
      assert final[..|outputs|] == outputs;
      draft.(output := final)
    else draft
  }

  lemma {:induction false} EffectiveAtMostValue(coins: seq<Utxo>, rateK: nat)
    ensures Effective(coins, rateK) <= InputSum(coins) == SelectedValue(CoinOutputs(coins, rateK))
  {
    if coins != [] {
      EffectiveAtMostValue(coins[..|coins| - 1], rateK);
      assert CoinOutputs(coins, rateK)[..|coins| - 1] == CoinOutputs(coins[..|coins| - 1], rateK);
    }
  }

  /** `get_selected_value - recipients_sum - change_amount` never underflows. */
  lemma {:induction false} DraftIsCovered(outputs: seq<TxOut>, coins: seq<Utxo>, changeScript: Script, rateK: nat)
    requires Effective(coins, rateK) >= SelectionTarget(outputs, rateK)
    ensures InputSum(coins) >= OutputSum(outputs) + ChangeAmount(outputs, coins, changeScript, rateK)
    ensures OutputSum(Draft(outputs, coins, changeScript, rateK).output)
         == OutputSum(outputs) + ChangeAmount(outputs, coins, changeScript, rateK)
    ensures outputs <= Draft(outputs, coins, changeScript, rateK).output
  {
    EffectiveAtMostValue(coins, rateK);
    var change := ChangeAmount(outputs, coins, changeScript, rateK);
    assert (outputs + [TxOut(change, changeScript)])[..|outputs|] == outputs;
  }

  datatype Psbt = Psbt(unsignedTx: Transaction, utxos: seq<TxOut>)

  datatype Funding = Funded(psbt: Psbt) | NotEnoughInputs | ElectrsError | NoKeyPanic

  function FundedPsbt(e: Electrs, outputs: seq<TxOut>, coins: seq<Utxo>, changeScript: Script, rateK: nat): Psbt
    requires Effective(coins, rateK) >= SelectionTarget(outputs, rateK)
    requires forall i :: 0 <= i < |coins| ==> coins[i].outpoint in e.scripts
  {
    Psbt(Assemble(outputs, coins, changeScript, rateK), WitnessUtxos(e, coins))
  }

  function WitnessUtxos(e: Electrs, coins: seq<Utxo>): seq<TxOut>
    requires forall i :: 0 <= i < |coins| ==> coins[i].outpoint in e.scripts
  {
    seq(|coins|, i requires 0 <= i < |coins| => TxOut(coins[i].value, e.scripts[coins[i].outpoint]))
  }

  /** No sum of the funding code leaves `u64`: what every caller must respect. */
  predicate FitsU64(e: Electrs, keys: seq<Script>, tx: Transaction, prevTxid: Option<Txid>, rateK: nat) {
    && SelectionTarget(tx.output, rateK) <= U64_MAX
    && InputSum(Spendable(Items(e, tx.input, keys), prevTxid)) <= U64_MAX
  }

  function SelectFor(e: Electrs, keys: seq<Script>, tx: Transaction, rateK: nat, prevTxid: Option<Txid>): Selection {
    Select(Items(e, tx.input, keys), e, keys, prevTxid, rateK, SelectionTarget(tx.output, rateK), [])
  }

  /** What a selection turns into. */
  function Conclude(e: Electrs, sel: Selection, outputs: seq<TxOut>, changeScript: Script, rateK: nat): Funding
    requires sel.Selected? ==> Effective(sel.coins, rateK) >= SelectionTarget(outputs, rateK)
    requires sel.Selected? ==> forall i :: 0 <= i < |sel.coins| ==> sel.coins[i].outpoint in e.scripts
  {
    match sel
    case Selected(coins) => Funded(FundedPsbt(e, outputs, coins, changeScript, rateK))
    case Short => NotEnoughInputs
    case LookupFailed => ElectrsError
    case MissingKey => NoKeyPanic
  }

  /** The outcome of `fund_transaction`: the transaction assembled from the greedy prefix of the
      usable coins, or the reason there is none. */
  function FundingOf(e: Electrs, keys: seq<Script>, tx: Transaction, changeScript: Script, rateK: nat,
                     prevTxid: Option<Txid>): Funding
  {
    if changeScript !in keys then NoKeyPanic
    else
      var all := Spendable(Items(e, tx.input, keys), prevTxid);
      var sel := SelectFor(e, keys, tx, rateK, prevTxid);
      SelectIsGreedy(Items(e, tx.input, keys), e, keys, prevTxid, rateK, SelectionTarget(tx.output, rateK), []);
      assert [] + all == all;
      Conclude(e, sel, tx.output, changeScript, rateK)
  }

  /** The coins funding needs: a greedy prefix of the usable coins, all of them known. */
  ghost predicate FundedBy(e: Electrs, keys: seq<Script>, tx: Transaction, rateK: nat, prevTxid: Option<Txid>,
                           coins: seq<Utxo>)
  {
    && GreedyPrefix(Spendable(Items(e, tx.input, keys), prevTxid), coins, rateK, SelectionTarget(tx.output, rateK))
    && Known(coins, e, keys)
  }

  /** Funding succeeds exactly when the change key is there and such coins exist, and it spends
      them. It reports a shortage only when no prefix of the usable coins is enough, and the two
      other failures name what is missing for the first coin in the way. */
  lemma {:induction false} FundingIsGreedy(e: Electrs, keys: seq<Script>, tx: Transaction, changeScript: Script,
                                           rateK: nat, prevTxid: Option<Txid>)
    ensures var r := FundingOf(e, keys, tx, changeScript, rateK, prevTxid);
            var all := Spendable(Items(e, tx.input, keys), prevTxid);
            && (r.Funded? <==> changeScript in keys && exists coins :: FundedBy(e, keys, tx, rateK, prevTxid, coins))
            && (forall coins :: r.Funded? && FundedBy(e, keys, tx, rateK, prevTxid, coins) ==>
                  r.psbt == FundedPsbt(e, tx.output, coins, changeScript, rateK))
            && (r.NotEnoughInputs? ==>
                  forall j :: 0 < j <= |all| ==> Effective(all[..j], rateK) < SelectionTarget(tx.output, rateK))
            && (r.ElectrsError? ==> Blocked(all, e, keys, rateK, SelectionTarget(tx.output, rateK), false))
            && (r.NoKeyPanic? ==>
                  changeScript !in keys || Blocked(all, e, keys, rateK, SelectionTarget(tx.output, rateK), true))
  {
    hide Effective, Assemble, Items, SelectionTarget;
    var all := Spendable(Items(e, tx.input, keys), prevTxid);
    var target := SelectionTarget(tx.output, rateK);
    var sel := SelectFor(e, keys, tx, rateK, prevTxid);
    SelectIsGreedy(Items(e, tx.input, keys), e, keys, prevTxid, rateK, target, []);
    assert [] + all == all;
    if sel.Selected? {
      assert FundedBy(e, keys, tx, rateK, prevTxid, sel.coins);
    }
    forall coins | FundedBy(e, keys, tx, rateK, prevTxid, coins) ensures sel == Selected(coins) {
      assert all[..|coins|] == coins;
      GreedyNotBlocked(all, coins, e, keys, rateK, target);
      if sel.Selected? {
        GreedyUnique(all, coins, sel.coins, rateK, target);
      }
    }
  }

  lemma {:induction false} GreedyUnique(all: seq<Utxo>, a: seq<Utxo>, b: seq<Utxo>, rateK: nat, target: nat)
    requires GreedyPrefix(all, a, rateK, target) && GreedyPrefix(all, b, rateK, target)
    ensures a == b
  {
    hide Effective;
    assert a == all[..|a|] && b == all[..|b|];
    forall j | 0 < j < |a| ensures Effective(all[..j], rateK) < target {
      assert all[..j] == a[..j];
    }
    forall j | 0 < j < |b| ensures Effective(all[..j], rateK) < target {
      assert all[..j] == b[..j];
    }
  }

  lemma {:induction false} GreedyNotBlocked(all: seq<Utxo>, coins: seq<Utxo>, e: Electrs, keys: seq<Script>, rateK: nat,
                                            target: nat)
    requires GreedyPrefix(all, coins, rateK, target) && Known(coins, e, keys)
    ensures forall found :: !Blocked(all, e, keys, rateK, target, found)
  {
    hide Effective;
    assert all[..|coins|] == coins;
    forall k | 0 <= k < |all| ensures !BlockedAt(all, e, keys, rateK, target, k) {
      if k < |coins| {
        assert all[k] == coins[k];
      }
    }
  }

  /** What the loop can use, in full: a coin before the first failed query that is not an output of
      the transaction being replaced. */
  lemma {:induction false} SpendableIff(items: seq<Item>, prevTxid: Option<Txid>, u: Utxo)
    ensures u in Spendable(items, prevTxid)
            <==> prevTxid != Some(u.outpoint.txid) && exists i :: OfferedAt(items, u, i)
  {
    if items != [] {
      var rest := items[1..];
      SpendableIff(rest, prevTxid, u);
      if items[0].Failure? {
        assert forall i :: !OfferedAt(items, u, i);
      } else {
        forall i | i > 0 ensures OfferedAt(items, u, i) <==> OfferedAt(rest, u, i - 1) {
          assert forall j :: 0 < j < |items| ==> items[j] == rest[j - 1];
        }
        assert forall i :: OfferedAt(rest, u, i) ==> OfferedAt(items, u, i + 1);
        assert OfferedAt(items, u, 0) <==> items[0] == Coin(u);
      }
    }
  }

  predicate OfferedAt(items: seq<Item>, u: Utxo, i: int) {
    0 <= i < |items| && items[i] == Coin(u) && forall j :: 0 <= j < i ==> items[j].Coin?
  }

  /** What a funded transaction hands to the signer: for each input the value and the script that
      electrs reports, under a key of the wallet, and never an output of the replaced transaction. */
  lemma {:induction false} FundedInputsAreSpendable(e: Electrs, keys: seq<Script>, tx: Transaction,
                                                    changeScript: Script, rateK: nat, prevTxid: Option<Txid>, i: nat)
    requires FundingOf(e, keys, tx, changeScript, rateK, prevTxid).Funded?
    requires i < |FundingOf(e, keys, tx, changeScript, rateK, prevTxid).psbt.unsignedTx.input|
    ensures var psbt := FundingOf(e, keys, tx, changeScript, rateK, prevTxid).psbt;
            var o := psbt.unsignedTx.input[i].previousOutput;
            && |psbt.utxos| == |psbt.unsignedTx.input|
            && prevTxid != Some(o.txid)
            && o in e.scripts && e.scripts[o] in keys && psbt.utxos[i].scriptPubkey == e.scripts[o]
            && Coin(Utxo(o, psbt.utxos[i].value)) in Items(e, tx.input, keys)
  {
    hide Effective, SelectionTarget, Items, FundingOf, Spendable;
    FundingIsGreedy(e, keys, tx, changeScript, rateK, prevTxid);
    var coins :| FundedBy(e, keys, tx, rateK, prevTxid, coins);
    var all := Spendable(Items(e, tx.input, keys), prevTxid);
    assert coins[i] == all[i];
    SpendableIff(Items(e, tx.input, keys), prevTxid, coins[i]);
  }

  /** At the funding level: what addresses after the first empty one hold makes no difference to the
      coins that can be used. */
  lemma {:induction false} EmptyAddressHidesCoins(e: Electrs, ins: seq<TxIn>, keys: seq<Script>,
                                                  prevTxid: Option<Txid>, k: nat)
    requires k < |keys| && keys[k] in e.utxosOf && e.utxosOf[keys[k]] == []
    ensures Spendable(Items(e, ins, keys), prevTxid) == Spendable(Items(e, ins, keys[..k]), prevTxid)
  {
    StreamEndsAtFirstEmptyAddress(e, keys, k);
  }

  /** So a wallet that holds enough can fail to pay: with the empty address first it reports a
      shortage, and with the same two addresses the other way round it pays. */
  lemma {:induction false} RichWalletFallsShort(e: Electrs, empty: Script, rich: Script, u: Utxo, outputs: seq<TxOut>,
                                                rateK: nat)
    requires empty in e.utxosOf && e.utxosOf[empty] == [] && rich in e.utxosOf && e.utxosOf[rich] == [u]
    requires u.outpoint in e.scripts && e.scripts[u.outpoint] == rich
    requires Effective([u], rateK) >= SelectionTarget(outputs, rateK)
    ensures FundingOf(e, [empty, rich], Transaction([], outputs), rich, rateK, None) == NotEnoughInputs
    ensures FundingOf(e, [rich, empty], Transaction([], outputs), rich, rateK, None).Funded?
  {
    hide Effective, SelectionTarget;
    var tx := Transaction([], outputs);
    assert Items(e, [], [empty, rich]) == [];
    assert AddressItems(e, [rich, empty][1..]) == [];
    assert Items(e, [], [rich, empty]) == [Coin(u)];
    assert Spendable([Coin(u)], None) == [u];
    FundingIsGreedy(e, [rich, empty], tx, rich, rateK, None);
    assert FundedBy(e, [rich, empty], tx, rateK, None, [u]);
  }

  lemma {:induction false} SpendableCoins(coins: seq<Utxo>)
    ensures Spendable(Coins(coins), None) == coins
  {
    if coins != [] {
      SpendableCoins(coins[1..]);
      assert Coins(coins)[1..] == Coins(coins[1..]);
    }
  }

  lemma {:induction false} EffectiveGrows(coins: seq<Utxo>, j: nat, rateK: nat)
    requires j <= |coins|
    ensures Effective(coins[..j], rateK) <= Effective(coins, rateK)
    decreases |coins|
  {
    if j < |coins| {
      var init := coins[..|coins| - 1];
      EffectiveGrows(init, j, rateK);
      assert coins[..j] == init[..j];
      assert CoinOutputs(coins, rateK)[..|coins| - 1] == CoinOutputs(init, rateK);
    } else {
      assert coins[..j] == coins;
    }
  }

  lemma {:induction false} ShortestPrefix(all: seq<Utxo>, rateK: nat, target: nat) returns (coins: seq<Utxo>)
    requires all != [] && Effective(all, rateK) >= target
    ensures GreedyPrefix(all, coins, rateK, target)
  {
    hide Effective;
    var j := 1;
    while Effective(all[..j], rateK) < target
      invariant 1 <= j <= |all|
      invariant forall i :: 0 < i < j ==> Effective(all[..i], rateK) < target
      decreases |all| - j
    {
      assert all[..|all|] == all;
      j := j + 1;
    }
    coins := all[..j];
    assert forall i :: 0 < i < j ==> coins[..i] == all[..i];
  }

  /** A wallet that holds enough pays, exactly: without a gap, a new payment from known coins is
      funded if and only if there is a coin and all coins together reach the target. */
  lemma {:induction false} FundedIffHeldEnough(e: Electrs, keys: seq<Script>, outputs: seq<TxOut>, cs: Script,
                                               rateK: nat)
    requires Answered(e, keys) && NoGap(e, keys) && cs in keys && Known(Held(e, keys), e, keys)
    ensures FundingOf(e, keys, Transaction([], outputs), cs, rateK, None).Funded?
            <==> Held(e, keys) != [] && Effective(Held(e, keys), rateK) >= SelectionTarget(outputs, rateK)
  {
    hide Effective, SelectionTarget, FundingOf, Held;
    var tx, all := Transaction([], outputs), Held(e, keys);
    var target := SelectionTarget(outputs, rateK);
    StreamOffersAllIff(e, keys);
    assert Items(e, [], keys) == Coins(all);
    SpendableCoins(all);
    FundingIsGreedy(e, keys, tx, cs, rateK, None);
    if FundingOf(e, keys, tx, cs, rateK, None).Funded? {
      var coins :| FundedBy(e, keys, tx, rateK, None, coins);
      assert coins == all[..|coins|];
      EffectiveGrows(all, |coins|, rateK);
    }
    if all != [] && Effective(all, rateK) >= target {
      var coins := ShortestPrefix(all, rateK, target);
      assert Known(coins, e, keys) by {
        assert forall i :: 0 <= i < |coins| ==> coins[i] == all[i];
      }
      assert FundedBy(e, keys, tx, rateK, None, coins);
    }
  }

  /** `fund_transaction`. `keys` are the scripts of the key store, in its order. */
  method FundTransaction(e: Electrs, keys: seq<Script>, tx: Transaction, changeScript: Script, rateK: nat,
                         prevTxid: Option<Txid>) returns (r: Funding)
    requires FitsU64(e, keys, tx, prevTxid, rateK)
    ensures r == FundingOf(e, keys, tx, changeScript, rateK, prevTxid)
  {
    hide GetFee, NotInputSize, Assemble, Items, Coins;
    var recipientsSum := OutputSum(tx.output);
    if changeScript !in keys {
      return NoKeyPanic;
    }
    var notInputFees := GetFee(rateK, NotInputSize(tx.output));

    var selectionTarget := recipientsSum + notInputFees;
    var valueToSelect := selectionTarget;
    var selectCoins := new SelectCoins(selectionTarget);
    var psbt := Psbt(Transaction([], tx.output), []);

    ghost var sel := SelectFor(e, keys, tx, rateK, prevTxid);
    ghost var chosen: seq<Utxo> := [];
    var stream := new CoinStream(e, tx.input, keys);
    while true
      invariant fresh(stream) && fresh(selectCoins)
      invariant sel
             == Select(stream.Remaining(), e, keys, prevTxid, rateK, selectionTarget, chosen)
      invariant Building(e, keys, tx.output, rateK, chosen, selectCoins.presetInputs, valueToSelect, psbt)
      decreases |stream.Remaining()|
    {
      var item := stream.Next();
      if item == None || item.value.Failure? {
        return NotEnoughInputs;
      }
      var utxo := item.value.utxo;
      if prevTxid == Some(utxo.outpoint.txid) {
        continue;
      }
      if utxo.outpoint !in e.scripts {
        return ElectrsError;
      }
      var scriptPubkey := e.scripts[utxo.outpoint];
      if scriptPubkey !in keys {
        return NoKeyPanic;
      }
      valueToSelect, psbt :=
        AddCoin(e, keys, rateK, chosen, selectCoins, valueToSelect, psbt, utxo, scriptPubkey);
      chosen := chosen + [utxo];
      if valueToSelect == 0 {
        var funded := AddChange(psbt.unsignedTx, chosen, selectCoins, recipientsSum, changeScript, rateK);
        return Funded(psbt.(unsignedTx := funded));
      }
    }
    assert false;
  }

  /** The loop's variables after it has taken the coins `chosen`. */
  ghost predicate Building(e: Electrs, keys: seq<Script>, outputs: seq<TxOut>, rateK: nat, chosen: seq<Utxo>,
                           presetInputs: seq<CoinOutput>, valueToSelect: nat, psbt: Psbt)
  {
    && Known(chosen, e, keys)
    && presetInputs == CoinOutputs(chosen, rateK)
    && valueToSelect == SatSub(SelectionTarget(outputs, rateK), Effective(chosen, rateK))
    && psbt == Psbt(Transaction(InputsOf(chosen), outputs), WitnessUtxos(e, chosen))
  }

  /** One round of the loop: account for the coin and push it as an input. */
  method AddCoin(ghost e: Electrs, ghost keys: seq<Script>, rateK: nat, ghost chosen: seq<Utxo>,
                 selectCoins: SelectCoins, valueToSelect: nat, psbt: Psbt, utxo: Utxo, scriptPubkey: Script)
    returns (rest: nat, grown: Psbt)
    requires utxo.outpoint in e.scripts && e.scripts[utxo.outpoint] == scriptPubkey && scriptPubkey in keys
    requires Building(e, keys, psbt.unsignedTx.output, rateK, chosen, selectCoins.presetInputs, valueToSelect, psbt)
    modifies selectCoins
    ensures Building(e, keys, psbt.unsignedTx.output, rateK, chosen + [utxo], selectCoins.presetInputs, rest, grown)
  {
    var coinOutput := CoinOutput(utxo.value, GetFee(rateK, MaximumSignedInputSize(utxo.outpoint)));
    selectCoins.Add(coinOutput);
    rest := SatSub(valueToSelect, EffectiveValue(coinOutput));
    grown := Psbt(psbt.unsignedTx.(input := psbt.unsignedTx.input + [TxIn(utxo.outpoint, [])]),
                  psbt.utxos + [TxOut(utxo.value, scriptPubkey)]);
    AddCoinSteps(e, chosen, utxo, rateK);
  }

  lemma {:induction false} AddCoinSteps(e: Electrs, chosen: seq<Utxo>, u: Utxo, rateK: nat)
    requires u.outpoint in e.scripts && forall i :: 0 <= i < |chosen| ==> chosen[i].outpoint in e.scripts
    ensures var next := chosen + [u];
            && CoinOutputs(next, rateK) == CoinOutputs(chosen, rateK) + [CoinOutputOf(u, rateK)]
            && Effective(next, rateK) == Effective(chosen, rateK) + EffectiveValue(CoinOutputOf(u, rateK))
            && InputsOf(next) == InputsOf(chosen) + [TxIn(u.outpoint, [])]
            && WitnessUtxos(e, next) == WitnessUtxos(e, chosen) + [TxOut(u.value, e.scripts[u.outpoint])]
  {
    var cs := CoinOutputs(chosen + [u], rateK);
    assert cs[..|chosen|] == CoinOutputs(chosen, rateK);
  }

  /** The tail of `fund_transaction`: add the change output, then hand back to it whatever the
      size estimate shows to be too much fee. */
  method AddChange(unsigned: Transaction, ghost coins: seq<Utxo>, selectCoins: SelectCoins, recipientsSum: nat,
                   changeScript: Script, rateK: nat) returns (tx: Transaction)
    requires unsigned.input == InputsOf(coins) && recipientsSum == OutputSum(unsigned.output)
    requires selectCoins.presetInputs == CoinOutputs(coins, rateK)
    requires selectCoins.targetValue == SelectionTarget(unsigned.output, rateK)
    requires Effective(coins, rateK) >= SelectionTarget(unsigned.output, rateK)
    ensures tx == Assemble(unsigned.output, coins, changeScript, rateK)
  {
    hide GetFee, MaximumSignedVSize, Effective, DustThreshold;
    tx := unsigned;
    var changeFee := ChangeFee(changeScript, rateK);
    var minViableChange := MinViableChange(changeScript);
    var changeAmount := GetChange(selectCoins.presetInputs, selectCoins.targetValue, minViableChange, changeFee);
    var changePos := None;
    if changeAmount > 0 {
      changePos := Some(|tx.output|);
      tx := tx.(output := tx.output + [TxOut(changeAmount, changeScript)]);
    }
    assert tx == Draft(unsigned.output, coins, changeScript, rateK);
    assert changeAmount == ChangeAmount(unsigned.output, coins, changeScript, rateK);
    DraftIsCovered(unsigned.output, coins, changeScript, rateK);
    EffectiveAtMostValue(coins, rateK);
    var feeNeeded := GetFee(rateK, MaximumSignedVSize(tx));
    var feeRet: nat := SelectedValue(selectCoins.presetInputs) - recipientsSum - changeAmount;
    if changePos.Some? && feeNeeded < feeRet {
      var changeOutput := tx.output[changePos.value];
      changeOutput := changeOutput.(value := changeOutput.value + (feeRet - feeNeeded));
      tx := tx.(output := tx.output[changePos.value := changeOutput]);
    }
  }
}
