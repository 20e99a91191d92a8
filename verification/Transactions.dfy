/**
 Bitcoin transactions as the clients read and write them: scripts and the addresses they
 encode, the OP_RETURN and payment lookups used to match a transaction to a request, and the
 serialized sizes of BIP 141, section "Transaction size calculations".

 Signatures are opaque: a witness stack is the list of the sizes of its elements.
 */
module Transactions {
  import opened Prelude

  newtype Byte = x: int | 0 <= x < 256

  type Script = seq<Byte>
  type Txid = nat

  datatype OutPoint = OutPoint(txid: Txid, vout: nat)

  // `script_sig` is always empty (only segwit inputs are produced) and `sequence` always enables RBF.
  datatype TxIn = TxIn(previousOutput: OutPoint, stack: seq<nat>)

  datatype TxOut = TxOut(value: nat, scriptPubkey: Script)

  datatype Transaction = Transaction(input: seq<TxIn>, output: seq<TxOut>)

  // ------------------------------------------------------------------ scripts and addresses

  datatype Payload =
    | PubkeyHash(hash: seq<Byte>)
    | ScriptHash(hash: seq<Byte>)
    | WitnessProgram(version: nat, program: seq<Byte>)
  {
    predicate Valid() {
      match this
      case PubkeyHash(h) => |h| == 20
      case ScriptHash(h) => |h| == 20
      case WitnessProgram(v, p) => v <= 16 && 2 <= |p| <= 40 && (v == 0 ==> |p| == 20 || |p| == 32)
    }

    function ScriptPubkey(): Script
      requires Valid()
    {
      match this
      case PubkeyHash(h) => [0x76, 0xa9, 0x14] + h + [0x88, 0xac]
      case ScriptHash(h) => [0xa9, 0x14] + h + [0x87]
      case WitnessProgram(v, p) => [if v == 0 then 0 else (0x50 + v) as Byte, |p| as Byte] + p
    }
  }

  predicate IsWitnessProgram(s: Script) {
    4 <= |s| <= 42 && (s[0] == 0 || 0x51 <= s[0] <= 0x60) && s[1] as int == |s| - 2
  }

  /** `Payload::from_script`: the address an output script pays to, if it has one. */
  function FromScript(s: Script): Option<Payload> {
    if |s| == 25 && s[..3] == [0x76, 0xa9, 0x14] && s[23..] == [0x88, 0xac] then
      Some(PubkeyHash(s[3..23]))
    else if |s| == 23 && s[..2] == [0xa9, 0x14] && s[22] == 0x87 then
      Some(ScriptHash(s[2..22]))
    else if IsWitnessProgram(s) then
      var p := WitnessProgram(if s[0] == 0 then 0 else s[0] as int - 0x50, s[2..]);
      if p.Valid() then Some(p) else None
    else
      None
  }

  /** An address determines its script: decoding a script and encoding it again gives it back. */
  lemma {:induction false} FromScriptRoundTrip(s: Script)
    requires FromScript(s).Some?
    ensures FromScript(s).value.Valid() && FromScript(s).value.ScriptPubkey() == s
  {
    if |s| == 25 && s[..3] == [0x76, 0xa9, 0x14] && s[23..] == [0x88, 0xac] {
      assert s == s[..3] + s[3..23] + s[23..];
    } else if |s| == 23 && s[..2] == [0xa9, 0x14] && s[22] == 0x87 {
      assert s == s[..2] + s[2..22] + [s[22]];
    } else {
      assert s == [s[0], s[1]] + s[2..];
    }
  }

  lemma {:induction false} ScriptPubkeyRoundTrip(p: Payload)
    requires p.Valid()
    ensures FromScript(p.ScriptPubkey()) == Some(p)
  {
    var s := p.ScriptPubkey();
    match p
    case PubkeyHash(h) =>
      assert s[..3] == [0x76, 0xa9, 0x14] && s[3..23] == h && s[23..] == [0x88, 0xac];
    case ScriptHash(h) =>
      assert s[..2] == [0xa9, 0x14] && s[2..22] == h && s[22] == 0x87;
    case WitnessProgram(v, q) =>
      assert s[2..] == q;
      assert |s| == 25 ==> s[..3][0] == s[0];
      assert |s| == 23 ==> s[..2][0] == s[0];
  }

  // ------------------------------------------------------------------ matching helpers

  predicate IsOpReturn(s: Script) {
    |s| == 34 && s[0] == 0x6a && s[1] == 32
  }

  function OpReturnScript(data: seq<Byte>): Script
    requires |data| == 32
  {
    [0x6a, 32] + data
  }

  lemma {:induction false} OpReturnHasNoAddress(s: Script)
    requires IsOpReturn(s)
    ensures FromScript(s) == None
  {
  }

  function FindOpReturn(outs: seq<TxOut>): Option<seq<Byte>> {
    if outs == [] then None
    else if IsOpReturn(outs[0].scriptPubkey) then Some(outs[0].scriptPubkey[2..])
    else FindOpReturn(outs[1..])
  }

  /** Only the first three outputs are looked at, as on the parachain. */
  function GetOpReturn(tx: Transaction): Option<seq<Byte>> {
    FindOpReturn(tx.output[..Min(3, |tx.output|)])
  }

  function FindPayment(outs: seq<TxOut>, dest: Payload): Option<nat> {
    if outs == [] then None
    else if FromScript(outs[0].scriptPubkey) == Some(dest) then Some(outs[0].value)
    else FindPayment(outs[1..], dest)
  }

  function GetPaymentAmountTo(tx: Transaction, dest: Payload): Option<nat> {
    FindPayment(tx.output, dest)
  }

  /** Output `k` is the first one among `outs` that carries 32 bytes behind an OP_RETURN. */
  predicate FirstOpReturn(outs: seq<TxOut>, k: int) {
    && 0 <= k < |outs| && IsOpReturn(outs[k].scriptPubkey)
    && forall j :: 0 <= j < k ==> !IsOpReturn(outs[j].scriptPubkey)
  }

  /** Output `k` is the first one that pays to `dest`. */
  predicate FirstPayment(outs: seq<TxOut>, dest: Payload, k: int) {
    && 0 <= k < |outs| && FromScript(outs[k].scriptPubkey) == Some(dest)
    && forall j :: 0 <= j < k ==> FromScript(outs[j].scriptPubkey) != Some(dest)
  }

  lemma {:induction false} FindOpReturnIff(outs: seq<TxOut>, d: seq<Byte>)
    ensures FindOpReturn(outs) == Some(d) <==> exists k :: FirstOpReturn(outs, k) && outs[k].scriptPubkey[2..] == d
  {
    if outs != [] {
      var rest := outs[1..];
      FindOpReturnIff(rest, d);
      if IsOpReturn(outs[0].scriptPubkey) {
        assert FirstOpReturn(outs, 0);
        assert forall k :: FirstOpReturn(outs, k) ==> k == 0;
      } else {
        forall k ensures FirstOpReturn(outs, k) <==> FirstOpReturn(rest, k - 1) {
          assert forall j :: 0 < j < |outs| ==> outs[j] == rest[j - 1];
        }
        assert forall k :: FirstOpReturn(rest, k) ==> FirstOpReturn(outs, k + 1);
      }
    }
  }

  /** The lookup finds `d` exactly when the first OP_RETURN among the first three outputs carries it. */
  lemma {:induction false} OpReturnIff(tx: Transaction, d: seq<Byte>)
    ensures GetOpReturn(tx) == Some(d)
            <==> exists k :: k < 3 && FirstOpReturn(tx.output, k) && tx.output[k].scriptPubkey[2..] == d
  {
    var first := tx.output[..Min(3, |tx.output|)];
    FindOpReturnIff(first, d);
    forall k ensures FirstOpReturn(first, k) <==> k < 3 && FirstOpReturn(tx.output, k) {
      assert forall j :: 0 <= j < |first| ==> first[j] == tx.output[j];
    }
  }

  /** The amount found is the value of the first output that pays to the destination. */
  lemma {:induction false} PaymentAmountIff(outs: seq<TxOut>, dest: Payload, v: nat)
    ensures FindPayment(outs, dest) == Some(v) <==> exists k :: FirstPayment(outs, dest, k) && outs[k].value == v
  {
    if outs != [] {
      var rest := outs[1..];
      PaymentAmountIff(rest, dest, v);
      if FromScript(outs[0].scriptPubkey) == Some(dest) {
        assert FirstPayment(outs, dest, 0);
        assert forall k :: FirstPayment(outs, dest, k) ==> k == 0;
      } else {
        forall k ensures FirstPayment(outs, dest, k) <==> FirstPayment(rest, dest, k - 1) {
          assert forall j :: 0 < j < |outs| ==> outs[j] == rest[j - 1];
        }
        assert forall k :: FirstPayment(rest, dest, k) ==> FirstPayment(outs, dest, k + 1);
      }
    }
  }

  /** What a recovery scan looks for in a transaction. */
  predicate Satisfies(tx: Transaction, hash: seq<Byte>, dest: Payload, amount: nat) {
    && GetOpReturn(tx) == Some(hash)
    && GetPaymentAmountTo(tx, dest).Some? && GetPaymentAmountTo(tx, dest).value >= amount
  }

  /** Index and address of every output from `i` on that has a non-zero value and an address. */
  function IndexedOutputAddresses(outs: seq<TxOut>, i: nat): seq<(nat, Payload)>
    requires i <= |outs|
    decreases |outs| - i
  {
    if i == |outs| then []
    else
      var rest := IndexedOutputAddresses(outs, i + 1);
      var payload := FromScript(outs[i].scriptPubkey);
      if outs[i].value > 0 && payload.Some? then [(i, payload.value)] + rest else rest
  }

  function Without(addresses: seq<(nat, Payload)>, dest: Payload): seq<(nat, Payload)> {
    if addresses == [] then []
    else
      var rest := Without(addresses[1..], dest);
      if addresses[0].1 != dest then [addresses[0]] + rest else rest
  }

  datatype ReturnToSelf = Absent | Found(index: nat, payload: Payload) | TooMany

  function ExtractReturnToSelfAddress(tx: Transaction, dest: Payload): ReturnToSelf {
    var others := Without(IndexedOutputAddresses(tx.output, 0), dest);
    if |others| == 0 then Absent
    else if |others| == 1 then Found(others[0].0, others[0].1)
    else TooMany
  }

  /** Output `i` has a value and an address other than the destination. */
  predicate Returns(outs: seq<TxOut>, dest: Payload, i: int) {
    && 0 <= i < |outs| && outs[i].value > 0
    && FromScript(outs[i].scriptPubkey).Some? && FromScript(outs[i].scriptPubkey).value != dest
  }

  /** `rs` lists exactly the outputs from `from` on that return, in order, each with its address. */
  predicate ListsReturns(rs: seq<(nat, Payload)>, outs: seq<TxOut>, dest: Payload, from: nat) {
    && (forall k :: 0 <= k < |rs| ==> from <= rs[k].0 && IsReturn(rs[k], outs, dest))
    && (forall k, l :: 0 <= k < l < |rs| ==> rs[k].0 < rs[l].0)
    && (forall i :: from <= i < |outs| && Returns(outs, dest, i) ==> exists k :: 0 <= k < |rs| && rs[k].0 == i)
  }

  predicate IsReturn(r: (nat, Payload), outs: seq<TxOut>, dest: Payload) {
    Returns(outs, dest, r.0) && FromScript(outs[r.0].scriptPubkey) == Some(r.1)
  }

  lemma {:induction false} WithoutIff(outs: seq<TxOut>, dest: Payload, from: nat)
    requires from <= |outs|
    ensures ListsReturns(Without(IndexedOutputAddresses(outs, from), dest), outs, dest, from)
    decreases |outs| - from
  {
    hide FromScript;
    if from < |outs| {
      WithoutIff(outs, dest, from + 1);
      var tail := IndexedOutputAddresses(outs, from + 1);
      if outs[from].value > 0 && FromScript(outs[from].scriptPubkey).Some? {
        var first := (from, FromScript(outs[from].scriptPubkey).value);
        assert ([first] + tail)[1..] == tail;
        if first.1 != dest {
          PrependReturn(first, Without(tail, dest), outs, dest, from);
        } else {
          SkipReturn(Without(tail, dest), outs, dest, from);
        }
      } else {
        SkipReturn(Without(tail, dest), outs, dest, from);
      }
    }
  }

  lemma {:induction false} PrependReturn(first: (nat, Payload), rest: seq<(nat, Payload)>, outs: seq<TxOut>,
                                         dest: Payload, from: nat)
    requires ListsReturns(rest, outs, dest, from + 1) && first.0 == from && IsReturn(first, outs, dest)
    ensures ListsReturns([first] + rest, outs, dest, from)
  {
    hide Returns, IsReturn;
    var rs := [first] + rest;
    forall k, l | 0 <= k < l < |rs| ensures rs[k].0 < rs[l].0 {
      assert rs[l] == rest[l - 1];
      if k > 0 {
        assert rs[k] == rest[k - 1];
      }
    }
    forall i | from <= i < |outs| && Returns(outs, dest, i) ensures exists k :: 0 <= k < |rs| && rs[k].0 == i {
      if i == from {
        assert rs[0].0 == i;
      } else {
        var k :| 0 <= k < |rest| && rest[k].0 == i;
        assert rs[k + 1].0 == i;
      }
    }
  }

  lemma {:induction false} SkipReturn(rest: seq<(nat, Payload)>, outs: seq<TxOut>, dest: Payload, from: nat)
    requires ListsReturns(rest, outs, dest, from + 1) && !Returns(outs, dest, from)
    ensures ListsReturns(rest, outs, dest, from)
  {
    hide Returns, IsReturn;
  }

  /** The return-to-self lookup in full: it finds the one output with a value and an address other
      than the destination, and tells none from too many. */
  lemma {:induction false} ReturnToSelfIff(tx: Transaction, dest: Payload)
    ensures match ExtractReturnToSelfAddress(tx, dest)
            case Absent => forall i :: !Returns(tx.output, dest, i)
            case Found(idx, p) =>
              && Returns(tx.output, dest, idx) && FromScript(tx.output[idx].scriptPubkey) == Some(p)
              && forall i :: Returns(tx.output, dest, i) ==> i == idx
            case TooMany => exists i, j :: i < j && Returns(tx.output, dest, i) && Returns(tx.output, dest, j)
  {
    hide FromScript;
    WithoutIff(tx.output, dest, 0);
    var rs := Without(IndexedOutputAddresses(tx.output, 0), dest);
    if |rs| >= 2 {
      assert rs[0].0 < rs[1].0;
    }
  }

  // ------------------------------------------------------------------ sizes

  function VarIntLen(n: nat): (r: nat)
    ensures 1 <= r <= 9
  {
    if n < 0xfd then 1 else if n <= 0xffff then 3 else if n <= 0xffff_ffff then 5 else 9
  }

  /** One byte up to 252, then a marker byte and the fewest of 2, 4 or 8 bytes that hold the number. */
  lemma {:induction false} VarIntWidths(n: nat)
    ensures VarIntLen(n) == 1 <==> n <= 252
    ensures VarIntLen(n) <= 3 <==> n < 0x1_0000
    ensures VarIntLen(n) <= 5 <==> n < 0x1_0000_0000
    ensures VarIntLen(n) in {1, 3, 5, 9}
  {
  }

  function OutputSize(o: TxOut): nat {
    8 + VarIntLen(|o.scriptPubkey|) + |o.scriptPubkey|
  }

  function OutputsSize(outs: seq<TxOut>): nat {
    if outs == [] then 0 else OutputsSize(outs[..|outs| - 1]) + OutputSize(outs[|outs| - 1])
  }

  function OutputSum(outs: seq<TxOut>): nat {
    if outs == [] then 0 else OutputSum(outs[..|outs| - 1]) + outs[|outs| - 1].value
  }

  // outpoint, sequence and the one byte that says `script_sig` is empty
  const INPUT_SIZE: nat := 32 + 4 + 4 + 1

  function ElementsSize(w: seq<nat>): nat {
    if w == [] then 0
    else ElementsSize(w[..|w| - 1]) + VarIntLen(w[|w| - 1]) + w[|w| - 1]
  }

  function WitnessSize(w: seq<nat>): nat {
    VarIntLen(|w|) + ElementsSize(w)
  }

  /** The accumulating loop of `Vec<Vec<u8>>::get_serialize_size`. */
  method SerializeWitnessSize(w: seq<nat>) returns (inputWeight: nat)
    ensures inputWeight == WitnessSize(w)
  {
    inputWeight := 0;
    inputWeight := inputWeight + VarIntLen(|w|);
    for i := 0 to |w|
      invariant inputWeight == VarIntLen(|w|) + ElementsSize(w[..i])
    {
      assert w[..i + 1][..i] == w[..i];
      inputWeight := inputWeight + VarIntLen(w[i]) + w[i];
    }
    assert w[..|w|] == w;
  }

  /** Four bytes in the witness weigh as much as one outside it. */
  function VirtualSize(weight: nat): nat {
    (weight + 3) / 4
  }

  function InputWeight(txin: TxIn): nat {
    INPUT_SIZE * 3 + INPUT_SIZE + WitnessSize(txin.stack)
  }

  // DER signature with a 33-byte r, a 32-byte s and the sighash byte; compressed public key
  const DUMMY_WITNESS: seq<nat> := [72, 33]

  function DummySignInput(txin: TxIn): TxIn {
    txin.(stack := DUMMY_WITNESS)
  }

  /** `calculate_maximum_signed_input_size`; it depends on neither the outpoint nor the key. */
  function MaximumSignedInputSize(outpoint: OutPoint): nat {
    VirtualSize(InputWeight(DummySignInput(TxIn(outpoint, []))))
  }

  function InputsWeight(ins: seq<TxIn>): nat {
    if ins == [] then 0
    else
      var last := ins[|ins| - 1];
      InputsWeight(ins[..|ins| - 1]) + 4 * INPUT_SIZE + (if last.stack == [] then 0 else WitnessSize(last.stack))
  }

  function InputsWithWitness(ins: seq<TxIn>): (r: nat)
    ensures r <= |ins|
  {
    if ins == [] then 0
    else InputsWithWitness(ins[..|ins| - 1]) + (if ins[|ins| - 1].stack == [] then 0 else 1)
  }

  /** `Transaction::weight`: the segwit marker and flag count once some input has a witness. */
  function Weight(tx: Transaction): nat {
    var nonInput := 4 + VarIntLen(|tx.input|) + VarIntLen(|tx.output|) + OutputsSize(tx.output) + 4;
    var signed := InputsWithWitness(tx.input);
    nonInput * 4 + InputsWeight(tx.input) + (if signed == 0 then 0 else |tx.input| - signed + 2)
  }

  function VSize(tx: Transaction): nat {
    VirtualSize(Weight(tx))
  }

  function DummySigned(tx: Transaction): Transaction {
    tx.(input := seq(|tx.input|, i requires 0 <= i < |tx.input| => DummySignInput(tx.input[i])))
  }

  function MaximumSignedVSize(tx: Transaction): nat {
    VSize(DummySigned(tx))
  }

  lemma {:induction false} DummyWitnessSize()
    ensures WitnessSize(DUMMY_WITNESS) == 108
  {
    assert DUMMY_WITNESS[..1] == [72];
    assert [72][..0] == [];
  }

  lemma {:induction false} InputSizeIs68(outpoint: OutPoint)
    ensures MaximumSignedInputSize(outpoint) == 68
  {
    DummyWitnessSize();
  }

  predicate SameInputs(a: Transaction, b: Transaction) {
    |a.input| == |b.input| &&
    forall i :: 0 <= i < |a.input| ==> a.input[i].previousOutput == b.input[i].previousOutput
  }

  /** A signature never exceeds the dummy signature the size was estimated with. */
  predicate SignatureWitness(w: seq<nat>) {
    |w| == 2 && 0 < w[0] <= 72 && w[1] == 33
  }

  /** `b` is `a` with every input signed. */
  predicate SignedVersion(a: Transaction, b: Transaction) {
    b.output == a.output && SameInputs(a, b) &&
    forall i :: 0 <= i < |b.input| ==> SignatureWitness(b.input[i].stack)
  }

  lemma {:induction false} SignatureWitnessSize(w: seq<nat>)
    requires SignatureWitness(w)
    ensures WitnessSize(w) == 36 + w[0]
  {
    assert w[..1][..0] == [];
    assert ElementsSize(w[..1]) == 1 + w[0];
  }

  lemma {:induction false} SignedInputsWeight(ins: seq<TxIn>)
    requires forall i :: 0 <= i < |ins| ==> SignatureWitness(ins[i].stack)
    ensures InputsWithWitness(ins) == |ins|
    ensures 200 * |ins| < InputsWeight(ins) + 1 <= 272 * |ins| + 1
    ensures (forall i :: 0 <= i < |ins| ==> ins[i].stack == DUMMY_WITNESS) ==> InputsWeight(ins) == 272 * |ins|
  {
    if ins != [] {
      SignedInputsWeight(ins[..|ins| - 1]);
      SignatureWitnessSize(ins[|ins| - 1].stack);
    }
  }

  /** The estimate in closed form: the fixed overhead, the outputs, and 68 vbytes per input. */
  lemma {:induction false} MaximumSignedVSizeClosedForm(tx: Transaction)
    requires |tx.input| > 0
    ensures MaximumSignedVSize(tx)
         == 9 + VarIntLen(|tx.input|) + VarIntLen(|tx.output|) + OutputsSize(tx.output) + 68 * |tx.input|
  {
    SignedInputsWeight(DummySigned(tx).input);
  }

  /** Signing never makes the transaction larger than the estimate its fee was computed from. */
  lemma {:induction false} SignedNeverLarger(a: Transaction, b: Transaction)
    requires |a.input| > 0 && SignedVersion(a, b)
    ensures 0 < VSize(b) <= MaximumSignedVSize(a)
  {
    SignedInputsWeight(DummySigned(a).input);
    SignedInputsWeight(b.input);
  }
}
