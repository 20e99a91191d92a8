/**
 Deadlines of redeem, replace and issue requests: the conversion of parachain blocks to Bitcoin
 blocks, the payment deadline of the vault with its safety margin, and the expiry rule of the
 cancellation scheduler. All heights and periods are `u32`, checked.
 */
module Deadlines {
  import opened Prelude

  const MILLISECS_PER_BLOCK: nat := 12000
  const BITCOIN_BLOCK_MILLIS: nat := 600000

  /** `parachain_blocks_to_bitcoin_blocks_rounded_up`; `None` is an arithmetic error. */
  function ToBitcoinBlocks(parachainBlocks: nat): Option<nat> {
    var millis := parachainBlocks * MILLISECS_PER_BLOCK;
    if millis > U64_MAX then None
    else
      var blocks := (millis + BITCOIN_BLOCK_MILLIS - 1) / BITCOIN_BLOCK_MILLIS;
      if blocks > U32_MAX then None else Some(blocks)
  }

  /** On every `u32` the conversion succeeds: one Bitcoin block per 50 parachain blocks, rounded up. */
  lemma {:induction false} ToBitcoinBlocksTotal(p: nat)
    requires p <= U32_MAX
    ensures ToBitcoinBlocks(p) == Some(CeilDiv(p, 50))
  {
  }

  lemma {:induction false} ToBitcoinBlocksMonotone(p: nat, q: nat)
    requires p <= q <= U32_MAX
    ensures ToBitcoinBlocks(p).value <= ToBitcoinBlocks(q).value
  {
    ToBitcoinBlocksTotal(p);
    ToBitcoinBlocksTotal(q);
    CeilDivMonotone(p, q, 50);
  }

  lemma {:induction false} ToBitcoinBlocksSubadditive(p: nat, q: nat)
    requires p + q <= U32_MAX
    ensures ToBitcoinBlocks(p + q).value <= ToBitcoinBlocks(p).value + ToBitcoinBlocks(q).value
  {
    ToBitcoinBlocksTotal(p);
    ToBitcoinBlocksTotal(q);
    ToBitcoinBlocksTotal(p + q);
    CeilDivSubadditive(p, q, 50);
  }

  datatype Deadline = Deadline(parachain: nat, bitcoin: nat)

  function CheckedAdd(a: nat, b: nat): Option<nat> {
    if a + b > U32_MAX then None else Some(a + b)
  }

  function CheckedSub(a: nat, b: nat): Option<nat> {
    if a < b then None else Some(a - b)
  }

  function DurationToParachainBlocks(millis: nat): Option<nat> {
    var blocks := millis / MILLISECS_PER_BLOCK;
    if blocks > U32_MAX then None else Some(blocks)
  }

  /** `Request::calculate_deadline`. */
  function CalculateDeadline(opentime: nat, btcStart: nat, period: nat, marginMillis: nat): Option<Deadline> {
    var margin := DurationToParachainBlocks(marginMillis);
    if margin == None then None
    else
      var p0 := CheckedAdd(opentime, period);
      if p0 == None then None
      else
        var p := CheckedSub(p0.value, margin.value);
        var periodBlocks, marginBlocks := ToBitcoinBlocks(period), ToBitcoinBlocks(margin.value);
        if p == None || periodBlocks == None || marginBlocks == None then None
        else
          var b0 := CheckedAdd(btcStart, periodBlocks.value);
          if b0 == None then None
          else
            var b := CheckedSub(b0.value, marginBlocks.value);
            if b == None then None else Some(Deadline(p.value, b.value))
  }

  /** The guard of `pay_and_execute`. */
  predicate GoesAhead(deadline: Option<Deadline>, parachainHeight: nat, bitcoinHeight: nat) {
    deadline == None ||
    !(parachainHeight >= deadline.value.parachain && bitcoinHeight >= deadline.value.bitcoin)
  }

  /** Deadlines of the cancellation scheduler: the longer of the global and the local period. */
  function SchedulerDeadline(opentime: nat, btcStart: nat, localPeriod: nat, globalPeriod: nat): Option<Deadline> {
    var period := Max(globalPeriod, localPeriod);
    var p := CheckedAdd(opentime, period);
    var blocks := ToBitcoinBlocks(period);
    if p == None || blocks == None then None
    else
      var b := CheckedAdd(btcStart, blocks.value);
      if b == None then None else Some(Deadline(p.value, b.value))
  }

  predicate Expired(d: Deadline, parachainHeight: nat, bitcoinHeight: nat) {
    parachainHeight > d.parachain && bitcoinHeight > d.bitcoin
  }

  /** When the payment deadline exists, and exactly when a payment goes ahead under it: while the
      parachain is below open time plus period less margin, or Bitcoin below its counterpart. */
  lemma {:induction false} GoesAheadIff(opentime: nat, btcStart: nat, period: nat, marginMillis: nat, ph: nat, bh: nat)
    requires period <= U32_MAX
    ensures var margin := marginMillis / MILLISECS_PER_BLOCK;
            var deadline := CalculateDeadline(opentime, btcStart, period, marginMillis);
            && (deadline.Some? <==>
                  && margin <= U32_MAX && margin <= opentime + period <= U32_MAX
                  && CeilDiv(margin, 50) <= btcStart + CeilDiv(period, 50) <= U32_MAX)
            && (deadline.Some? ==>
                  (GoesAhead(deadline, ph, bh) <==>
                     ph < opentime + period - margin || bh < btcStart + CeilDiv(period, 50) - CeilDiv(margin, 50)))
  {
    var margin := marginMillis / MILLISECS_PER_BLOCK;
    ToBitcoinBlocksTotal(period);
    if margin <= U32_MAX {
      ToBitcoinBlocksTotal(margin);
    }
  }

  /** When the scheduler's deadline exists, and exactly when a request is expired under it: past open
      time plus the longer of the two periods on both chains. */
  lemma {:induction false} ExpiredIff(opentime: nat, btcStart: nat, localPeriod: nat, globalPeriod: nat, ph: nat,
                                      bh: nat)
    requires localPeriod <= U32_MAX && globalPeriod <= U32_MAX
    ensures var period := Max(globalPeriod, localPeriod);
            var deadline := SchedulerDeadline(opentime, btcStart, localPeriod, globalPeriod);
            && (deadline.Some? <==> opentime + period <= U32_MAX && btcStart + CeilDiv(period, 50) <= U32_MAX)
            && (deadline.Some? ==>
                  (Expired(deadline.value, ph, bh) <==> ph > opentime + period && bh > btcStart + CeilDiv(period, 50)))
  {
    ToBitcoinBlocksTotal(Max(globalPeriod, localPeriod));
  }

  /** A payment the vault still makes is never one the scheduler would already cancel, whatever the
      global period: on at least one chain more blocks than the margin are still to pass. */
  lemma {:induction false} PaymentIsTimely(opentime: nat, btcStart: nat, period: nat, globalPeriod: nat,
                                           marginMillis: nat, ph: nat, bh: nat)
    requires period <= U32_MAX && globalPeriod <= U32_MAX
    requires CalculateDeadline(opentime, btcStart, period, marginMillis).Some?
    requires SchedulerDeadline(opentime, btcStart, period, globalPeriod).Some?
    requires GoesAhead(CalculateDeadline(opentime, btcStart, period, marginMillis), ph, bh)
    ensures var d := SchedulerDeadline(opentime, btcStart, period, globalPeriod).value;
            var margin := marginMillis / MILLISECS_PER_BLOCK;
            && !Expired(d, ph, bh)
            && (d.parachain - ph > margin || d.bitcoin - bh > ToBitcoinBlocks(margin).value)
  {
    ToBitcoinBlocksMonotone(period, Max(globalPeriod, period));
  }

  /** And a request the scheduler cancels is past its own period on both chains. */
  lemma {:induction false} ExpiredIsPastOwnPeriod(opentime: nat, btcStart: nat, period: nat, globalPeriod: nat, ph: nat,
                                                  bh: nat)
    requires period <= U32_MAX && globalPeriod <= U32_MAX
    requires SchedulerDeadline(opentime, btcStart, period, globalPeriod).Some?
    requires Expired(SchedulerDeadline(opentime, btcStart, period, globalPeriod).value, ph, bh)
    ensures ph > opentime + period && bh > btcStart + ToBitcoinBlocks(period).value
  {
    ToBitcoinBlocksTotal(period);
    ToBitcoinBlocksMonotone(period, Max(globalPeriod, period));
  }
}
